// The example escrow: one deposit, then either a release before the deadline or a refund at or after
// it, gated by the ledger clock; and its wiring into the harness.

module Escrow {
  import opened Prelude
  import opened AddressPools
  import opened Harness

  const ALREADY_DEPOSITED: nat := 1
  const NOT_DEPOSITED: nat := 2
  const NOT_YET_EXPIRED: nat := 3
  const ALREADY_EXPIRED: nat := 4
  const DEPOSITOR_INDEX: nat := 0
  const BENEFICIARY_INDEX: nat := 1
  const DEADLINE_OFFSET_SECS: nat := 1000
  const STATUS_MATCHES_MODEL: string := "escrow-status-matches-model"

  datatype Status = Empty | Deposited | Released | Refunded

  datatype Storage = Storage(depositor: Address, beneficiary: Address, deadline: nat, status: Status, amount: int)

  function Deposit(s: Storage, amount: int, signers: set<Address>): (Storage, CallResult) {
    if s.depositor !in signers then (s, Abort)
    else if !s.status.Empty? then (s, ContractError(ALREADY_DEPOSITED))
    else (s.(amount := amount, status := Deposited), Returned)
  }

  function Release(s: Storage, now: nat, signers: set<Address>): (Storage, CallResult) {
    if s.depositor !in signers then (s, Abort)
    else if !s.status.Deposited? then (s, ContractError(NOT_DEPOSITED))
    else if now >= s.deadline then (s, ContractError(ALREADY_EXPIRED))
    else (s.(status := Released), Returned)
  }

  function Refund(s: Storage, now: nat): (Storage, CallResult) {
    if !s.status.Deposited? then (s, ContractError(NOT_DEPOSITED))
    else if now < s.deadline then (s, ContractError(NOT_YET_EXPIRED))
    else (s.(status := Refunded), Returned)
  }

  class EscrowContract {
    const depositor: Address
    const beneficiary: Address
    const deadline: nat
    var status: Status
    var amount: int

    constructor (depositor: Address, beneficiary: Address, deadline: nat)
      ensures Stored() == Storage(depositor, beneficiary, deadline, Empty, 0)
    {
      this.depositor, this.beneficiary, this.deadline := depositor, beneficiary, deadline;
      status, amount := Empty, 0;
    }

    function Stored(): Storage
      reads this
    {
      Storage(depositor, beneficiary, deadline, status, amount)
    }

    method MakeDeposit(amount: int, signers: set<Address>) returns (result: CallResult)
      modifies this
      ensures (Stored(), result) == Deposit(old(Stored()), amount, signers)
    {
      if depositor !in signers {
        return Abort;
      }
      if status != Empty {
        return ContractError(ALREADY_DEPOSITED);
      }
      this.amount := amount;
      status := Deposited;
      return Returned;
    }

    method MakeRelease(now: nat, signers: set<Address>) returns (result: CallResult)
      modifies this
      ensures (Stored(), result) == Release(old(Stored()), now, signers)
    {
      if depositor !in signers {
        return Abort;
      }
      if status != Deposited {
        return ContractError(NOT_DEPOSITED);
      }
      if now >= deadline {
        return ContractError(ALREADY_EXPIRED);
      }
      status := Released;
      return Returned;
    }

    method MakeRefund(now: nat) returns (result: CallResult)
      modifies this
      ensures (Stored(), result) == Refund(old(Stored()), now)
    {
      if status != Deposited {
        return ContractError(NOT_DEPOSITED);
      }
      if now < deadline {
        return ContractError(NOT_YET_EXPIRED);
      }
      status := Refunded;
      return Returned;
    }
  }

  // ----- what each call decides -----

  // Each call succeeds under exactly one condition and then changes exactly what it names; every way to
  // fail has its own answer and changes nothing.
  lemma DepositDecides(s: Storage, amount: int, signers: set<Address>)
    ensures var (s', result) := Deposit(s, amount, signers);
            && (result == Abort <==> s.depositor !in signers)
            && (result == ContractError(1) <==> s.depositor in signers && s.status != Empty)
            && (result == Returned <==> s.depositor in signers && s.status == Empty)
            && s' == if result != Returned then s
                     else Storage(s.depositor, s.beneficiary, s.deadline, Deposited, amount)
  {
  }

  lemma ReleaseDecides(s: Storage, now: nat, signers: set<Address>)
    ensures var (s', result) := Release(s, now, signers);
            && (result == Abort <==> s.depositor !in signers)
            && (result == ContractError(2) <==> s.depositor in signers && s.status != Deposited)
            && (result == ContractError(4) <==> s.depositor in signers && s.status == Deposited && s.deadline <= now)
            && (result == Returned <==> s.depositor in signers && s.status == Deposited && now < s.deadline)
            && s' == if result != Returned then s
                     else Storage(s.depositor, s.beneficiary, s.deadline, Released, s.amount)
  {
  }

  lemma RefundDecides(s: Storage, now: nat)
    ensures var (s', result) := Refund(s, now);
            && (result == ContractError(2) <==> s.status != Deposited)
            && (result == ContractError(3) <==> s.status == Deposited && now < s.deadline)
            && (result == Returned <==> s.status == Deposited && s.deadline <= now)
            && s' == if result != Returned then s
                     else Storage(s.depositor, s.beneficiary, s.deadline, Refunded, s.amount)
  {
  }

  // ----- the harness -----

  datatype Command = DepositCommand(amount: nat) | ReleaseCommand | RefundCommand | AdvanceTime(seconds: nat)

  datatype Shadow = Shadow(depositor: Address, status: Status)

  function Executed(s: Storage, now: nat, pool: Pool, command: Command, authorizers: seq<Address>): (Storage, Outcome) {
    var depositor := Get(pool, DEPOSITOR_INDEX);
    var satisfied := depositor in authorizers;
    var signers := if satisfied then {depositor} else {};
    match command
    case DepositCommand(amount) =>
      var (s', result) := Deposit(s, amount, signers);
      (s', FromTryResult(result, satisfied))
    case ReleaseCommand => var (s', result) := Release(s, now, signers); (s', FromTryResult(result, satisfied))
    case RefundCommand => var (s', result) := Refund(s, now); (s', FromTryResult(result, true))
    case AdvanceTime(_) => (s, Ok)
  }

  function Execute(world: World<Storage>, pool: Pool, command: Command,
                   authorizers: seq<Address>): (World<Storage>, Execution)
  {
    var (s', outcome) := Executed(world.contract, world.time, pool, command, authorizers);
    (World(if command.AdvanceTime? then SaturatingAddU64(world.time, command.seconds) else world.time, s'),
     Finished(outcome))
  }

  function Applied(model: Shadow, pool: Pool, command: Command, outcome: Outcome): Option<Shadow> {
    if !outcome.Ok? then Some(model)
    else
      match command
      case DepositCommand(_) => Some(model.(status := Deposited))
      case ReleaseCommand => Some(model.(status := Released))
      case RefundCommand => Some(model.(status := Refunded))
      case AdvanceTime(_) => Some(model)
  }

  function StatusText(status: Status): string {
    match status
    case Empty => "Empty"
    case Deposited => "Deposited"
    case Released => "Released"
    case Refunded => "Refunded"
  }

  type Ctx = InvariantCtx<Command, Storage, Shadow>

  function StatusMatchesModel(): Ctx -> Check {
    (ctx: Ctx) =>
      if ctx.world.contract.status == ctx.model.status then Pass
      else Fail(Violation(STATUS_MATCHES_MODEL,
                          "on-chain status " + StatusText(ctx.world.contract.status) + " != model status "
                            + StatusText(ctx.model.status),
                          ctx.stepIndex))
  }

  // The check passes exactly if contract and shadow agree on the status, and otherwise reports itself.
  lemma StatusCheckDecides(ctx: Ctx)
    ensures var check := StatusMatchesModel()(ctx);
            if ctx.world.contract.status == ctx.model.status then check == Pass
            else check.Fail? && check.violation.invariantName == "escrow-status-matches-model"
                 && check.violation.stepIndex == ctx.stepIndex
  {
  }

  function Setup(pool: Pool): (World<Storage>, Shadow) {
    var depositor := Get(pool, DEPOSITOR_INDEX);
    (World(0, Storage(depositor, Get(pool, BENEFICIARY_INDEX), SaturatingAddU64(0, DEADLINE_OFFSET_SECS), Empty, 0)),
     Shadow(depositor, Empty))
  }

  function EscrowAdapter(): Adapter<Command, Storage, Shadow> {
    Adapter(Setup, Execute, Applied, [StatusMatchesModel()])
  }

  // ----- what every run keeps -----

  type EscrowStep = Step<Command>

  ghost function Agree(pool: Pool): (World<Storage>, Shadow) -> bool {
    (world: World<Storage>, m: Shadow) =>
      && world.contract.status == m.status
      && world.contract.depositor == m.depositor == Get(pool, DEPOSITOR_INDEX)
      && world.contract.deadline == DEADLINE_OFFSET_SECS
      && world.time <= U64_MAX
  }

  // What one command, executed at `now`, may do to the contract.
  ghost predicate Moves(s: Storage, now: nat, s': Storage) {
    && s'.depositor == s.depositor && s'.deadline == s.deadline && s'.beneficiary == s.beneficiary
    && (|| s' == s
        || (s.status.Empty? && s'.status.Deposited?)
        || (s.status.Deposited? && s'.status.Released? && now < s.deadline && s'.amount == s.amount)
        || (s.status.Deposited? && s'.status.Refunded? && now >= s.deadline && s'.amount == s.amount))
  }

  lemma CommandDecided(s: Storage, m: Shadow, now: nat, pool: Pool, command: Command, authorizers: seq<Address>)
    requires s.status == m.status && s.depositor == m.depositor == Get(pool, DEPOSITOR_INDEX)
    ensures var (s', outcome) := Executed(s, now, pool, command, authorizers);
            && !outcome.UndeclaredPanic?
            && Moves(s, now, s')
            && Applied(m, pool, command, outcome).Some?
            && s'.status == Applied(m, pool, command, outcome).value.status
            && (outcome.Ok? && command.ReleaseCommand?
                ==> s.status.Deposited? && s'.status.Released? && now < s.deadline)
            && (outcome.Ok? && command.RefundCommand?
                ==> s.status.Deposited? && s'.status.Refunded? && now >= s.deadline)
  {
  }

  // Which commands succeed, by the clock, the status and whether the step authorizes the first address of
  // the pool; and where the clock stands afterwards.
  lemma CommandSucceedsIff(world: World<Storage>, m: Shadow, pool: Pool, command: Command, indices: seq<nat>)
    requires Agree(pool)(world, m)
    ensures var (world', execution) := Execute(world, pool, command, Resolved(pool, indices));
            var status, now := world.contract.status, world.time;
            var signed := exists i :: 0 <= i < |indices| && pool[indices[i] % |pool|] == pool[0];
            var ok := execution == Finished(Ok);
            && (command.DepositCommand? ==> (ok <==> signed && status == Empty))
            && (command.ReleaseCommand? ==> (ok <==> signed && status == Deposited && now < 1000))
            && (command.RefundCommand? ==> (ok <==> status == Deposited && 1000 <= now))
            && (command.AdvanceTime? ==>
                 && ok
                 && world'.time == if now + command.seconds <= U64_MAX then now + command.seconds else U64_MAX)
            && (!ok || command.AdvanceTime? ==> world'.contract == world.contract)
            && (!command.AdvanceTime? ==> world'.time == now)
  {
    SignersAreNamed(pool, indices, pool[0]);
    assert Get(pool, DEPOSITOR_INDEX) == pool[0];
  }

  lemma CheckOne(ctx: Ctx)
    ensures CheckAll([StatusMatchesModel()], ctx) == StatusMatchesModel()(ctx)
  {
    assert [StatusMatchesModel()][1..] == [];
  }

  // The time at which a step's command executes.
  function StepTime(world: World<Storage>, step: EscrowStep): nat {
    Advance(world, step.advanceTime).time
  }

  lemma StepDecided(pool: Pool, i: nat, step: EscrowStep, world: World<Storage>, m: Shadow)
    requires Agree(pool)(world, m)
    ensures var result := RunStep(EscrowAdapter(), pool, i, step, world, m);
            && result.Continue?
            && Agree(pool)(result.world, result.model)
            && Moves(world.contract, StepTime(world, step), result.world.contract)
            && world.time <= StepTime(world, step) <= result.world.time
  {
    var authorizers := Resolved(pool, step.authorized);
    var advanced := Advance(world, step.advanceTime);
    CommandDecided(world.contract, m, advanced.time, pool, step.command, authorizers);
    var (s', outcome) := Executed(world.contract, advanced.time, pool, step.command, authorizers);
    var m' := Applied(m, pool, step.command, outcome).value;
    var world' := Execute(advanced, pool, step.command, authorizers).0;
    CheckOne(InvariantCtx(world', m', step.command, outcome, authorizers, pool, i));
  }

  // ----- whole runs -----

  function Reached(pool: Pool, steps: seq<EscrowStep>, k: nat): Option<(World<Storage>, Shadow)>
    requires k <= |steps|
  {
    After(EscrowAdapter(), pool, steps, k)
  }

  // What remains true of an escrow that was once `s` at time `t`.
  ghost predicate Since(s: Storage, t: nat, later: Storage, now: nat) {
    && t <= now
    && later.deadline == s.deadline && later.depositor == s.depositor && later.beneficiary == s.beneficiary
    && (!s.status.Empty? ==> !later.status.Empty? && later.amount == s.amount)
    && (s.status.Released? || s.status.Refunded? ==> later == s)
  }

  ghost function AgreeSince(pool: Pool, s: Storage, t: nat): (World<Storage>, Shadow) -> bool {
    (world: World<Storage>, m: Shadow) => Agree(pool)(world, m) && Since(s, t, world.contract, world.time)
  }

  lemma StepsKeepAgree(pool: Pool, steps: seq<EscrowStep>)
    ensures StepsKeep(EscrowAdapter(), pool, steps, Agree(pool))
  {
    forall i: nat, world, m
      | i < |steps| && Agree(pool)(world, m) && RunStep(EscrowAdapter(), pool, i, steps[i], world, m).Continue?
      ensures var result := RunStep(EscrowAdapter(), pool, i, steps[i], world, m);
        Agree(pool)(result.world, result.model)
    {
      StepDecided(pool, i, steps[i], world, m);
    }
  }

  lemma StepsKeepSince(pool: Pool, steps: seq<EscrowStep>, s: Storage, t: nat)
    ensures StepsKeep(EscrowAdapter(), pool, steps, AgreeSince(pool, s, t))
  {
    forall i: nat, world, m
      | i < |steps| && AgreeSince(pool, s, t)(world, m)
        && RunStep(EscrowAdapter(), pool, i, steps[i], world, m).Continue?
      ensures var result := RunStep(EscrowAdapter(), pool, i, steps[i], world, m);
        AgreeSince(pool, s, t)(result.world, result.model)
    {
      StepDecided(pool, i, steps[i], world, m);
    }
  }

  lemma ReachedAgree(pool: Pool, steps: seq<EscrowStep>, k: nat)
    requires k <= |steps| && Reached(pool, steps, k).Some?
    ensures Agree(pool)(Reached(pool, steps, k).value.0, Reached(pool, steps, k).value.1)
  {
    StepsKeepAgree(pool, steps);
    InvariantAlong(EscrowAdapter(), pool, steps, Agree(pool), k);
  }

  // Every escrow run is clean: the status always matches the model and nothing panics.
  lemma EscrowIsClean(pool: Pool, steps: seq<EscrowStep>, bound: nat)
    ensures RunAll(EscrowAdapter(), pool, steps, bound) == Clean
  {
    var run := Truncated(steps, bound);
    VerdictIsFirstStop(EscrowAdapter(), pool, steps, bound);
    forall k: nat, v | k < |run| ensures !StopsAt(EscrowAdapter(), pool, run, k, v) {
      if Reached(pool, run, k).Some? {
        ReachedAgree(pool, run, k);
        StepDecided(pool, k, run[k], Reached(pool, run, k).value.0, Reached(pool, run, k).value.1);
      }
    }
  }

  // Between any two points of a run the clock never goes back, the parties and the deadline stay, the amount is frozen
  // by the one deposit, and a settled escrow never changes again.
  lemma EscrowOnlyMovesForward(pool: Pool, steps: seq<EscrowStep>, i: nat, k: nat)
    requires i <= k <= |steps| && Reached(pool, steps, i).Some? && Reached(pool, steps, k).Some?
    ensures var (before, after) := (Reached(pool, steps, i).value.0, Reached(pool, steps, k).value.0);
            Since(before.contract, before.time, after.contract, after.time)
  {
    var before := Reached(pool, steps, i).value.0;
    ReachedAgree(pool, steps, i);
    StepsKeepSince(pool, steps, before.contract, before.time);
    InvariantBetween(EscrowAdapter(), pool, steps, AgreeSince(pool, before.contract, before.time), i, k);
  }

  // Step `k` is reached and its command succeeds.
  predicate SucceedsAt(pool: Pool, steps: seq<EscrowStep>, k: nat)
    requires k < |steps|
  {
    match Reached(pool, steps, k)
    case None => false
    case Some((world, _)) =>
      Executed(world.contract, StepTime(world, steps[k]), pool, steps[k].command,
               Resolved(pool, steps[k].authorized)).1.Ok?
  }

  predicate Settles(command: Command) {
    command.ReleaseCommand? || command.RefundCommand?
  }

  // A release succeeds only strictly before the deadline and a refund only at or after it, both only on
  // a deposited escrow, which is settled from then on.
  lemma SettlementRespectsDeadline(pool: Pool, steps: seq<EscrowStep>, k: nat)
    requires k < |steps| && Settles(steps[k].command) && SucceedsAt(pool, steps, k)
    ensures Reached(pool, steps, k + 1).Some?
    ensures var world := Reached(pool, steps, k).value.0;
            var settled := Reached(pool, steps, k + 1).value.0.contract;
            && world.contract.status.Deposited?
            && (steps[k].command.ReleaseCommand?
                ==> StepTime(world, steps[k]) < DEADLINE_OFFSET_SECS && settled.status.Released?)
            && (steps[k].command.RefundCommand?
                ==> StepTime(world, steps[k]) >= DEADLINE_OFFSET_SECS && settled.status.Refunded?)
  {
    var (world, m) := Reached(pool, steps, k).value;
    ReachedAgree(pool, steps, k);
    StepDecided(pool, k, steps[k], world, m);
    CommandDecided(world.contract, m, StepTime(world, steps[k]), pool, steps[k].command,
                   Resolved(pool, steps[k].authorized));
  }

  // At most one release or refund ever succeeds in a run.
  lemma AtMostOneSettlement(pool: Pool, steps: seq<EscrowStep>, i: nat, k: nat)
    requires i < |steps| && Settles(steps[i].command) && SucceedsAt(pool, steps, i)
    requires k < |steps| && Settles(steps[k].command) && SucceedsAt(pool, steps, k)
    ensures i == k
  {
    SettlementRespectsDeadline(pool, steps, i);
    SettlementRespectsDeadline(pool, steps, k);
    if i < k {
      EscrowOnlyMovesForward(pool, steps, i + 1, k);
    } else if k < i {
      EscrowOnlyMovesForward(pool, steps, k + 1, i);
    }
  }
}
