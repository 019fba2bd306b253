// The example counter, checked i64 arithmetic against a saturating shadow model, and its deliberately
// broken variant whose increment adds 2.

module Counter {
  import opened Prelude
  import opened AddressPools
  import opened Decimal
  import opened Harness

  const OVERFLOW: nat := 1
  const UNDERFLOW: nat := 2
  const VALUE_MATCHES_MODEL: string := "counter-value-matches-model"
  const ON_CHAIN_COUNT: string := "on-chain count "

  type I64 = x: int | I64_MIN <= x <= I64_MAX

  datatype Storage = Storage(admin: Address, count: I64)

  // `bump` is what increment adds: 1, or 2 in the broken variant.
  function Incremented(s: Storage, bump: int): (Storage, CallResult) {
    if FitsI64(s.count + bump) then (s.(count := s.count + bump), Returned) else (s, ContractError(OVERFLOW))
  }

  function Decremented(s: Storage): (Storage, CallResult) {
    if FitsI64(s.count - 1) then (s.(count := s.count - 1), Returned) else (s, ContractError(UNDERFLOW))
  }

  function Assigned(s: Storage, value: I64, signers: set<Address>): (Storage, CallResult) {
    if s.admin in signers then (s.(count := value), Returned) else (s, Abort)
  }

  class CounterContract {
    const admin: Address
    const bump: int
    var count: I64

    constructor (admin: Address, bump: int)
      ensures Stored() == Storage(admin, 0) && this.bump == bump
    {
      this.admin, this.bump, count := admin, bump, 0;
    }

    function Stored(): Storage
      reads this
    {
      Storage(admin, count)
    }

    method Increment() returns (result: CallResult)
      modifies this
      ensures (Stored(), result) == Incremented(old(Stored()), bump)
    {
      var newCount := count as int + bump;
      if !FitsI64(newCount) {
        return ContractError(OVERFLOW);
      }
      count := newCount;
      return Returned;
    }

    method Decrement() returns (result: CallResult)
      modifies this
      ensures (Stored(), result) == Decremented(old(Stored()))
    {
      if count == I64_MIN {
        return ContractError(UNDERFLOW);
      }
      count := count - 1;
      return Returned;
    }

    method Reset(signers: set<Address>) returns (result: CallResult)
      modifies this
      ensures (Stored(), result) == Assigned(old(Stored()), 0, signers)
    {
      if admin !in signers {
        return Abort;
      }
      count := 0;
      return Returned;
    }

    method Set(value: I64, signers: set<Address>) returns (result: CallResult)
      modifies this
      ensures (Stored(), result) == Assigned(old(Stored()), value, signers)
    {
      if admin !in signers {
        return Abort;
      }
      count := value;
      return Returned;
    }
  }

  // ----- what each call decides -----

  // Counting fails exactly at the ends of i64, each with its own error; anyone may count.
  lemma CountingDecides(s: Storage, bump: int)
    ensures var (up, raised) := Incremented(s, bump);
            && (raised == Returned <==> -0x8000_0000_0000_0000 <= s.count + bump <= 0x7FFF_FFFF_FFFF_FFFF)
            && (raised == ContractError(1) <==> raised != Returned)
            && up.admin == s.admin && up.count == if raised == Returned then s.count + bump else s.count
    ensures var (down, lowered) := Decremented(s);
            && (lowered == ContractError(2) <==> s.count == -0x8000_0000_0000_0000)
            && (lowered == Returned <==> lowered != ContractError(2))
            && down.admin == s.admin && down.count == if lowered == Returned then s.count - 1 else s.count
  {
  }

  // Setting and resetting abort exactly without the admin's signature.
  lemma AssignedDecides(s: Storage, value: I64, signers: set<Address>)
    ensures var (s', result) := Assigned(s, value, signers);
            && (result == Returned <==> s.admin in signers)
            && (result == Abort <==> s.admin !in signers)
            && s' == if result == Returned then Storage(s.admin, value) else s
  {
  }

  // ----- the harness -----

  datatype Command = Increment | Decrement | Reset | Set(value: I64)

  // `i64::saturating_add`.
  function Saturated(x: int): I64 {
    if x > I64_MAX then I64_MAX else if x < I64_MIN then I64_MIN else x
  }

  // Saturating gives the i64 nearest to the exact result.
  lemma SaturatedIsNearest(x: int, y: I64)
    ensures Saturated(x) <= x ==> y <= Saturated(x) || x <= y
    ensures x <= Saturated(x) ==> Saturated(x) <= y || y <= x
    ensures I64_MIN <= x <= I64_MAX ==> Saturated(x) == x
  {
  }

  // The shadow model is the expected count.
  function Applied(expected: I64, pool: Pool, command: Command, outcome: Outcome): Option<I64> {
    if !outcome.Ok? then Some(expected)
    else
      match command
      case Increment => Some(Saturated(expected + 1))
      case Decrement => Some(Saturated(expected - 1))
      case Reset => Some(0)
      case Set(value) => Some(value)
  }

  function Called(s: Storage, command: Command, bump: int, signers: set<Address>): (Storage, CallResult) {
    match command
    case Increment => Incremented(s, bump)
    case Decrement => Decremented(s)
    case Reset => Assigned(s, 0, signers)
    case Set(value) => Assigned(s, value, signers)
  }

  function Executed(s: Storage, pool: Pool, command: Command, bump: int, authorizers: seq<Address>): (Storage, Outcome)
  {
    var admin := Get(pool, 0);
    var open := command.Increment? || command.Decrement?;
    var satisfied := open || admin in authorizers;
    var (s', result) := Called(s, command, bump, if satisfied && !open then {admin} else {});
    (s', FromTryResult(result, satisfied))
  }

  function Execute(bump: int): (World<Storage>, Pool, Command, seq<Address>) -> (World<Storage>, Execution) {
    (world: World<Storage>, pool: Pool, command: Command, authorizers: seq<Address>) =>
      var (s', outcome) := Executed(world.contract, pool, command, bump, authorizers);
      (World(world.time, s'), Finished(outcome))
  }

  type Ctx = InvariantCtx<Command, Storage, I64>

  function ValueMatchesModel(): Ctx -> Check {
    (ctx: Ctx) =>
    if ctx.world.contract.count == ctx.model then Pass
    else Fail(Violation(VALUE_MATCHES_MODEL,
                        ON_CHAIN_COUNT + ShowInt(ctx.world.contract.count) + " != model's expected count "
                          + ShowInt(ctx.model),
                        ctx.stepIndex))
  }

  function Setup(pool: Pool): (World<Storage>, I64) {
    (World(0, Storage(Get(pool, 0), 0)), 0)
  }

  function CounterAdapter(bump: int): Adapter<Command, Storage, I64> {
    Adapter(Setup, Execute(bump), Applied, [ValueMatchesModel()])
  }

  // ----- what the harness says -----

  type CounterStep = Step<Command>

  ghost function Agree(pool: Pool): (World<Storage>, I64) -> bool {
    (world: World<Storage>, expected: I64) => world.contract.count == expected && world.contract.admin == Get(pool, 0)
  }

  // An increment that succeeds but not by one.
  predicate Diverges(world: World<Storage>, bump: int, command: Command) {
    command.Increment? && bump != 1 && FitsI64(world.contract.count + bump)
  }

  lemma CheckOne(ctx: Ctx)
    ensures CheckAll([ValueMatchesModel()], ctx) == ValueMatchesModel()(ctx)
  {
    assert [ValueMatchesModel()][1..] == [];
  }

  // A command from agreeing counts never panics, and leaves them agreeing unless it diverges.
  lemma CommandDecided(s: Storage, expected: I64, pool: Pool, command: Command, bump: int, authorizers: seq<Address>)
    requires bump == 1 || bump == 2
    requires s.count == expected && s.admin == Get(pool, 0)
    ensures var (s', outcome) := Executed(s, pool, command, bump, authorizers);
            && !outcome.UndeclaredPanic?
            && s'.admin == s.admin
            && Applied(expected, pool, command, outcome).Some?
            && (s'.count == Applied(expected, pool, command, outcome).value
                <==> !(command.Increment? && bump != 1 && FitsI64(s.count + bump)))
  {
  }

  // Which commands succeed and what they leave: counting within i64 by anyone, resetting and setting by
  // steps that authorize the first address of the pool.
  lemma CommandSucceedsIff(s: Storage, pool: Pool, command: Command, bump: int, indices: seq<nat>)
    requires s.admin == Get(pool, 0)
    ensures var (s', outcome) := Executed(s, pool, command, bump, Resolved(pool, indices));
            var signed := exists i :: 0 <= i < |indices| && pool[indices[i] % |pool|] == pool[0];
            && s'.admin == s.admin
            && (outcome != Ok ==> s' == s)
            && (command.Increment? ==> (outcome == Ok <==> I64_MIN <= s.count + bump <= I64_MAX))
            && (command.Increment? && outcome == Ok ==> s'.count == s.count + bump)
            && (command.Decrement? ==> (outcome == Ok <==> s.count > I64_MIN))
            && (command.Decrement? && outcome == Ok ==> s'.count == s.count - 1)
            && (command.Reset? || command.Set? ==> (outcome == Ok <==> signed) && (outcome.Rejected? <==> !signed))
            && (command.Reset? && signed ==> s'.count == 0)
            && (command.Set? && signed ==> s'.count == command.value)
  {
    SignersAreNamed(pool, indices, pool[0]);
  }

  lemma StepDecided(bump: int, pool: Pool, i: nat, step: CounterStep, world: World<Storage>, expected: I64)
    requires bump == 1 || bump == 2
    requires Agree(pool)(world, expected)
    ensures var result := RunStep(CounterAdapter(bump), pool, i, step, world, expected);
            if Diverges(world, bump, step.command) then
              result.Stop? && Reports(result.verdict, VALUE_MATCHES_MODEL, ON_CHAIN_COUNT, i)
            else result.Continue? && Agree(pool)(result.world, result.model)
  {
    var authorizers := Resolved(pool, step.authorized);
    var advanced := Advance(world, step.advanceTime);
    CommandDecided(world.contract, expected, pool, step.command, bump, authorizers);
    var (s', outcome) := Executed(world.contract, pool, step.command, bump, authorizers);
    var expected' := Applied(expected, pool, step.command, outcome).value;
    CheckOne(InvariantCtx(World(advanced.time, s'), expected', step.command, outcome, authorizers, pool, i));
    assert CounterAdapter(bump).execute(advanced, pool, step.command, authorizers)
      == (World(advanced.time, s'), Finished(outcome));
  }

  function Reached(bump: int, pool: Pool, steps: seq<CounterStep>, k: nat): Option<(World<Storage>, I64)>
    requires k <= |steps|
  {
    After(CounterAdapter(bump), pool, steps, k)
  }

  lemma ReachedAgree(bump: int, pool: Pool, steps: seq<CounterStep>, k: nat)
    requires (bump == 1 || bump == 2) && k <= |steps| && Reached(bump, pool, steps, k).Some?
    ensures Agree(pool)(Reached(bump, pool, steps, k).value.0, Reached(bump, pool, steps, k).value.1)
  {
    forall i: nat, world, model
      | i < |steps| && Agree(pool)(world, model)
        && RunStep(CounterAdapter(bump), pool, i, steps[i], world, model).Continue?
      ensures var result := RunStep(CounterAdapter(bump), pool, i, steps[i], world, model);
        Agree(pool)(result.world, result.model)
    {
      StepDecided(bump, pool, i, steps[i], world, model);
    }
    InvariantAlong(CounterAdapter(bump), pool, steps, Agree(pool), k);
  }

  // Step `k` is reached and is an increment that diverges.
  predicate DivergesAt(bump: int, pool: Pool, steps: seq<CounterStep>, k: nat)
    requires k < |steps|
  {
    match Reached(bump, pool, steps, k)
    case None => false
    case Some((world, _)) => Diverges(world, bump, steps[k].command)
  }

  lemma StopsExactlyWhenDiverging(bump: int, pool: Pool, steps: seq<CounterStep>, k: nat, verdict: Verdict)
    requires (bump == 1 || bump == 2) && k < |steps|
    ensures StopsAt(CounterAdapter(bump), pool, steps, k, verdict) ==>
      && DivergesAt(bump, pool, steps, k)
      && Reports(verdict, VALUE_MATCHES_MODEL, ON_CHAIN_COUNT, k)
    ensures DivergesAt(bump, pool, steps, k) ==> exists v :: StopsAt(CounterAdapter(bump), pool, steps, k, v)
  {
    if Reached(bump, pool, steps, k).Some? {
      var (world, expected) := Reached(bump, pool, steps, k).value;
      ReachedAgree(bump, pool, steps, k);
      StepDecided(bump, pool, k, steps[k], world, expected);
      var result := RunStep(CounterAdapter(bump), pool, k, steps[k], world, expected);
      assert result.Stop? ==> StopsAt(CounterAdapter(bump), pool, steps, k, result.verdict);
    }
  }

  // The counter's verdict, broken or not: a mismatch at step `k` exactly when `k` is a reached increment
  // that diverges, otherwise clean.
  lemma CounterVerdict(bump: int, pool: Pool, steps: seq<CounterStep>, bound: nat)
    requires bump == 1 || bump == 2
    ensures var run := Truncated(steps, bound);
            var verdict := RunAll(CounterAdapter(bump), pool, steps, bound);
            && verdict != Crashed
            && (verdict == Clean <==> forall k: nat :: k < |run| ==> !DivergesAt(bump, pool, run, k))
            && (verdict.Found? ==>
                 && verdict.violation.stepIndex < |run|
                 && Reports(verdict, VALUE_MATCHES_MODEL, ON_CHAIN_COUNT, verdict.violation.stepIndex))
            && (forall k: nat ::
                k < |run| ==> (DivergesAt(bump, pool, run, k) <==> verdict.Found? && verdict.violation.stepIndex == k))
  {
    var run := Truncated(steps, bound);
    var verdict := RunAll(CounterAdapter(bump), pool, steps, bound);
    VerdictIsFirstStop(CounterAdapter(bump), pool, steps, bound);
    forall k: nat | k < |run|
      ensures DivergesAt(bump, pool, run, k) <==> StopsAt(CounterAdapter(bump), pool, run, k, verdict)
      ensures DivergesAt(bump, pool, run, k) ==>
        Reports(verdict, VALUE_MATCHES_MODEL, ON_CHAIN_COUNT, k)
    {
      StopsExactlyWhenDiverging(bump, pool, run, k, verdict);
    }
    if verdict != Clean {
      var k: nat, v :| k < |run| && StopsAt(CounterAdapter(bump), pool, run, k, v);
      StopsExactlyWhenDiverging(bump, pool, run, k, v);
    }
  }

  // The correct counter is clean on every run, although it checks and the model saturates.
  lemma CorrectCounterIsClean(pool: Pool, steps: seq<CounterStep>, bound: nat)
    ensures RunAll(CounterAdapter(1), pool, steps, bound) == Clean
  {
    CounterVerdict(1, pool, steps, bound);
    var run := Truncated(steps, bound);
    forall k: nat | k < |run| ensures !DivergesAt(1, pool, run, k) {
    }
  }

  // The broken counter is reported at exactly the first reached increment from a count of at most
  // i64::MAX - 2.
  lemma BrokenCounterVerdict(pool: Pool, steps: seq<CounterStep>, bound: nat, k: nat)
    requires k < |Truncated(steps, bound)|
    ensures var run := Truncated(steps, bound);
            var verdict := RunAll(CounterAdapter(2), pool, steps, bound);
            verdict.Found? && verdict.violation.stepIndex == k <==>
              run[k].command.Increment? && Reached(2, pool, run, k).Some?
                && Reached(2, pool, run, k).value.0.contract.count <= I64_MAX - 2
  {
    CounterVerdict(2, pool, steps, bound);
    var run := Truncated(steps, bound);
    assert DivergesAt(2, pool, run, k) <==>
           run[k].command.Increment? && Reached(2, pool, run, k).Some?
             && Reached(2, pool, run, k).value.0.contract.count <= I64_MAX - 2;
  }

  // A run that begins with an increment is caught at step 0 whatever follows.
  lemma BrokenIncrementCaught(pool: Pool, first: CounterStep, rest: seq<CounterStep>, bound: nat)
    requires first.command.Increment? && bound >= 1
    ensures var verdict := RunAll(CounterAdapter(2), pool, [first] + rest, bound);
      verdict.Found? && verdict.violation.stepIndex == 0
  {
    BrokenCounterVerdict(pool, [first] + rest, bound, 0);
  }
}
