// What every token run keeps, and exactly what its verdict is.

module TokenSafety {
  import opened Prelude
  import opened AddressPools
  import opened Harness
  import opened Invariants
  import opened Token
  import opened TokenHarness

  // ----- the association list -----

  function Keys(balances: seq<(Address, int)>): set<Address> {
    if balances == [] then {} else {balances[0].0} + Keys(balances[1..])
  }

  predicate UniqueKeys(balances: seq<(Address, int)>) {
    balances != [] ==> balances[0].0 !in Keys(balances[1..]) && UniqueKeys(balances[1..])
  }

  function ListTotal(balances: seq<(Address, int)>): int {
    if balances == [] then 0 else balances[0].1 + ListTotal(balances[1..])
  }

  // Adding to an address changes its balance and the total by the same amount and nobody else's.
  lemma {:induction false} AddedChangesOne(balances: seq<(Address, int)>, who: Address, delta: int, other: Address)
    requires UniqueKeys(balances) && Added(balances, who, delta).Some?
    ensures var added := Added(balances, who, delta).value;
            && UniqueKeys(added) && Keys(added) == Keys(balances) + {who}
            && BalanceOf(added, other) == BalanceOf(balances, other) + (if other == who then delta else 0)
            && ListTotal(added) == ListTotal(balances) + delta
  {
    if balances != [] {
      var added := Added(balances, who, delta).value;
      if balances[0].0 == who {
        assert added[1..] == balances[1..];
        WithoutKeyNoBalance(balances[1..], who);
      } else {
        AddedChangesOne(balances[1..], who, delta, other);
        assert added[1..] == Added(balances[1..], who, delta).value;
      }
    }
  }

  lemma {:induction false} WithoutKeyNoBalance(balances: seq<(Address, int)>, who: Address)
    requires who !in Keys(balances)
    ensures BalanceOf(balances, who) == 0
  {
    if balances != [] {
      WithoutKeyNoBalance(balances[1..], who);
    }
  }

  lemma {:induction false} EntriesAreBalances(balances: seq<(Address, int)>, i: nat)
    requires UniqueKeys(balances) && i < |balances|
    ensures balances[i].0 in Keys(balances) && BalanceOf(balances, balances[i].0) == balances[i].1
  {
    if i > 0 {
      EntriesAreBalances(balances[1..], i - 1);
    }
  }

  // The sum the invariant takes, holder by holder, is the total of the list.
  lemma {:induction false} SumIsListTotal(balances: seq<(Address, int)>, n: nat)
    requires UniqueKeys(balances) && n <= |balances|
    ensures Sum(Holders(balances)[n..], BalanceReader(balances)) == ListTotal(balances[n..])
    decreases |balances| - n
  {
    if n < |balances| {
      SumIsListTotal(balances, n + 1);
      EntriesAreBalances(balances, n);
      assert balances[n..][1..] == balances[n + 1..];
      assert Holders(balances)[n..][1..] == Holders(balances)[n + 1..];
    }
  }

  // An address with a balance is one of the holders.
  lemma {:induction false} HolderOf(balances: seq<(Address, int)>, a: Address) returns (i: nat)
    requires BalanceOf(balances, a) != 0
    ensures i < |balances| && balances[i].0 == a
  {
    if balances[0].0 == a {
      i := 0;
    } else {
      var k := HolderOf(balances[1..], a);
      i := k + 1;
    }
  }

  // ----- the relation between contract and shadow model -----

  // The contract's storage `k` and the shadow model `m` between steps: the same admin and supply, a
  // well-formed list that sums to it, and contract balances that are never below the shadow's.
  ghost predicate Related(pool: Pool, k: Storage, m: Shadow) {
    && k.admin == m.admin == Get(pool, ADMIN_INDEX)
    && k.supply == m.totalSupply == ListTotal(m.balances)
    && 0 <= m.totalSupply <= I128_MAX
    && UniqueKeys(m.balances)
    && forall a :: 0 <= BalanceOf(m.balances, a) <= BalanceIn(k.balances, a) <= I128_MAX
  }

  // What the contract's balance of `a` exceeds the shadow's by.
  function Drift(k: Storage, m: Shadow, a: Address): int {
    BalanceIn(k.balances, a) - BalanceOf(m.balances, a)
  }

  lemma {:induction false} NonNegativeTotal(balances: seq<(Address, int)>)
    requires UniqueKeys(balances) && forall a :: BalanceOf(balances, a) >= 0
    ensures ListTotal(balances) >= 0
  {
    if balances != [] {
      forall a ensures BalanceOf(balances[1..], a) >= 0 {
        assert BalanceOf(balances, a) >= 0;
        if a == balances[0].0 {
          WithoutKeyNoBalance(balances[1..], a);
        }
      }
      NonNegativeTotal(balances[1..]);
      assert BalanceOf(balances, balances[0].0) == balances[0].1;
    }
  }

  // ----- one successful call -----

  // The shadow adjusted for one entry stays a list whose total is its supply.
  lemma AdjustedKeepsList(m: Shadow, who: Address, delta: int, a: Address)
    requires UniqueKeys(m.balances) && m.totalSupply == ListTotal(m.balances)
    requires FitsI128(BalanceOf(m.balances, who) + delta) && FitsI128(m.totalSupply + delta)
    ensures var m' := Adjusted(m, Added(m.balances, who, delta), delta);
            && m'.Some?
            && m'.value.admin == m.admin
            && UniqueKeys(m'.value.balances)
            && m'.value.totalSupply == m.totalSupply + delta == ListTotal(m'.value.balances)
            && BalanceOf(m'.value.balances, a) == BalanceOf(m.balances, a) + (if a == who then delta else 0)
  {
    AddedChangesOne(m.balances, who, delta, a);
  }

  lemma MintKeepsRelated(pool: Pool, k: Storage, m: Shadow, to: Address, amount: Amount, signers: set<Address>)
    requires Related(pool, k, m) && Minted(k, to, amount, signers).1.Returned?
    ensures var k' := Minted(k, to, amount, signers).0;
            var m' := Adjusted(m, Added(m.balances, to, amount), amount);
            && m'.Some?
            && Related(pool, k', m'.value)
            && forall a: Address :: Drift(k', m'.value, a) == Drift(k, m, a)
  {
    var k' := Minted(k, to, amount, signers).0;
    AdjustedKeepsList(m, to, amount, to);
    var m' := Adjusted(m, Added(m.balances, to, amount), amount).value;
    forall a: Address
      ensures Drift(k', m', a) == Drift(k, m, a)
        && 0 <= BalanceOf(m'.balances, a) <= BalanceIn(k'.balances, a) <= I128_MAX
    {
      AdjustedKeepsList(m, to, amount, a);
    }
    NonNegativeTotal(m'.balances);
  }

  // A burn the contract accepts never overflows the shadow; within the shadow balance it keeps the
  // relation, beyond it the shadow balance goes negative.
  lemma BurnKeepsRelated(pool: Pool, k: Storage, m: Shadow, from: Address, amount: Amount, signers: set<Address>)
    requires Related(pool, k, m) && Burned(k, from, amount, signers).1.Returned?
    ensures var k' := Burned(k, from, amount, signers).0;
            var m' := Adjusted(m, Added(m.balances, from, -(amount as int)), -(amount as int));
            && m'.Some?
            && UniqueKeys(m'.value.balances)
            && (amount > BalanceOf(m.balances, from) ==> BalanceOf(m'.value.balances, from) < 0)
            && (amount <= BalanceOf(m.balances, from) ==>
                  Related(pool, k', m'.value) && forall a: Address :: Drift(k', m'.value, a) == Drift(k, m, a))
  {
    var delta := -(amount as int);
    var k' := Burned(k, from, amount, signers).0;
    AdjustedKeepsList(m, from, delta, from);
    var m' := Adjusted(m, Added(m.balances, from, delta), delta).value;
    if amount <= BalanceOf(m.balances, from) {
      forall a: Address
        ensures Drift(k', m', a) == Drift(k, m, a)
          && 0 <= BalanceOf(m'.balances, a) <= BalanceIn(k'.balances, a) <= I128_MAX
      {
        AdjustedKeepsList(m, from, delta, a);
      }
      NonNegativeTotal(m'.balances);
    }
  }

  // The two entries a transfer changes in the list, one after the other.
  lemma TwoEntries(balances: seq<(Address, int)>, debited: seq<(Address, int)>, credited: seq<(Address, int)>,
                   from: Address, to: Address, amount: int, a: Address)
    requires UniqueKeys(balances) && Added(balances, from, -amount) == Some(debited)
      && Added(debited, to, amount) == Some(credited)
    ensures UniqueKeys(credited) && ListTotal(credited) == ListTotal(balances)
    ensures BalanceOf(credited, a) == BalanceOf(balances, a) - (if a == from then amount else 0)
      + (if a == to then amount else 0)
  {
    AddedChangesOne(balances, from, -amount, a);
    AddedChangesOne(debited, to, amount, a);
  }

  lemma TransferFits(balances: seq<(Address, int)>, from: Address, to: Address, amount: Amount)
    returns (debited: seq<(Address, int)>, credited: seq<(Address, int)>)
    requires UniqueKeys(balances)
    requires 0 <= BalanceOf(balances, from) <= I128_MAX
    requires from != to ==> FitsI128(BalanceOf(balances, to) + amount)
    ensures Added(balances, from, -(amount as int)) == Some(debited) && Added(debited, to, amount) == Some(credited)
  {
    debited := Added(balances, from, -(amount as int)).value;
    AddedChangesOne(balances, from, -(amount as int), to);
    credited := Added(debited, to, amount).value;
  }

  function TransferShadow(m: Shadow, from: Address, to: Address, amount: Amount): Option<Shadow> {
    match Added(m.balances, from, -(amount as int))
    case None => None
    case Some(debited) => Adjusted(m, Added(debited, to, amount), 0)
  }

  // A transfer the contract accepts never overflows the shadow. To another address it behaves like a
  // burn; to oneself it leaves the shadow balances alone and the contract ahead by the amount.
  lemma TransferKeepsRelated(pool: Pool, k: Storage, m: Shadow, from: Address, to: Address, amount: Amount,
                             signers: set<Address>)
    requires Related(pool, k, m) && Transferred(k, from, to, amount, signers).1.Returned?
    ensures var k' := Transferred(k, from, to, amount, signers).0;
            var m' := TransferShadow(m, from, to, amount);
            && m'.Some?
            && UniqueKeys(m'.value.balances)
            && (from != to && amount > BalanceOf(m.balances, from) ==> BalanceOf(m'.value.balances, from) < 0)
            && (from == to || amount <= BalanceOf(m.balances, from) ==>
                  && Related(pool, k', m'.value)
                  && forall a: Address :: Drift(k', m'.value, a) == Drift(k, m, a)
                                              + if from == to == a then amount else 0)
  {
    var k' := Transferred(k, from, to, amount, signers).0;
    var debited, credited := TransferFits(m.balances, from, to, amount);
    var m' := m.(balances := credited);
    assert TransferShadow(m, from, to, amount) == Some(m');
    TwoEntries(m.balances, debited, credited, from, to, amount, from);
    if from == to || amount <= BalanceOf(m.balances, from) {
      forall a: Address
        ensures Drift(k', m', a) == Drift(k, m, a) + (if from == to == a then amount else 0)
        ensures 0 <= BalanceOf(m'.balances, a) <= BalanceIn(k'.balances, a) <= I128_MAX
      {
        TwoEntries(m.balances, debited, credited, from, to, amount, a);
      }
      NonNegativeTotal(m'.balances);
    }
  }

  // ----- one step -----

  // The amount by which a successful command puts the contract ahead of the shadow at `a`.
  function SelfTransfer(pool: Pool, command: Command, outcome: Outcome, a: Address): int {
    if outcome.Ok? && command.Transfer? && Get(pool, command.from) == Get(pool, command.to) == a
    then command.amount
    else 0
  }

  // A successful burn, or transfer to another address, of more than the shadow balance.
  predicate Overdraws(pool: Pool, m: Shadow, command: Command, outcome: Outcome) {
    && outcome.Ok?
    && match command
       case Mint(_, _) => false
       case Burn(from, amount) => amount > BalanceOf(m.balances, Get(pool, from))
       case Transfer(from, to, amount) =>
         Get(pool, from) != Get(pool, to) && amount > BalanceOf(m.balances, Get(pool, from))
  }

  function OutcomeOf(world: World<Storage>, pool: Pool, command: Command, authorizers: seq<Address>): Outcome {
    Caught(Execute(world, pool, command, authorizers).1)
  }

  // No command panics: an abort happens only when the step withheld the signature.
  lemma NeverPanics(pool: Pool, world: World<Storage>, m: Shadow, command: Command, authorizers: seq<Address>)
    requires Related(pool, world.contract, m)
    ensures var outcome := OutcomeOf(world, pool, command, authorizers);
            && !outcome.UndeclaredPanic?
            && (outcome.Ok? ==> Signer(pool, command) in authorizers)
            && (!outcome.Ok? ==> Execute(world, pool, command, authorizers).0 == world)
  {
  }

  // The step authorizes the address that `index` names.
  predicate Authorizes(pool: Pool, indices: seq<nat>, index: nat) {
    exists i :: 0 <= i < |indices| && pool[indices[i] % |pool|] == pool[index % |pool|]
  }

  // Which commands succeed, in any state a run reaches: those whose signer the step authorizes (the first
  // address of the pool for a mint), that the payer can cover, and that keep balance and supply within
  // i128. The others are rejected without the signature and are declared errors with it.
  lemma CommandDecides(pool: Pool, world: World<Storage>, m: Shadow, command: Command, indices: seq<nat>)
    requires Related(pool, world.contract, m)
    ensures var outcome := OutcomeOf(world, pool, command, Resolved(pool, indices));
            var s := world.contract;
            var signed := Authorizes(pool, indices, if command.Mint? then 0 else command.from);
            var covered := command.Mint? || command.amount <= BalanceIn(s.balances, pool[command.from % |pool|]);
            var fits := && (command.Mint? ==> s.supply + command.amount <= I128_MAX)
                        && (!command.Burn? ==>
                             BalanceIn(s.balances, pool[command.to % |pool|]) + command.amount <= I128_MAX);
            && (outcome == Ok <==> signed && covered && fits)
            && (outcome.Rejected? <==> !signed)
            && (outcome == DeclaredError(1) <==> signed && !covered)
            && (outcome == DeclaredError(2) <==> signed && covered && !fits)
  {
    SignersAreNamed(pool, indices, Signer(pool, command));
    NeverPanics(pool, world, m, command, Resolved(pool, indices));
  }

  // What a command does to both sides at once: `m'` is the shadow after it.
  ghost predicate Tracks(pool: Pool, k: Storage, m: Shadow, k': Storage, m': Shadow, command: Command, outcome: Outcome)
  {
    && m'.admin == m.admin
    && UniqueKeys(m'.balances)
    && (Overdraws(pool, m, command, outcome) ==> BalanceOf(m'.balances, Signer(pool, command)) < 0)
    && (!Overdraws(pool, m, command, outcome) ==>
          && Related(pool, k', m')
          && forall a: Address :: Drift(k', m', a) == Drift(k, m, a) + SelfTransfer(pool, command, outcome, a))
  }

  lemma MintTracks(pool: Pool, k: Storage, m: Shadow, command: Command, signers: set<Address>)
    requires Related(pool, k, m) && command.Mint? && Called(k, pool, command, signers).1.Returned?
    ensures Applied(m, pool, command, Ok).Some?
    ensures Tracks(pool, k, m, Called(k, pool, command, signers).0, Applied(m, pool, command, Ok).value, command, Ok)
  {
    MintKeepsRelated(pool, k, m, Get(pool, command.to), command.amount, signers);
  }

  lemma BurnTracks(pool: Pool, k: Storage, m: Shadow, command: Command, signers: set<Address>)
    requires Related(pool, k, m) && command.Burn? && Called(k, pool, command, signers).1.Returned?
    ensures Applied(m, pool, command, Ok).Some?
    ensures Tracks(pool, k, m, Called(k, pool, command, signers).0, Applied(m, pool, command, Ok).value, command, Ok)
  {
    BurnKeepsRelated(pool, k, m, Get(pool, command.from), command.amount, signers);
  }

  lemma TransferTracks(pool: Pool, k: Storage, m: Shadow, command: Command, signers: set<Address>)
    requires Related(pool, k, m) && command.Transfer? && Called(k, pool, command, signers).1.Returned?
    ensures Applied(m, pool, command, Ok).Some?
    ensures Tracks(pool, k, m, Called(k, pool, command, signers).0, Applied(m, pool, command, Ok).value, command, Ok)
  {
    TransferKeepsRelated(pool, k, m, Get(pool, command.from), Get(pool, command.to), command.amount, signers);
    assert Applied(m, pool, command, Ok)
           == TransferShadow(m, Get(pool, command.from), Get(pool, command.to), command.amount);
  }

  lemma CommandTracks(pool: Pool, world: World<Storage>, m: Shadow, command: Command, authorizers: seq<Address>)
    requires Related(pool, world.contract, m)
    ensures var outcome := OutcomeOf(world, pool, command, authorizers);
            && Applied(m, pool, command, outcome).Some?
            && Tracks(pool, world.contract, m, Execute(world, pool, command, authorizers).0.contract,
                      Applied(m, pool, command, outcome).value, command, outcome)
  {
    NeverPanics(pool, world, m, command, authorizers);
    var signer := Signer(pool, command);
    var signers := if signer in authorizers then {signer} else {};
    if OutcomeOf(world, pool, command, authorizers).Ok? {
      match command
      case Mint(_, _) => MintTracks(pool, world.contract, m, command, signers);
      case Burn(_, _) => BurnTracks(pool, world.contract, m, command, signers);
      case Transfer(_, _, _) => TransferTracks(pool, world.contract, m, command, signers);
    }
  }

  // ----- the three invariants -----

  lemma CheckThree<C, K, M>(c0: InvariantCtx<C, K, M> -> Check, c1: InvariantCtx<C, K, M> -> Check,
                            c2: InvariantCtx<C, K, M> -> Check, ctx: InvariantCtx<C, K, M>)
    ensures CheckAll([c0, c1, c2], ctx)
            == if !c0(ctx).Pass? then c0(ctx) else if !c1(ctx).Pass? then c1(ctx) else c2(ctx)
  {
    assert [c0, c1, c2][1..] == [c1, c2] && [c1, c2][1..] == [c2];
    assert CheckAll([c2], ctx) == c2(ctx);
  }

  lemma RelatedPasses(show: Address -> string, ctx: Ctx, k: Storage)
    requires Related(ctx.pool, k, ctx.model)
    requires ctx.lastOutcome.Ok? ==> Signer(ctx.pool, ctx.command) in ctx.authorizers
    ensures CheckAll(TokenAdapter(show).invariants, ctx) == Pass
  {
    var balances := ctx.model.balances;
    var holders, reader := Holders(balances), BalanceReader(balances);
    NoNegativeBalanceDecides(holders, reader, show, ctx.stepIndex);
    SumIsListTotal(balances, 0);
    assert holders[0..] == holders && balances[0..] == balances;
    CheckedSumOfNonNegative(holders, reader, 0);
    CheckThree(CheckNoNegative(show), CheckSupply(), CheckAuth(show), ctx);
  }

  lemma NegativeFails(show: Address -> string, ctx: Ctx, a: Address)
    requires BalanceOf(ctx.model.balances, a) < 0
    ensures var check := CheckAll(TokenAdapter(show).invariants, ctx);
            && check == CheckNoNegative(show)(ctx)
            && check.Fail? && Reports(Found(check.violation), NO_NEGATIVE_BALANCE, BALANCE_OF, ctx.stepIndex)
  {
    var balances := ctx.model.balances;
    var i := HolderOf(balances, a);
    assert Holders(balances)[i] == a;
    assert a in Holders(balances) && BalanceReader(balances)(a) < 0;
    NoNegativeBalanceDecides(Holders(balances), BalanceReader(balances), show, ctx.stepIndex);
    CheckThree(CheckNoNegative(show), CheckSupply(), CheckAuth(show), ctx);
  }

  // The verdict of the three checks on any shadow model, related to a contract or not: balances first, then
  // the supply, then the signature, and Pass exactly if all three hold.
  lemma ChecksDecide(show: Address -> string, ctx: Ctx)
    requires UniqueKeys(ctx.model.balances)
    ensures var check := CheckAll(TokenAdapter(show).invariants, ctx);
            var total := ListTotal(ctx.model.balances);
            var required := if ctx.command.Mint? then ctx.model.admin else Get(ctx.pool, ctx.command.from);
            if exists a :: BalanceOf(ctx.model.balances, a) < 0
              then check.Fail? && Reports(Found(check.violation), NO_NEGATIVE_BALANCE, BALANCE_OF, ctx.stepIndex)
            else if total > I128_MAX then check == Overflow
            else if total != ctx.model.totalSupply
              then check.Fail? && check.violation.invariantName == SUPPLY_CONSERVATION
            else if ctx.lastOutcome.Ok? && required !in ctx.authorizers
              then check.Fail? && check.violation.invariantName == AUTH_REQUIRED
            else check == Pass
  {
    var balances := ctx.model.balances;
    var holders, reader := Holders(balances), BalanceReader(balances);
    if exists a :: BalanceOf(balances, a) < 0 {
      var a :| BalanceOf(balances, a) < 0;
      NegativeFails(show, ctx, a);
    } else {
      NoNegativeBalanceDecides(holders, reader, show, ctx.stepIndex);
      SumIsListTotal(balances, 0);
      assert holders[0..] == holders && balances[0..] == balances;
      CheckedSumOfNonNegative(holders, reader, 0);
      CheckThree(CheckNoNegative(show), CheckSupply(), CheckAuth(show), ctx);
    }
  }

  // ----- one step of the run loop -----

  type TokenStep = Step<Command>

  function StepOutcome(pool: Pool, step: TokenStep, world: World<Storage>): Outcome {
    OutcomeOf(Advance(world, step.advanceTime), pool, step.command, Resolved(pool, step.authorized))
  }

  // A step from related states either overdraws, and is then reported as a negative balance at its own
  // index, or goes on in related states; nothing else can happen.
  lemma StepDecided(show: Address -> string, pool: Pool, i: nat, step: TokenStep, world: World<Storage>, m: Shadow)
    requires Related(pool, world.contract, m)
    ensures var result := RunStep(TokenAdapter(show), pool, i, step, world, m);
            var outcome := StepOutcome(pool, step, world);
            if Overdraws(pool, m, step.command, outcome) then
              result.Stop? && Reports(result.verdict, NO_NEGATIVE_BALANCE, BALANCE_OF, i)
            else
              && result.Continue?
              && Related(pool, result.world.contract, result.model)
              && forall a: Address ::
                   Drift(result.world.contract, result.model, a)
                   == Drift(world.contract, m, a) + SelfTransfer(pool, step.command, outcome, a)
  {
    var advanced := Advance(world, step.advanceTime);
    var authorizers := Resolved(pool, step.authorized);
    var outcome := OutcomeOf(advanced, pool, step.command, authorizers);
    NeverPanics(pool, advanced, m, step.command, authorizers);
    CommandTracks(pool, advanced, m, step.command, authorizers);
    var world' := Execute(advanced, pool, step.command, authorizers).0;
    var m' := Applied(m, pool, step.command, outcome).value;
    var ctx := InvariantCtx(world', m', step.command, outcome, authorizers, pool, i);
    if Overdraws(pool, m, step.command, outcome) {
      NegativeFails(show, ctx, Signer(pool, step.command));
    } else {
      RelatedPasses(show, ctx, world'.contract);
    }
  }

  // ----- whole runs -----

  // The states after the first `k` steps, unless one of them stopped the run.
  function Reached(show: Address -> string, pool: Pool, steps: seq<TokenStep>, k: nat): Option<(World<Storage>, Shadow)>
    requires k <= |steps|
  {
    After(TokenAdapter(show), pool, steps, k)
  }

  ghost function RelatedOn(pool: Pool): (World<Storage>, Shadow) -> bool {
    (world: World<Storage>, m: Shadow) => Related(pool, world.contract, m)
  }

  function DriftAt(a: Address): (World<Storage>, Shadow) -> int {
    (world: World<Storage>, m: Shadow) => Drift(world.contract, m, a)
  }

  function SelfTransferBy(pool: Pool, a: Address): (TokenStep, World<Storage>, Shadow) -> int {
    (step: TokenStep, world: World<Storage>, m: Shadow) =>
      SelfTransfer(pool, step.command, StepOutcome(pool, step, world), a)
  }

  // The total of `a`'s successful self-transfers among the first `k` steps.
  function SelfTransfers(show: Address -> string, pool: Pool, steps: seq<TokenStep>, k: nat, a: Address): int
    requires k <= |steps| && Reached(show, pool, steps, k).Some?
  {
    SumAlong(TokenAdapter(show), pool, steps, k, SelfTransferBy(pool, a))
  }

  lemma SetupRelated(pool: Pool)
    ensures var (world, m) := Setup(pool);
            Related(pool, world.contract, m) && forall a: Address :: Drift(world.contract, m, a) == 0
  {
    var (world, m) := Setup(pool);
    assert m.balances[1..] == [];
    assert ListTotal(m.balances) == INITIAL_SUPPLY;
  }

  lemma StepsKeepRelated(show: Address -> string, pool: Pool, steps: seq<TokenStep>)
    ensures StepsKeep(TokenAdapter(show), pool, steps, RelatedOn(pool))
  {
    forall i: nat, world, m
      | i < |steps| && RelatedOn(pool)(world, m) && RunStep(TokenAdapter(show), pool, i, steps[i], world, m).Continue?
      ensures var result := RunStep(TokenAdapter(show), pool, i, steps[i], world, m);
        RelatedOn(pool)(result.world, result.model)
    {
      StepDecided(show, pool, i, steps[i], world, m);
    }
  }

  lemma StepsAddSelfTransfers(show: Address -> string, pool: Pool, steps: seq<TokenStep>, a: Address)
    ensures StepsAdd(TokenAdapter(show), pool, steps, RelatedOn(pool), DriftAt(a), SelfTransferBy(pool, a))
  {
    forall i: nat, world, m
      | i < |steps| && RelatedOn(pool)(world, m) && RunStep(TokenAdapter(show), pool, i, steps[i], world, m).Continue?
      ensures var result := RunStep(TokenAdapter(show), pool, i, steps[i], world, m);
              DriftAt(a)(result.world, result.model)
                == DriftAt(a)(world, m) + SelfTransferBy(pool, a)(steps[i], world, m)
    {
      StepDecided(show, pool, i, steps[i], world, m);
    }
  }

  // After every step of every token run not yet stopped: contract and shadow agree on the supply, and
  // each address's contract balance exceeds its shadow balance by exactly its successful self-transfers.
  lemma DriftIsSelfTransfers(show: Address -> string, pool: Pool, steps: seq<TokenStep>, k: nat, a: Address)
    requires k <= |steps| && Reached(show, pool, steps, k).Some?
    ensures var (world, m) := Reached(show, pool, steps, k).value;
            && Related(pool, world.contract, m)
            && world.contract.supply == m.totalSupply
            && BalanceIn(world.contract.balances, a)
               == BalanceOf(m.balances, a) + SelfTransfers(show, pool, steps, k, a)
  {
    SetupRelated(pool);
    assert Drift(Setup(pool).0.contract, Setup(pool).1, a) == 0;
    StepsKeepRelated(show, pool, steps);
    StepsAddSelfTransfers(show, pool, steps, a);
    InvariantAlong(TokenAdapter(show), pool, steps, RelatedOn(pool), k);
    Telescopes(TokenAdapter(show), pool, steps, RelatedOn(pool), DriftAt(a), SelfTransferBy(pool, a), k);
  }

  // Step `k` is reached and overdraws.
  predicate OverdrawsAt(show: Address -> string, pool: Pool, steps: seq<TokenStep>, k: nat)
    requires k < |steps|
  {
    match Reached(show, pool, steps, k)
    case None => false
    case Some((world, m)) => Overdraws(pool, m, steps[k].command, StepOutcome(pool, steps[k], world))
  }

  lemma StopsExactlyWhenOverdrawing(show: Address -> string, pool: Pool, steps: seq<TokenStep>, k: nat,
                                    verdict: Verdict)
    requires k < |steps|
    ensures StopsAt(TokenAdapter(show), pool, steps, k, verdict) ==> OverdrawsAt(show, pool, steps, k)
    ensures StopsAt(TokenAdapter(show), pool, steps, k, verdict) ==>
      Reports(verdict, NO_NEGATIVE_BALANCE, BALANCE_OF, k)
    ensures OverdrawsAt(show, pool, steps, k) ==> exists v :: StopsAt(TokenAdapter(show), pool, steps, k, v)
  {
    if Reached(show, pool, steps, k).Some? {
      var (world, m) := Reached(show, pool, steps, k).value;
      DriftIsSelfTransfers(show, pool, steps, k, 0);
      StepDecided(show, pool, k, steps[k], world, m);
      var result := RunStep(TokenAdapter(show), pool, k, steps[k], world, m);
      assert result.Stop? ==> StopsAt(TokenAdapter(show), pool, steps, k, result.verdict);
    }
  }

  // The verdict of every token run: never a crash, never another invariant or an undeclared panic; it
  // is a negative balance at step `k` exactly when `k` is a reached step that overdraws, and there is at
  // most one such step.
  lemma TokenVerdict(show: Address -> string, pool: Pool, steps: seq<TokenStep>, bound: nat)
    ensures var run := Truncated(steps, bound);
            var verdict := RunAll(TokenAdapter(show), pool, steps, bound);
            && verdict != Crashed
            && (verdict == Clean <==> forall k: nat :: k < |run| ==> !OverdrawsAt(show, pool, run, k))
            && (verdict.Found? ==>
                 && verdict.violation.stepIndex < |run|
                 && Reports(verdict, NO_NEGATIVE_BALANCE, BALANCE_OF, verdict.violation.stepIndex))
            && (forall k: nat :: k < |run| ==>
                  (OverdrawsAt(show, pool, run, k) <==> verdict.Found? && verdict.violation.stepIndex == k))
  {
    var run := Truncated(steps, bound);
    var verdict := RunAll(TokenAdapter(show), pool, steps, bound);
    VerdictIsFirstStop(TokenAdapter(show), pool, steps, bound);
    forall k: nat | k < |run|
      ensures OverdrawsAt(show, pool, run, k) <==> StopsAt(TokenAdapter(show), pool, run, k, verdict)
      ensures OverdrawsAt(show, pool, run, k) ==>
        Reports(verdict, NO_NEGATIVE_BALANCE, BALANCE_OF, k)
    {
      StopsExactlyWhenOverdrawing(show, pool, run, k, verdict);
    }
    if verdict != Clean {
      var k: nat, v :| k < |run| && StopsAt(TokenAdapter(show), pool, run, k, v);
      StopsExactlyWhenOverdrawing(show, pool, run, k, v);
    }
  }

  // So the harness is not clean on every run: after a self-transfer, burning one unit more than the
  // initial supply is accepted by the contract and reported.
  lemma SelfTransferIsCaught(show: Address -> string, pool: Pool, amount: Amount, bound: nat)
    requires 1 <= amount <= INITIAL_SUPPLY && bound >= 2
    ensures var transfer := Step(Transfer(INITIAL_HOLDER_INDEX, INITIAL_HOLDER_INDEX, amount), [INITIAL_HOLDER_INDEX],
                                 None);
            var burn := Step(Burn(INITIAL_HOLDER_INDEX, INITIAL_SUPPLY + 1), [INITIAL_HOLDER_INDEX], None);
            Reports(RunAll(TokenAdapter(show), pool, [transfer, burn], bound), NO_NEGATIVE_BALANCE, BALANCE_OF, 1)
  {
    var h := Get(pool, INITIAL_HOLDER_INDEX);
    var transfer := Step(Transfer(INITIAL_HOLDER_INDEX, INITIAL_HOLDER_INDEX, amount), [INITIAL_HOLDER_INDEX], None);
    var burn := Step(Burn(INITIAL_HOLDER_INDEX, INITIAL_SUPPLY + 1), [INITIAL_HOLDER_INDEX], None);
    var steps := [transfer, burn];
    var (world, m) := Setup(pool);
    SetupRelated(pool);
    HolderSigns(pool);
    StepDecided(show, pool, 0, transfer, world, m);
    var result := RunStep(TokenAdapter(show), pool, 0, transfer, world, m);
    assert BalanceIn(result.world.contract.balances, h) == INITIAL_SUPPLY + amount;
    assert Drift(result.world.contract, result.model, h) == Drift(world.contract, m, h) + amount;
    assert Reached(show, pool, steps, 0) == Some((world, m));
    assert Reached(show, pool, steps, 1) == Some((result.world, result.model));
    assert OverdrawsAt(show, pool, steps, 1);
    TokenVerdict(show, pool, steps, bound);
  }

  lemma HolderSigns(pool: Pool)
    ensures Get(pool, INITIAL_HOLDER_INDEX) in Resolved(pool, [INITIAL_HOLDER_INDEX])
  {
    var named := Named(pool, [INITIAL_HOLDER_INDEX]);
    assert named[..|named| - 1] == [];
    assert WithoutRepeats(named) == [Get(pool, INITIAL_HOLDER_INDEX)];
  }

  // No step that is reached transfers a positive amount from an address to itself with success.
  ghost predicate NoSelfTransfer(show: Address -> string, pool: Pool, steps: seq<TokenStep>) {
    forall k: nat, a: Address :: k < |steps| ==> ZeroAt(TokenAdapter(show), pool, steps, SelfTransferBy(pool, a), k)
  }

  // In runs whose successful transfers all have distinct ends, contract and shadow agree throughout.
  lemma DistinctEndsAgree(show: Address -> string, pool: Pool, steps: seq<TokenStep>, k: nat, a: Address)
    requires NoSelfTransfer(show, pool, steps) && k <= |steps| && Reached(show, pool, steps, k).Some?
    ensures BalanceIn(Reached(show, pool, steps, k).value.0.contract.balances, a)
      == BalanceOf(Reached(show, pool, steps, k).value.1.balances, a)
  {
    DriftIsSelfTransfers(show, pool, steps, k, a);
    SumOfZeros(TokenAdapter(show), pool, steps, k, SelfTransferBy(pool, a));
  }

  // And such runs are clean.
  lemma DistinctEndsAreClean(show: Address -> string, pool: Pool, steps: seq<TokenStep>, bound: nat)
    requires NoSelfTransfer(show, pool, Truncated(steps, bound))
    ensures RunAll(TokenAdapter(show), pool, steps, bound) == Clean
  {
    var run := Truncated(steps, bound);
    forall k: nat | k < |run| ensures !OverdrawsAt(show, pool, run, k) {
      if Reached(show, pool, run, k).Some? {
        DistinctEndsNeverOverdraw(show, pool, run, k);
      }
    }
    TokenVerdict(show, pool, steps, bound);
  }

  lemma DistinctEndsNeverOverdraw(show: Address -> string, pool: Pool, steps: seq<TokenStep>, k: nat)
    requires NoSelfTransfer(show, pool, steps) && k < |steps| && Reached(show, pool, steps, k).Some?
    ensures !OverdrawsAt(show, pool, steps, k)
  {
    var (world, m) := Reached(show, pool, steps, k).value;
    var command := steps[k].command;
    if !command.Mint? {
      DistinctEndsAgree(show, pool, steps, k, Get(pool, command.from));
      CoveredNeverOverdraws(pool, world, m, steps[k]);
    }
  }

  lemma CoveredNeverOverdraws(pool: Pool, world: World<Storage>, m: Shadow, step: TokenStep)
    requires !step.command.Mint?
    requires BalanceIn(world.contract.balances, Get(pool, step.command.from))
      == BalanceOf(m.balances, Get(pool, step.command.from))
    ensures !Overdraws(pool, m, step.command, StepOutcome(pool, step, world))
  {
  }

  // ----- the contract's own books -----

  ghost function ExcessReader(): (World<Storage>, Shadow) -> int {
    (world: World<Storage>, m: Shadow) => Excess(world.contract)
  }

  // The amount a step creates: that of a successful transfer of anyone to themselves.
  function Created(pool: Pool): (TokenStep, World<Storage>, Shadow) -> int {
    (step: TokenStep, world: World<Storage>, m: Shadow) =>
      if step.command.Transfer?
      then SelfTransfer(pool, step.command, StepOutcome(pool, step, world), Get(pool, step.command.from))
      else 0
  }

  lemma CallExcess(s: Storage, pool: Pool, command: Command, signers: set<Address>)
    ensures var (s', result) := Called(s, pool, command, signers);
            Excess(s') == Excess(s)
                          + if result.Returned? && command.Transfer? && Get(pool, command.from) == Get(pool, command.to)
                            then command.amount else 0
  {
    match command
    case Mint(to, amount) => MintConserves(s, Get(pool, to), amount, signers);
    case Burn(from, amount) => BurnConserves(s, Get(pool, from), amount, signers);
    case Transfer(from, to, amount) => TransferDrift(s, Get(pool, from), Get(pool, to), amount, signers);
  }

  lemma StepExcess(show: Address -> string, pool: Pool, i: nat, step: TokenStep, world: World<Storage>, m: Shadow)
    ensures var result := RunStep(TokenAdapter(show), pool, i, step, world, m);
            result.Continue? ==> Excess(result.world.contract) == Excess(world.contract) + Created(pool)(step, world, m)
  {
    var signer := Signer(pool, step.command);
    var signers := if signer in Resolved(pool, step.authorized) then {signer} else {};
    CallExcess(world.contract, pool, step.command, signers);
  }

  lemma StepsAddCreated(show: Address -> string, pool: Pool, steps: seq<TokenStep>)
    ensures StepsAdd(TokenAdapter(show), pool, steps, RelatedOn(pool), ExcessReader(), Created(pool))
  {
    forall i: nat, world, m | i < |steps| && RunStep(TokenAdapter(show), pool, i, steps[i], world, m).Continue?
      ensures var result := RunStep(TokenAdapter(show), pool, i, steps[i], world, m);
              ExcessReader()(result.world, result.model) == ExcessReader()(world, m) + Created(pool)(steps[i], world, m)
    {
      StepExcess(show, pool, i, steps[i], world, m);
    }
  }

  lemma CreatedIsNeverNegative(show: Address -> string, pool: Pool, steps: seq<TokenStep>, k: nat)
    ensures forall i: nat :: i < k ==> NotNegativeAt(TokenAdapter(show), pool, steps, Created(pool), i)
  {
  }

  lemma BooksAlong(show: Address -> string, pool: Pool, steps: seq<TokenStep>, k: nat)
    requires k <= |steps| && Reached(show, pool, steps, k).Some?
    ensures Excess(Reached(show, pool, steps, k).value.0.contract)
            == SumAlong(TokenAdapter(show), pool, steps, k, Created(pool))
  {
    var balances := Setup(pool).0.contract.balances;
    TotalWithout(balances, Get(pool, INITIAL_HOLDER_INDEX));
    assert balances - {Get(pool, INITIAL_HOLDER_INDEX)} == map[];
    SetupRelated(pool);
    StepsKeepRelated(show, pool, steps);
    StepsAddCreated(show, pool, steps);
    Telescopes(TokenAdapter(show), pool, steps, RelatedOn(pool), ExcessReader(), Created(pool), k);
  }

  // After every step of every run, the contract's balances sum to its supply plus everything created by
  // successful self-transfers; so they sum to its supply exactly until the first positive one.
  lemma BooksOffBySelfTransfers(show: Address -> string, pool: Pool, steps: seq<TokenStep>, k: nat)
    requires k <= |steps| && Reached(show, pool, steps, k).Some?
    ensures var s := Reached(show, pool, steps, k).value.0.contract;
            && Total(s.balances) == s.supply + SumAlong(TokenAdapter(show), pool, steps, k, Created(pool))
            && (Total(s.balances) == s.supply
                <==> forall i: nat :: i < k ==> ZeroAt(TokenAdapter(show), pool, steps, Created(pool), i))
  {
    BooksAlong(show, pool, steps, k);
    CreatedIsNeverNegative(show, pool, steps, k);
    SumIsZeroIff(TokenAdapter(show), pool, steps, k, Created(pool));
  }
}
