// The token wired into the harness: its commands, its shadow model (an association list under
// unchecked i128 arithmetic) and the invariants the fuzz target registers.

module TokenHarness {
  import opened Prelude
  import opened AddressPools
  import opened Harness
  import opened Invariants
  import opened Token

  const ADMIN_INDEX: nat := 0
  const INITIAL_HOLDER_INDEX: nat := 1
  const INITIAL_SUPPLY: int := 1_000_000_000

  type Amount = x: int | 0 <= x <= I128_MAX

  datatype Command =
    | Mint(to: nat, amount: Amount)
    | Burn(from: nat, amount: Amount)
    | Transfer(from: nat, to: nat, amount: Amount)

  datatype Shadow = Shadow(admin: Address, balances: seq<(Address, int)>, totalSupply: int)

  // The value of the first entry of `who`.
  function BalanceOf(balances: seq<(Address, int)>, who: Address): int {
    if balances == [] then 0
    else if balances[0].0 == who then balances[0].1
    else BalanceOf(balances[1..], who)
  }

  function Holders(balances: seq<(Address, int)>): seq<Address> {
    seq(|balances|, i requires 0 <= i < |balances| => balances[i].0)
  }

  function BalanceReader(balances: seq<(Address, int)>): Address -> int {
    (who: Address) => BalanceOf(balances, who)
  }

  // `*balance_mut(who) += delta`: the first entry of `who` changes, or a new one is pushed. None if the
  // unchecked addition overflows.
  function Added(balances: seq<(Address, int)>, who: Address, delta: int): (added: Option<seq<(Address, int)>>)
    ensures added.Some? <==> FitsI128(BalanceOf(balances, who) + delta)
  {
    if balances == [] then if FitsI128(delta) then Some([(who, delta)]) else None
    else if balances[0].0 == who then
      if FitsI128(balances[0].1 + delta) then Some([(who, balances[0].1 + delta)] + balances[1..]) else None
    else
      match Added(balances[1..], who, delta)
      case None => None
      case Some(rest) => Some([balances[0]] + rest)
  }

  // `i` is where a scan for `who` stops.
  ghost predicate FirstAt(balances: seq<(Address, int)>, who: Address, i: nat) {
    && i <= |balances| && (i < |balances| ==> balances[i].0 == who)
    && forall k :: 0 <= k < i ==> balances[k].0 != who
  }

  lemma {:induction false} AddedAt(balances: seq<(Address, int)>, who: Address, delta: int, i: nat)
    requires FirstAt(balances, who, i)
    ensures var value := if i < |balances| then balances[i].1 else 0;
            && BalanceOf(balances, who) == value
            && Added(balances, who, delta)
               == if !FitsI128(value + delta) then None
                  else if i < |balances| then Some(balances[i := (who, value + delta)])
                  else Some(balances + [(who, delta)])
  {
    if i > 0 {
      AddedAt(balances[1..], who, delta, i - 1);
      if i < |balances| {
        assert balances[i := (who, balances[i].1 + delta)]
          == [balances[0]] + balances[1..][i - 1 := (who, balances[i].1 + delta)];
      } else {
        assert balances + [(who, delta)] == [balances[0]] + (balances[1..] + [(who, delta)]);
      }
    } else if balances == [] {
      assert balances + [(who, delta)] == [(who, delta)];
    } else {
      assert balances[0 := (who, balances[0].1 + delta)] == [(who, balances[0].1 + delta)] + balances[1..];
    }
  }

  function Applied(model: Shadow, pool: Pool, command: Command, outcome: Outcome): Option<Shadow> {
    if !outcome.Ok? then Some(model)
    else
      match command
      case Mint(to, amount) => Adjusted(model, Added(model.balances, Get(pool, to), amount), amount)
      case Burn(from, amount) =>
        Adjusted(model, Added(model.balances, Get(pool, from), -(amount as int)), -(amount as int))
      case Transfer(from, to, amount) =>
        match Added(model.balances, Get(pool, from), -(amount as int))
        case None => None
        case Some(debited) => Adjusted(model, Added(debited, Get(pool, to), amount), 0)
  }

  function Adjusted(model: Shadow, balances: Option<seq<(Address, int)>>, supplyDelta: int): Option<Shadow> {
    if balances.None? || !FitsI128(model.totalSupply + supplyDelta) then None
    else Some(model.(balances := balances.value, totalSupply := model.totalSupply + supplyDelta))
  }

  class TokenModel {
    const admin: Address
    var balances: seq<(Address, int)>
    var totalSupply: int

    constructor (admin: Address, initialHolder: Address, initialSupply: int)
      ensures View() == Shadow(admin, [(initialHolder, initialSupply)], initialSupply)
    {
      this.admin := admin;
      balances := [(initialHolder, initialSupply)];
      totalSupply := initialSupply;
    }

    function View(): Shadow
      reads this
    {
      Shadow(admin, balances, totalSupply)
    }

    // `balance_mut`: the entry of `who`, pushed with zero if there is none.
    method BalanceMut(who: Address) returns (i: nat)
      modifies this`balances
      ensures i < |balances| && FirstAt(old(balances), who, i)
      ensures balances == if i < |old(balances)| then old(balances) else old(balances) + [(who, 0)]
    {
      i := 0;
      while i < |balances| && balances[i].0 != who
        invariant 0 <= i <= |balances|
        invariant forall k :: 0 <= k < i ==> balances[k].0 != who
      {
        i := i + 1;
      }
      if i == |balances| {
        balances := balances + [(who, 0)];
      }
    }

    // Not ok is the panic of an unchecked addition.
    method Add(who: Address, delta: int) returns (ok: bool)
      modifies this`balances
      ensures ok <==> Added(old(balances), who, delta).Some?
      ensures ok ==> Some(balances) == Added(old(balances), who, delta)
    {
      var i := BalanceMut(who);
      AddedAt(old(balances), who, delta, i);
      var sum := balances[i].1 + delta;
      if !FitsI128(sum) {
        return false;
      }
      balances := balances[i := (who, sum)];
      assert i == |old(balances)| ==> balances == old(balances) + [(who, delta)];
      return true;
    }

    method Apply(pool: Pool, command: Command, outcome: Outcome) returns (ok: bool)
      modifies this
      ensures ok <==> Applied(old(View()), pool, command, outcome).Some?
      ensures ok ==> Some(View()) == Applied(old(View()), pool, command, outcome)
    {
      if !outcome.Ok? {
        return true;
      }
      var delta := 0;
      match command {
        case Mint(to, amount) =>
          ok := Add(Get(pool, to), amount);
          delta := amount;
        case Burn(from, amount) =>
          ok := Add(Get(pool, from), -(amount as int));
          delta := -(amount as int);
        case Transfer(from, to, amount) =>
          ok := Add(Get(pool, from), -(amount as int));
          if ok {
            ok := Add(Get(pool, to), amount);
          }
          delta := 0;
      }
      if !ok || !FitsI128(totalSupply + delta) {
        return false;
      }
      totalSupply := totalSupply + delta;
    }
  }

  // Who must sign a command.
  function RequiredAuthorizer(model: Shadow, pool: Pool, command: Command): Address {
    match command
    case Mint(_, _) => model.admin
    case Burn(from, _) => Get(pool, from)
    case Transfer(from, _, _) => Get(pool, from)
  }

  // Whose authorization `execute` mocks, if the step granted it.
  function Signer(pool: Pool, command: Command): Address {
    match command
    case Mint(_, _) => Get(pool, ADMIN_INDEX)
    case Burn(from, _) => Get(pool, from)
    case Transfer(from, _, _) => Get(pool, from)
  }

  function Called(s: Storage, pool: Pool, command: Command, signers: set<Address>): (Storage, CallResult) {
    match command
    case Mint(to, amount) => Minted(s, Get(pool, to), amount, signers)
    case Burn(from, amount) => Burned(s, Get(pool, from), amount, signers)
    case Transfer(from, to, amount) => Transferred(s, Get(pool, from), Get(pool, to), amount, signers)
  }

  function Execute(world: World<Storage>, pool: Pool, command: Command,
                   authorizers: seq<Address>): (World<Storage>, Execution)
  {
    var signer := Signer(pool, command);
    var satisfied := signer in authorizers;
    var (s', result) := Called(world.contract, pool, command, if satisfied then {signer} else {});
    (World(world.time, s'), Finished(FromTryResult(result, satisfied)))
  }

  function Setup(pool: Pool): (World<Storage>, Shadow) {
    var admin, holder := Get(pool, ADMIN_INDEX), Get(pool, INITIAL_HOLDER_INDEX);
    (World(0, Storage(admin, INITIAL_SUPPLY, map[holder := INITIAL_SUPPLY])),
     Shadow(admin, [(holder, INITIAL_SUPPLY)], INITIAL_SUPPLY))
  }

  type Ctx = InvariantCtx<Command, Storage, Shadow>

  function CheckNoNegative(show: Address -> string): Ctx -> Check {
    (ctx: Ctx) => NoNegativeBalance(Holders(ctx.model.balances), BalanceReader(ctx.model.balances), show, ctx.stepIndex)
  }

  function CheckSupply(): Ctx -> Check {
    (ctx: Ctx) =>
      SupplyConservation(Holders(ctx.model.balances), BalanceReader(ctx.model.balances), ctx.model.totalSupply,
                         ctx.stepIndex)
  }

  function CheckAuth(show: Address -> string): Ctx -> Check {
    (ctx: Ctx) =>
      AuthRequiredForMutation(ctx.lastOutcome, Some(RequiredAuthorizer(ctx.model, ctx.pool, ctx.command)),
                              ctx.authorizers, show, ctx.stepIndex)
  }

  // The harness of the token fuzz target; `show` prints an address.
  function TokenAdapter(show: Address -> string): Adapter<Command, Storage, Shadow> {
    Adapter(Setup, Execute, Applied, [CheckNoNegative(show), CheckSupply(), CheckAuth(show)])
  }
}
