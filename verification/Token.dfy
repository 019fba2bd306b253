// The example token: checked i128 arithmetic over ledger storage. A call's `signers` are the addresses
// whose authorization the host was told to accept; a `require_auth` of anyone else aborts.

module Token {
  import opened Prelude
  import opened AddressPools
  import opened Harness

  const INSUFFICIENT_BALANCE: nat := 1
  const OVERFLOW: nat := 2
  const NEGATIVE_AMOUNT: nat := 3

  datatype Storage = Storage(admin: Address, supply: int, balances: map<Address, int>)

  function BalanceIn(balances: map<Address, int>, who: Address): int {
    if who in balances then balances[who] else 0
  }

  function Minted(s: Storage, to: Address, amount: int, signers: set<Address>): (Storage, CallResult) {
    var balance := BalanceIn(s.balances, to);
    if amount < 0 then (s, ContractError(NEGATIVE_AMOUNT))
    else if s.admin !in signers then (s, Abort)
    else if !FitsI128(balance + amount) || !FitsI128(s.supply + amount) then (s, ContractError(OVERFLOW))
    else (s.(supply := s.supply + amount, balances := s.balances[to := balance + amount]), Returned)
  }

  function Burned(s: Storage, from: Address, amount: int, signers: set<Address>): (Storage, CallResult) {
    var balance := BalanceIn(s.balances, from);
    if amount < 0 then (s, ContractError(NEGATIVE_AMOUNT))
    else if from !in signers then (s, Abort)
    else if amount > balance then (s, ContractError(INSUFFICIENT_BALANCE))
    else if !FitsI128(s.supply - amount) then (s, ContractError(OVERFLOW))
    else (s.(supply := s.supply - amount, balances := s.balances[from := balance - amount]), Returned)
  }

  // Both balances are read before either is written, so with `from == to` the second write wins.
  function Transferred(s: Storage, from: Address, to: Address, amount: int,
                       signers: set<Address>): (Storage, CallResult)
  {
    var fromBalance, toBalance := BalanceIn(s.balances, from), BalanceIn(s.balances, to);
    if amount < 0 then (s, ContractError(NEGATIVE_AMOUNT))
    else if from !in signers then (s, Abort)
    else if amount > fromBalance then (s, ContractError(INSUFFICIENT_BALANCE))
    else if !FitsI128(toBalance + amount) then (s, ContractError(OVERFLOW))
    else (s.(balances := s.balances[from := fromBalance - amount][to := toBalance + amount]), Returned)
  }

  class TokenContract {
    var admin: Address
    var supply: int
    var balances: map<Address, int>

    constructor (admin: Address, initialHolder: Address, initialSupply: int)
      ensures Stored() == Storage(admin, initialSupply, map[initialHolder := initialSupply])
    {
      this.admin := admin;
      supply := initialSupply;
      balances := map[initialHolder := initialSupply];
    }

    function Stored(): Storage
      reads this
    {
      Storage(admin, supply, balances)
    }

    method Balance(who: Address) returns (balance: int)
      ensures balance == BalanceIn(balances, who)
    {
      balance := if who in balances then balances[who] else 0;
    }

    method Mint(to: Address, amount: int, signers: set<Address>) returns (result: CallResult)
      modifies this
      ensures (Stored(), result) == Minted(old(Stored()), to, amount, signers)
    {
      if amount < 0 {
        return ContractError(NEGATIVE_AMOUNT);
      }
      if admin !in signers {
        return Abort;
      }
      var balance := Balance(to);
      var newBalance := balance + amount;
      if !FitsI128(newBalance) {
        return ContractError(OVERFLOW);
      }
      var newSupply := supply + amount;
      if !FitsI128(newSupply) {
        return ContractError(OVERFLOW);
      }
      balances := balances[to := newBalance];
      supply := newSupply;
      return Returned;
    }

    method Burn(from: Address, amount: int, signers: set<Address>) returns (result: CallResult)
      modifies this
      ensures (Stored(), result) == Burned(old(Stored()), from, amount, signers)
    {
      if amount < 0 {
        return ContractError(NEGATIVE_AMOUNT);
      }
      if from !in signers {
        return Abort;
      }
      var balance := Balance(from);
      if amount > balance {
        return ContractError(INSUFFICIENT_BALANCE);
      }
      var newSupply := supply - amount;
      if !FitsI128(newSupply) {
        return ContractError(OVERFLOW);
      }
      balances := balances[from := balance - amount];
      supply := newSupply;
      return Returned;
    }

    method Transfer(from: Address, to: Address, amount: int, signers: set<Address>) returns (result: CallResult)
      modifies this
      ensures (Stored(), result) == Transferred(old(Stored()), from, to, amount, signers)
    {
      if amount < 0 {
        return ContractError(NEGATIVE_AMOUNT);
      }
      if from !in signers {
        return Abort;
      }
      var fromBalance := Balance(from);
      if amount > fromBalance {
        return ContractError(INSUFFICIENT_BALANCE);
      }
      var newFromBalance := fromBalance - amount;
      var toBalance := Balance(to);
      var newToBalance := toBalance + amount;
      if !FitsI128(newToBalance) {
        return ContractError(OVERFLOW);
      }
      balances := balances[from := newFromBalance];
      balances := balances[to := newToBalance];
      return Returned;
    }
  }

  // ----- what each call decides -----

  // Every balance is as before, but for what `who` gains.
  ghost predicate Gains(before: map<Address, int>, after: map<Address, int>, who: Address, amount: int) {
    forall a :: BalanceIn(after, a) == BalanceIn(before, a) + if a == who then amount else 0
  }

  // A mint is accepted exactly if its amount is not negative, the admin signed, and neither the balance
  // nor the supply leaves i128; each way it can fail has its own answer and changes nothing.
  lemma MintDecides(s: Storage, to: Address, amount: int, signers: set<Address>)
    ensures var (s', result) := Minted(s, to, amount, signers);
            var fits := FitsI128(BalanceIn(s.balances, to) + amount) && FitsI128(s.supply + amount);
            && (result == ContractError(3) <==> amount < 0)
            && (result == Abort <==> amount >= 0 && s.admin !in signers)
            && (result == ContractError(2) <==> amount >= 0 && s.admin in signers && !fits)
            && (result == Returned <==> amount >= 0 && s.admin in signers && fits)
            && (result != Returned ==> s' == s)
            && (result == Returned ==>
                 s'.admin == s.admin && s'.supply == s.supply + amount && Gains(s.balances, s'.balances, to, amount))
  {
  }

  // Likewise a burn, which its holder signs and which must be covered by the holder's balance.
  lemma BurnDecides(s: Storage, from: Address, amount: int, signers: set<Address>)
    ensures var (s', result) := Burned(s, from, amount, signers);
            var signed, covered := from in signers, amount <= BalanceIn(s.balances, from);
            && (result == ContractError(3) <==> amount < 0)
            && (result == Abort <==> amount >= 0 && !signed)
            && (result == ContractError(1) <==> amount >= 0 && signed && !covered)
            && (result == ContractError(2) <==> amount >= 0 && signed && covered && !FitsI128(s.supply - amount))
            && (result == Returned <==> amount >= 0 && signed && covered && FitsI128(s.supply - amount))
            && (result != Returned ==> s' == s)
            && (result == Returned ==>
                 s'.admin == s.admin && s'.supply == s.supply - amount && Gains(s.balances, s'.balances, from, -amount))
  {
  }

  // Likewise a transfer: between distinct ends it moves the amount; to oneself it is added, since both
  // balances are read before either is written. The supply stays either way.
  lemma TransferDecides(s: Storage, from: Address, to: Address, amount: int, signers: set<Address>)
    ensures var (s', result) := Transferred(s, from, to, amount, signers);
            var signed, covered := from in signers, amount <= BalanceIn(s.balances, from);
            var fits := FitsI128(BalanceIn(s.balances, to) + amount);
            && (result == ContractError(3) <==> amount < 0)
            && (result == Abort <==> amount >= 0 && !signed)
            && (result == ContractError(1) <==> amount >= 0 && signed && !covered)
            && (result == ContractError(2) <==> amount >= 0 && signed && covered && !fits)
            && (result == Returned <==> amount >= 0 && signed && covered && fits)
            && (result != Returned ==> s' == s)
            && (result == Returned ==>
                 && s'.admin == s.admin && s'.supply == s.supply
                 && forall a :: BalanceIn(s'.balances, a) == BalanceIn(s.balances, a)
                                  + if a == to then amount else if a == from then -amount else 0)
  {
  }

  // ----- conservation -----

  // The sum of all stored balances.
  ghost function Total(balances: map<Address, int>): int
    decreases |balances|
  {
    if balances == map[] then 0
    else
      var a :| a in balances;
      balances[a] + Total(balances - {a})
  }

  // The sum does not depend on the order in which it is taken.
  lemma {:induction false} TotalWithout(balances: map<Address, int>, a: Address)
    requires a in balances
    ensures Total(balances) == balances[a] + Total(balances - {a})
    decreases |balances|
  {
    var b :| b in balances && Total(balances) == balances[b] + Total(balances - {b});
    if a != b {
      TotalWithout(balances - {b}, a);
      TotalWithout(balances - {a}, b);
      assert balances - {a} - {b} == balances - {b} - {a};
    }
  }

  lemma TotalAfterWrite(balances: map<Address, int>, a: Address, balance: int)
    ensures Total(balances[a := balance]) == Total(balances) - BalanceIn(balances, a) + balance
  {
    var written := balances[a := balance];
    TotalWithout(written, a);
    if a in balances {
      TotalWithout(balances, a);
      assert written - {a} == balances - {a};
    } else {
      assert written - {a} == balances;
    }
  }

  // What stored balances exceed the stored supply by.
  ghost function Excess(s: Storage): int {
    Total(s.balances) - s.supply
  }

  // Minting and burning conserve; so does a transfer between two addresses; a transfer to oneself
  // creates exactly its amount.
  lemma MintConserves(s: Storage, to: Address, amount: int, signers: set<Address>)
    ensures Excess(Minted(s, to, amount, signers).0) == Excess(s)
  {
    TotalAfterWrite(s.balances, to, BalanceIn(s.balances, to) + amount);
  }

  lemma BurnConserves(s: Storage, from: Address, amount: int, signers: set<Address>)
    ensures Excess(Burned(s, from, amount, signers).0) == Excess(s)
  {
    TotalAfterWrite(s.balances, from, BalanceIn(s.balances, from) - amount);
  }

  lemma TransferDrift(s: Storage, from: Address, to: Address, amount: int, signers: set<Address>)
    ensures var (s', result) := Transferred(s, from, to, amount, signers);
            Excess(s') == Excess(s) + if result.Returned? && from == to then amount else 0
  {
    var debited := s.balances[from := BalanceIn(s.balances, from) - amount];
    TotalAfterWrite(s.balances, from, BalanceIn(s.balances, from) - amount);
    TotalAfterWrite(debited, to, BalanceIn(s.balances, to) + amount);
  }
}
