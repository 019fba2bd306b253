// The shared invariants, over whatever balances and supply a shadow model exposes.

module Invariants {
  import opened Prelude
  import opened AddressPools
  import opened Decimal
  import opened Harness

  const NO_NEGATIVE_BALANCE: string := "no-negative-balance"
  const BALANCE_OF: string := "balance of "
  const SUPPLY_CONSERVATION: string := "supply-conservation"
  const AUTH_REQUIRED: string := "auth-required-for-mutation"

  // `show` prints an address for the violation message.
  function NoNegativeBalance(holders: seq<Address>, balanceOf: Address -> int, show: Address -> string,
                             stepIndex: nat): Check
  {
    if holders == [] then Pass
    else if balanceOf(holders[0]) < 0 then
      Fail(Violation(NO_NEGATIVE_BALANCE,
                     BALANCE_OF + show(holders[0]) + " went negative: " + ShowInt(balanceOf(holders[0])), stepIndex))
    else NoNegativeBalance(holders[1..], balanceOf, show, stepIndex)
  }

  // The running i128 sum, None once it overflows.
  function CheckedSum(holders: seq<Address>, balanceOf: Address -> int, total: int): Option<int> {
    if holders == [] then Some(total)
    else if FitsI128(total + balanceOf(holders[0]))
      then CheckedSum(holders[1..], balanceOf, total + balanceOf(holders[0]))
    else None
  }

  function SupplyConservation(holders: seq<Address>, balanceOf: Address -> int, supply: int, stepIndex: nat): Check {
    match CheckedSum(holders, balanceOf, 0)
    case None => Overflow
    case Some(sum) =>
      if sum == supply then Pass
      else Fail(Violation(SUPPLY_CONSERVATION,
                          "sum of balances (" + ShowInt(sum) + ") != total supply (" + ShowInt(supply) + ")",
                            stepIndex))
  }

  function AuthRequiredForMutation(outcome: Outcome, required: Option<Address>, authorizers: seq<Address>,
                                   show: Address -> string, stepIndex: nat): Check
  {
    if outcome.Ok? && required.Some? && required.value !in authorizers then
      Fail(Violation(AUTH_REQUIRED, "command succeeded without authorization from required address "
                     + show(required.value), stepIndex))
    else Pass
  }

  // ----- what each check decides -----

  // The first negative holder is the one reported.
  lemma {:induction false} NoNegativeBalanceDecides(holders: seq<Address>, balanceOf: Address -> int,
                                                    show: Address -> string, stepIndex: nat)
    ensures var check := NoNegativeBalance(holders, balanceOf, show, stepIndex);
            if forall a :: a in holders ==> balanceOf(a) >= 0 then check == Pass
            else check.Fail? && Reports(Found(check.violation), NO_NEGATIVE_BALANCE, BALANCE_OF, stepIndex)
  {
    if holders != [] && balanceOf(holders[0]) >= 0 {
      NoNegativeBalanceDecides(holders[1..], balanceOf, show, stepIndex);
      assert forall a :: a in holders <==> a == holders[0] || a in holders[1..];
    }
  }

  function Sum(holders: seq<Address>, balanceOf: Address -> int): int {
    if holders == [] then 0 else balanceOf(holders[0]) + Sum(holders[1..], balanceOf)
  }

  // The running sum overflows exactly if some partial sum leaves i128, even when later balances would
  // bring it back.
  lemma {:induction false} CheckedSumDecides(holders: seq<Address>, balanceOf: Address -> int, total: int)
    requires FitsI128(total)
    ensures CheckedSum(holders, balanceOf, total)
            == if forall n :: 0 <= n <= |holders| ==> FitsI128(total + Sum(holders[..n], balanceOf))
               then Some(total + Sum(holders, balanceOf)) else None
  {
    assert holders[..|holders|] == holders;
    if holders != [] {
      var next := total + balanceOf(holders[0]);
      assert holders[..1] == [holders[0]];
      assert Sum(holders[..1], balanceOf) == balanceOf(holders[0]);
      forall n | 1 <= n <= |holders|
        ensures total + Sum(holders[..n], balanceOf) == next + Sum(holders[1..][..n - 1], balanceOf)
      {
        assert holders[..n][1..] == holders[1..][..n - 1];
      }
      if FitsI128(next) {
        CheckedSumDecides(holders[1..], balanceOf, next);
        var rest := holders[1..];
        if forall n :: 0 <= n <= |holders| ==> FitsI128(total + Sum(holders[..n], balanceOf)) {
          forall n | 0 <= n <= |rest| ensures FitsI128(next + Sum(rest[..n], balanceOf)) {
            assert FitsI128(total + Sum(holders[..n + 1], balanceOf));
          }
        }
      }
    }
  }

  // The supply check passes exactly if the balances sum to the supply, and otherwise reports itself; it
  // overflows exactly if a partial sum leaves i128.
  lemma SupplyConservationDecides(holders: seq<Address>, balanceOf: Address -> int, supply: int, stepIndex: nat)
    ensures var check := SupplyConservation(holders, balanceOf, supply, stepIndex);
            if exists n :: 0 <= n <= |holders| && !FitsI128(Sum(holders[..n], balanceOf)) then check == Overflow
            else if Sum(holders, balanceOf) == supply then check == Pass
            else check.Fail? && check.violation.invariantName == "supply-conservation"
                 && check.violation.stepIndex == stepIndex
  {
    CheckedSumDecides(holders, balanceOf, 0);
  }

  // The authorization check fails exactly if a command succeeded without its required address.
  lemma AuthRequiredDecides(outcome: Outcome, required: Option<Address>, authorizers: seq<Address>,
                            show: Address -> string, stepIndex: nat)
    ensures var check := AuthRequiredForMutation(outcome, required, authorizers, show, stepIndex);
            if outcome == Ok && exists a :: required == Some(a) && a !in authorizers
            then check.Fail? && check.violation.invariantName == "auth-required-for-mutation"
                 && check.violation.stepIndex == stepIndex
            else check == Pass
  {
    assert required.Some? ==> required == Some(required.value);
  }

  // Over non-negative balances no partial sum exceeds the whole, so the sum overflows only if the
  // whole does: registering the sum after the sign check is what makes it safe.
  lemma {:induction false} CheckedSumOfNonNegative(holders: seq<Address>, balanceOf: Address -> int, total: int)
    requires forall a :: a in holders ==> balanceOf(a) >= 0
    requires 0 <= total <= I128_MAX
    ensures Sum(holders, balanceOf) >= 0
    ensures CheckedSum(holders, balanceOf, total)
            == if total + Sum(holders, balanceOf) <= I128_MAX then Some(total + Sum(holders, balanceOf)) else None
  {
    if holders != [] {
      var next := total + balanceOf(holders[0]);
      if next <= I128_MAX {
        CheckedSumOfNonNegative(holders[1..], balanceOf, next);
      } else {
        CheckedSumOfNonNegative(holders[1..], balanceOf, 0);
      }
    }
  }
}
