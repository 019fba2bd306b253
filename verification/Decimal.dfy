// Integers in decimal, as `Display` prints them and `str::parse` reads them.

module Decimal {
  predicate IsDigit(c: char) {
    '0' <= c <= '9'
  }

  predicate AllDigits(s: string) {
    forall i :: 0 <= i < |s| ==> IsDigit(s[i])
  }

  function DigitOf(d: nat): (c: char)
    requires d < 10
    ensures IsDigit(c)
  {
    ('0' as int + d) as char
  }

  function ShowNat(n: nat): string {
    if n < 10 then [DigitOf(n)] else ShowNat(n / 10) + [DigitOf(n % 10)]
  }

  function ShowInt(n: int): string {
    if n < 0 then "-" + ShowNat(-n) else ShowNat(n)
  }

  function ReadNat(s: string): nat
    requires AllDigits(s)
  {
    if s == [] then 0 else ReadNat(s[..|s| - 1]) * 10 + (s[|s| - 1] as int - '0' as int)
  }

  function PowerOfTen(n: nat): nat {
    if n == 0 then 1 else 10 * PowerOfTen(n - 1)
  }

  // The first digit counts most.
  lemma {:induction false} FirstDigitCountsMost(s: string)
    requires s != [] && AllDigits(s)
    ensures ReadNat(s) == (s[0] as int - '0' as int) * PowerOfTen(|s| - 1) + ReadNat(s[1..])
  {
    var n := |s| - 1;
    if n > 0 {
      FirstDigitCountsMost(s[..n]);
      assert s[..n][1..] == s[1..][..n - 1];
      var first := s[0] as int - '0' as int;
      assert first * PowerOfTen(n - 1) * 10 == first * PowerOfTen(n);
    }
  }

  lemma {:induction false} ShowThenRead(n: nat)
    ensures ShowNat(n) != [] && AllDigits(ShowNat(n)) && ReadNat(ShowNat(n)) == n
  {
    if n >= 10 {
      ShowThenRead(n / 10);
      var s := ShowNat(n);
      assert s[..|s| - 1] == ShowNat(n / 10);
    }
  }
}
