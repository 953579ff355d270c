/** Decimal printing of natural numbers, as `%d` does it. */
module Decimal {
  import opened Utf8

  predicate Digit(b: Byte) { 48 <= b < 58 }

  function Itoa(n: nat): (s: seq<Byte>)
    ensures |s| >= 1 && forall i :: 0 <= i < |s| ==> Digit(s[i])
    ensures |s| == 1 <==> n < 10
  {
    if n < 10 then [48 + n] else Itoa(n / 10) + [48 + n % 10]
  }

  lemma {:induction false} ItoaInjective(m: nat, n: nat)
    requires Itoa(m) == Itoa(n)
    ensures m == n
  {
    if m >= 10 && n >= 10 {
      var s, t := Itoa(m), Itoa(n);
      assert s[..|s| - 1] == Itoa(m / 10) && t[..|t| - 1] == Itoa(n / 10);
      ItoaInjective(m / 10, n / 10);
      assert s[|s| - 1] == t[|t| - 1];
    } else {
      assert m < 10 && n < 10;
    }
  }
}
