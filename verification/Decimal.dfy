/** The decimal text of an integer, as a template string writes it. */
module Decimal {

  function Digit(d: nat): char
    requires d < 10
  {
    '0' + d as char
  }

  predicate IsDigit(c: char) {
    '0' <= c <= '9'
  }

  function OfNat(n: nat): (s: string)
    ensures |s| > 0 && forall i :: 0 <= i < |s| ==> IsDigit(s[i])
  {
    if n < 10 then [Digit(n)] else OfNat(n / 10) + [Digit(n % 10)]
  }

  function OfInt(n: int): string {
    if n < 0 then "-" + OfNat(-n) else OfNat(n)
  }

  function ToNat(s: string): int
    requires forall i :: 0 <= i < |s| ==> IsDigit(s[i])
  {
    if s == "" then 0 else 10 * ToNat(s[..|s| - 1]) + (s[|s| - 1] as int - '0' as int)
  }

  lemma {:induction false} ToNatOfNat(n: nat)
    ensures ToNat(OfNat(n)) == n
  {
    var s := OfNat(n);
    if n < 10 {
      assert s[..0] == "";
    } else {
      ToNatOfNat(n / 10);
      assert s[..|s| - 1] == OfNat(n / 10);
    }
  }

  /** No colon, and no two integers with the same text. */
  lemma OfIntHasNoColon(n: int)
    ensures forall i :: 0 <= i < |OfInt(n)| ==> OfInt(n)[i] != ':'
  {
  }

  lemma OfIntIsInjective(m: int, n: int)
    requires OfInt(m) == OfInt(n)
    ensures m == n
  {
    var s, t := OfInt(m), OfInt(n);
    ToNatOfNat(if m < 0 then -m else m);
    ToNatOfNat(if n < 0 then -n else n);
    assert s[0] == t[0];
    if m < 0 {
      assert n < 0;
      assert s[1..] == OfNat(-m) && t[1..] == OfNat(-n);
    } else {
      assert n >= 0;
    }
  }
}
