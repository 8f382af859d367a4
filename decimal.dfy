/** Decimal rendering of a natural number, as `format!("{}", n)` produces it. */
module Decimal {

  function Digit(d: nat): (c: char)
    requires d < 10
    ensures '0' <= c <= '9'
  {
    (48 + d) as char
  }

  predicate AllDigits(s: string)
  {
    forall k :: 0 <= k < |s| ==> '0' <= s[k] <= '9'
  }

  /** The number a string of decimal digits spells, most significant digit first. */
  function DecimalValue(s: string): nat
    requires AllDigits(s)
  {
    if s == [] then 0 else 10 * DecimalValue(s[..|s| - 1]) + (s[|s| - 1] as int - 48)
  }

  /** The decimal digits of `n`, most significant first, without leading zeros. */
  function NatToDecimal(n: nat): (s: string)
    ensures AllDigits(s) && DecimalValue(s) == n
    ensures 1 <= |s|
    ensures n < 10 <==> |s| == 1
    ensures |s| > 1 ==> s[0] != '0'
  {
    if n < 10 then [Digit(n)]
    else
      var p := NatToDecimal(n / 10);
      var s := p + [Digit(n % 10)];
      assert s[..|s| - 1] == p;
      s
  }

  /** Different numbers have different decimal renderings. */
  lemma NatToDecimalInjective(a: nat, b: nat)
    requires NatToDecimal(a) == NatToDecimal(b)
    ensures a == b
  {
    assert a == DecimalValue(NatToDecimal(a)) == DecimalValue(NatToDecimal(b)) == b;
  }

  /** A fixed prefix followed by different numbers gives different strings. */
  lemma PrefixedDecimalInjective(prefix: string, a: nat, b: nat)
    requires prefix + NatToDecimal(a) == prefix + NatToDecimal(b)
    ensures a == b
  {
    var sa, sb := prefix + NatToDecimal(a), prefix + NatToDecimal(b);
    assert NatToDecimal(a) == sa[|prefix|..] == sb[|prefix|..] == NatToDecimal(b);
    NatToDecimalInjective(a, b);
  }
}
