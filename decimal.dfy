/** Decimal rendering of natural numbers, as `Int.toString()` prints a non-negative value. */
module Decimal {

  predicate IsDigit(c: char) {
    '0' <= c <= '9'
  }

  predicate AllDigits(s: string) {
    forall i :: 0 <= i < |s| ==> IsDigit(s[i])
  }

  function DigitChar(k: nat): (c: char)
    requires k < 10
    ensures IsDigit(c)
  {
    ('0' as int + k) as char
  }

  function DigitValue(c: char): (k: nat)
    requires IsDigit(c)
    ensures k < 10 && DigitChar(k) == c
  {
    c as int - '0' as int
  }

  /** The decimal numeral of `n`: digits only, never empty, no leading zero. */
  function NatToString(n: nat): (s: string)
    ensures |s| >= 1 && AllDigits(s)
    ensures s[0] == '0' ==> n == 0
    decreases n
  {
    if n < 10 then [DigitChar(n)] else NatToString(n / 10) + [DigitChar(n % 10)]
  }

  /** The value of a numeral (the empty numeral reads as 0). */
  function ParseNat(s: string): nat
    requires AllDigits(s)
  {
    if s == [] then 0 else 10 * ParseNat(s[..|s| - 1]) + DigitValue(s[|s| - 1])
  }

  /** Reading a rendered numeral gives the number back. */
  lemma {:induction false} ParseNatToString(n: nat)
    ensures ParseNat(NatToString(n)) == n
    decreases n
  {
    var s := NatToString(n);
    if n >= 10 {
      var p := NatToString(n / 10);
      assert s[..|s| - 1] == p;
      ParseNatToString(n / 10);
    }
  }

  /** Different numbers get different numerals. */
  lemma NatToStringInjective(a: nat, b: nat)
    ensures NatToString(a) == NatToString(b) <==> a == b
  {
    ParseNatToString(a);
    ParseNatToString(b);
  }

  /** One digit below ten, two digits from ten to ninety-nine. */
  lemma NatToStringWidth(n: nat)
    ensures n < 10 ==> |NatToString(n)| == 1
    ensures 10 <= n < 100 ==> |NatToString(n)| == 2
  {
  }
}
