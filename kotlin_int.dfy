/** Kotlin's 32-bit `Int` and the three operations on it that the card uses. */
module KotlinInt {
  import opened Decimal

  const IntMin: int := -0x8000_0000
  const IntMax: int := 0x7FFF_FFFF
  const Modulus: int := 0x1_0000_0000

  type Int32 = x: int | IntMin <= x <= IntMax

  /** Two's-complement wrap-around of an exact result into 32 bits. */
  function Wrap(x: int): (r: Int32)
    ensures (r - x) % Modulus == 0
  {
    (x - IntMin) % Modulus + IntMin
  }

  /** `-x`, which overflows only at `Int.MIN_VALUE`: that value is its own negation. */
  function Negate(x: Int32): (r: Int32)
    ensures x != IntMin ==> r as int == -(x as int)
    ensures x == IntMin ==> r == IntMin
  {
    Wrap(-(x as int))
  }

  /** `x.absoluteValue`, i.e. `Math.abs`: exact except that `Int.MIN_VALUE` stays negative. */
  function AbsoluteValue(x: Int32): (r: Int32)
    ensures x >= 0 ==> r == x
    ensures IntMin < x < 0 ==> r as int == -(x as int)
    ensures x == IntMin ==> r == IntMin
  {
    if x < 0 then Negate(x) else x
  }

  /** `toString()` on any integer: a minus sign before the magnitude's numeral. */
  function IntToString(x: int): (s: string)
    ensures |s| >= 1 && (s[0] == '-' <==> x < 0)
    ensures x >= 0 ==> s == NatToString(x)
    ensures x < 0 ==> AllDigits(s[1..]) && ParseNat(s[1..]) == -x && s[1] != '0'
  {
    ParseNatToString(if x < 0 then -x else x);
    if x < 0 then "-" + NatToString(-x) else NatToString(x)
  }
}
