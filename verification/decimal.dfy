/**
 * Decimal digit strings: Rust's `{}` formatting of an unsigned integer and the
 * digit-string value behind `str::parse::<u32>`.
 */
module Decimal {

  /** One more than the largest `u32`. */
  const U32_LIMIT: nat := 0x1_0000_0000

  predicate IsDigit(c: char)
  {
    '0' <= c <= '9'
  }

  predicate AllDigits(s: string)
  {
    forall i :: 0 <= i < |s| ==> IsDigit(s[i])
  }

  function DigitValue(c: char): (d: nat)
    requires IsDigit(c)
    ensures d < 10
  {
    (c as int) - ('0' as int)
  }

  function DigitChar(d: nat): (c: char)
    requires d < 10
    ensures IsDigit(c) && DigitValue(c) == d
  {
    (('0' as int) + d) as char
  }

  /** The number a string of decimal digits denotes, most significant digit first. */
  function DigitsValue(s: string): nat
    requires AllDigits(s)
  {
    if |s| == 0 then 0 else 10 * DigitsValue(s[..|s| - 1]) + DigitValue(s[|s| - 1])
  }

  /** The shortest decimal rendering of `x`, as `format!("{}", x)` prints it. */
  function ToDecimal(x: nat): (s: string)
    ensures |s| > 0 && AllDigits(s)
    ensures |s| > 1 ==> s[0] != '0'
    decreases x
  {
    if x < 10 then [DigitChar(x)] else ToDecimal(x / 10) + [DigitChar(x % 10)]
  }

  /** Reading back a rendered number gives the number. */
  lemma {:induction false} ToDecimalRoundTrip(x: nat)
    ensures DigitsValue(ToDecimal(x)) == x
    decreases x
  {
    var s := ToDecimal(x);
    if x >= 10 {
      ToDecimalRoundTrip(x / 10);
      assert s[..|s| - 1] == ToDecimal(x / 10);
    }
  }
}
