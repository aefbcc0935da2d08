/**
  The lexical forms of numbers: ASCII decimal digit strings, the integer and
  the dotted decimal tokens built from them, and the value each one denotes.
  It also holds the decimal rendering that `str`/`print` gives an `int`.
*/
module Decimal {

  predicate IsDigit(c: char)
  {
    '0' <= c <= '9'
  }

  predicate AllDigits(s: string)
  {
    forall k :: 0 <= k < |s| ==> IsDigit(s[k])
  }

  function DigitValue(c: char): (d: nat)
    requires IsDigit(c)
    ensures d < 10
  {
    (c as int - '0' as int) as nat
  }

  function DigitChar(d: nat): (c: char)
    requires d < 10
    ensures IsDigit(c) && DigitValue(c) == d
  {
    ('0' as int + d) as char
  }

  /** The number a digit string denotes, most significant digit first; "" denotes 0. */
  function DigitsValue(s: string): nat
    requires AllDigits(s)
    decreases |s|
  {
    if s == [] then 0 else 10 * DigitsValue(s[..|s| - 1]) + DigitValue(s[|s| - 1])
  }

  function Pow10(k: nat): (p: nat)
    ensures p >= 1
  {
    if k == 0 then 1 else 10 * Pow10(k - 1)
  }

  /** The shortest digit string of `n` (no leading zeros; "0" for zero). */
  function NatToDigits(n: nat): (s: string)
    ensures |s| > 0 && AllDigits(s)
    ensures DigitsValue(s) == n
    ensures n > 0 ==> s[0] != '0'
    decreases n
  {
    if n < 10 then
      [DigitChar(n)]
    else
      var prefix := NatToDigits(n / 10);
      var s := prefix + [DigitChar(n % 10)];
      assert s[..|s| - 1] == prefix;
      s
  }

  /** An integer token: an optional '-' followed by the digit string `d`. */
  function IntText(neg: bool, d: string): string
  {
    if neg then "-" + d else d
  }

  function IntTextValue(neg: bool, d: string): int
    requires AllDigits(d)
  {
    if neg then -(DigitsValue(d) as int) else DigitsValue(d)
  }

  /** A dotted decimal token: an optional '-', the integral digits, '.', the fractional digits. */
  function FloatText(neg: bool, whole: string, frac: string): string
  {
    IntText(neg, whole + "." + frac)
  }

  function FloatTextValue(neg: bool, whole: string, frac: string): real
    requires AllDigits(whole) && AllDigits(frac)
  {
    var magnitude := DigitsValue(whole) as real + DigitsValue(frac) as real / Pow10(|frac|) as real;
    if neg then -magnitude else magnitude
  }

  /**
    CPython's default bound on the number of decimal digits that `int()` reads
    and `str()` writes (from CPython 3.11, and in the 3.7.14, 3.8.14, 3.9.14
    and 3.10.7 security releases); a sign does not count.
  */
  const INT_MAX_STR_DIGITS := 4300

  /** Whether `str` of `i` raises `ValueError` because its decimal form has too many digits. */
  predicate ExceedsStrLimit(i: int)
  {
    |NatToDigits(if i < 0 then -i else i)| > INT_MAX_STR_DIGITS
  }

  /** A number has at most `k` digits exactly when it is below 10^k. */
  lemma {:induction false} DigitCountBound(n: nat, k: nat)
    requires k >= 1
    ensures |NatToDigits(n)| <= k <==> n < Pow10(k)
    decreases k
  {
    if n >= 10 {
      var prefix := NatToDigits(n / 10);
      assert NatToDigits(n) == prefix + [DigitChar(n % 10)];
      if k == 1 {
        assert Pow10(1) == 10;
      } else {
        DigitCountBound(n / 10, k - 1);
        assert Pow10(k) == 10 * Pow10(k - 1);
      }
    } else {
      assert Pow10(k) == 10 * Pow10(k - 1);
    }
  }

  /** `str` of an `int` fails exactly when its magnitude is at least 10^4300. */
  lemma ExceedsStrLimitIffLarge(i: int)
    ensures ExceedsStrLimit(i) <==> (if i < 0 then -i else i) >= Pow10(INT_MAX_STR_DIGITS)
  {
    DigitCountBound(if i < 0 then -i else i, INT_MAX_STR_DIGITS);
  }

  /**
    The text Python's `str` gives an `int`: a '-' for negatives, then the
    digits without leading zeros. `str` raises instead when `ExceedsStrLimit`.
  */
  function ShowInt(i: int): (s: string)
    ensures |s| > 0 && '.' !in s
    ensures i >= 0 ==> AllDigits(s)
  {
    var s := IntText(i < 0, NatToDigits(if i < 0 then -i else i));
    assert forall k :: 0 <= k < |s| ==> s[k] == '-' || IsDigit(s[k]);
    s
  }
}
