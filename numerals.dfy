/**
  Python `float(str)` restricted to decimal numerals: optional surrounding whitespace, an
  optional sign, digits with at most one decimal point and at least one digit. Values are
  exact reals; binary floating-point rounding is not modelled.
 */
module Numerals {

  import opened Wrappers
  import opened Text

  function DigitValue(c: char): (r: nat)
    requires IsDigit(c)
    ensures r < 10
  {
    c as int - '0' as int
  }

  /** The value of a run of decimal digits read most significant first; 0 for the empty run. */
  function DigitsValue(s: string): nat
    requires AllDigits(s)
  {
    if |s| == 0 then 0 else DigitsValue(s[..|s| - 1]) * 10 + DigitValue(s[|s| - 1])
  }

  /** The value of the digits after a decimal point: `0.d1d2...`, always below 1. */
  function FracValue(s: string): (r: real)
    requires AllDigits(s)
    ensures 0.0 <= r < 1.0
  {
    if |s| == 0 then 0.0 else (DigitValue(s[0]) as real + FracValue(s[1..])) / 10.0
  }

  function IndexOf(s: string, c: char): (k: nat)
    ensures k <= |s|
    ensures k < |s| ==> s[k] == c
    ensures forall j :: 0 <= j < k ==> s[j] != c
  {
    if |s| == 0 then 0 else if s[0] == c then 0 else 1 + IndexOf(s[1..], c)
  }

  /** An unsigned numeral `ddd`, `ddd.`, `.ddd` or `ddd.ddd`. */
  function ParseUnsigned(t: string): Option<real> {
    var k := IndexOf(t, '.');
    var whole := t[..k];
    var frac := if k < |t| then t[k + 1..] else "";
    if AllDigits(whole) && AllDigits(frac) && |whole| + |frac| > 0 then
      Some(DigitsValue(whole) as real + FracValue(frac))
    else None
  }

  /** Python `float(s)` on a string; None where Python raises ValueError. */
  function ParseFloat(s: string): Option<real> {
    var t := Strip(s);
    if |t| > 0 && t[0] == '-' then
      match ParseUnsigned(t[1..])
      case Some(v) => Some(-v)
      case None => None
    else if |t| > 0 && t[0] == '+' then ParseUnsigned(t[1..])
    else ParseUnsigned(t)
  }

  /** A string holding only a run of digits inside optional whitespace parses to that integer. */
  lemma ParseDigits(s: string)
    requires IsDigitString(Strip(s))
    ensures ParseFloat(s) == Some(DigitsValue(Strip(s)) as real)
  {
    var t := Strip(s);
    assert IndexOf(t, '.') == |t|;
    assert t[..|t|] == t;
  }

  /** A string with no digit at all is not a numeral. */
  lemma ParseNeedsDigit(s: string)
    requires forall k :: 0 <= k < |s| ==> !IsDigit(s[k])
    ensures ParseFloat(s).None?
  {
    var t := Strip(s);
    forall k | 0 <= k < |t| ensures !IsDigit(t[k]) {
      assert t[k] in t;
    }
    if |t| > 0 && (t[0] == '-' || t[0] == '+') {
      NoDigitUnsigned(t[1..]);
    } else {
      NoDigitUnsigned(t);
    }
  }

  /** Without a digit there is no unsigned numeral. */
  lemma NoDigitUnsigned(u: string)
    requires forall k :: 0 <= k < |u| ==> !IsDigit(u[k])
    ensures ParseUnsigned(u).None?
  {
    var j := IndexOf(u, '.');
    if |u[..j]| > 0 {
      assert !IsDigit(u[..j][0]);
    } else if j < |u| && |u[j + 1..]| > 0 {
      assert !IsDigit(u[j + 1..][0]);
    }
  }

  /** A trimmed, unsigned string without a decimal point that is not all digits raises. */
  lemma ParseIntegerNotDigits(s: string)
    requires Strip(s) == s && |s| > 0 && IsDigit(s[0])
    requires '.' !in s && !AllDigits(s)
    ensures ParseFloat(s).None?
  {
    var k := IndexOf(s, '.');
    assert k == |s|;
    assert s[..k] == s;
  }
}
