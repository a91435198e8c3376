/**
 * Decimal text and numbers: the forgiving number parse behind
 * `pd.to_numeric(..., errors="coerce")` and `float(value)`, Python's `str()` of an
 * int and of a float, and truncation toward zero (`int(x)` on a float).
 */
module Numbers {
  import opened Wrappers

  predicate IsDigit(c: char) { '0' <= c <= '9' }

  predicate AllDigits(s: string) { forall i :: 0 <= i < |s| ==> IsDigit(s[i]) }

  function DigitValue(c: char): nat
    requires IsDigit(c)
  {
    c as int - '0' as int
  }

  function DigitChar(d: nat): (c: char)
    requires d < 10
    ensures IsDigit(c) && DigitValue(c) == d
  {
    ('0' as int + d) as char
  }

  /** The value of a string of decimal digits, most significant first ("" is 0). */
  function DigitsValue(s: string): nat
    requires AllDigits(s)
  {
    if |s| == 0 then 0 else DigitsValue(s[..|s| - 1]) * 10 + DigitValue(s[|s| - 1])
  }

  function Pow10(n: nat): (p: nat)
    ensures p >= 1
  {
    if n == 0 then 1 else 10 * Pow10(n - 1)
  }

  /** Python's `str(n)` for a non-negative int: digits without leading zeros. */
  function NatText(n: nat): (s: string)
    ensures |s| > 0 && AllDigits(s)
    ensures |s| > 1 ==> s[0] != '0'
  {
    if n < 10 then [DigitChar(n)] else NatText(n / 10) + [DigitChar(n % 10)]
  }

  /** Python's `str(i)` for an int. */
  function IntText(i: int): (s: string)
    ensures |s| > 0
    ensures i < 0 <==> s[0] == '-'
  {
    if i < 0 then "-" + NatText(-i) else NatText(i)
  }

  /** Position of the first '.' in `s`, if there is one. */
  function FindDot(s: string): (r: Option<nat>)
    ensures r.Some? ==> r.value < |s| && s[r.value] == '.'
    ensures r.Some? ==> forall i :: 0 <= i < r.value ==> s[i] != '.'
    ensures r.None? ==> forall i :: 0 <= i < |s| ==> s[i] != '.'
  {
    if |s| == 0 then None
    else if s[0] == '.' then Some(0)
    else match FindDot(s[1..])
      case Some(k) => Some(k + 1)
      case None => None
  }

  /** An unsigned decimal: digits, optionally a '.' and more digits, with at least one digit. */
  function ParseUnsigned(s: string): (r: Option<real>)
    ensures r.Some? ==> r.value >= 0.0
  {
    var parts := match FindDot(s)
      case None => (s, "")
      case Some(k) => (s[..k], s[k + 1..]);
    var whole, frac := parts.0, parts.1;
    if |whole| + |frac| > 0 && AllDigits(whole) && AllDigits(frac) then
      Some(DigitsValue(whole) as real + DigitsValue(frac) as real / Pow10(|frac|) as real)
    else
      None
  }

  /**
   * The number a text cell denotes, or None when it does not parse (which the
   * pipeline turns into a missing value rather than an error).
   */
  function ParseNumber(s: string): (r: Option<real>)
    ensures r.Some? ==> |s| > 0
  {
    if |s| > 0 && (s[0] == '-' || s[0] == '+') then
      match ParseUnsigned(s[1..])
      case Some(x) => Some(if s[0] == '-' then -x else x)
      case None => None
    else
      ParseUnsigned(s)
  }

  lemma {:induction false} NatTextValue(n: nat)
    ensures DigitsValue(NatText(n)) == n
  {
    if n >= 10 {
      NatTextValue(n / 10);
      var s := NatText(n);
      assert s[..|s| - 1] == NatText(n / 10);
    }
  }

  lemma NatTextHasNoDot(n: nat)
    ensures FindDot(NatText(n)) == None
  {
    var s := NatText(n);
    assert forall i :: 0 <= i < |s| ==> s[i] != '.' by {
      assert AllDigits(s);
    }
  }

  /** Printing an int and parsing the text back gives the same number. */
  lemma IntTextRoundTrip(i: int)
    ensures ParseNumber(IntText(i)) == Some(i as real)
  {
    var n: nat := if i < 0 then -i else i;
    NatTextValue(n);
    NatTextHasNoDot(n);
    assert DigitsValue("") == 0;
    if i < 0 {
      assert IntText(i)[1..] == NatText(n);
    } else {
      assert IntText(i)[0] != '-' && IntText(i)[0] != '+' by {
        assert IsDigit(NatText(n)[0]);
      }
    }
  }

  /** Fractional digits of `f` (0 <= f < 1), at most `n` of them, without trailing zeros. */
  function FracDigits(f: real, n: nat): (s: string)
    requires 0.0 <= f < 1.0
    ensures AllDigits(s)
    decreases n
  {
    if n == 0 || f == 0.0 then ""
    else
      var t := f * 10.0;
      var d := t.Floor;
      [DigitChar(d)] + FracDigits(t - d as real, n - 1)
  }

  /**
   * Python's `str()` of a float, for magnitudes printed without an exponent:
   * a sign, the whole part, a '.', and at least one fractional digit ("12.0", "-0.5").
   */
  function FloatText(x: real): (s: string)
    ensures |s| > 0 && (s[0] == '-' || IsDigit(s[0]))
  {
    var a := if x < 0.0 then -x else x;
    var w := a.Floor;
    var frac := FracDigits(a - w as real, 17);
    (if x < 0.0 then "-" else "") + NatText(w) + "." + (if frac == "" then "0" else frac)
  }

  /** Python's `int(x)` for a float: truncation toward zero. */
  function Trunc(x: real): (t: int)
    ensures x >= 0.0 ==> t as real <= x < t as real + 1.0
    ensures x < 0.0 ==> t as real - 1.0 < x <= t as real
  {
    if x >= 0.0 then x.Floor else -((-x).Floor)
  }
}
