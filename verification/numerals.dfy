/** Decimal text for numbers: Python's `str(int)`, the subset of `float(text)` the
    script's inputs use, and `int(x)` on a real. */
module Numerals {
  import opened Wrappers
  import opened Text

  predicate IsDigit(c: char)
  {
    '0' <= c <= '9'
  }

  predicate AllDigits(s: string)
  {
    forall i :: 0 <= i < |s| ==> IsDigit(s[i])
  }

  function DigitOf(c: char): nat
    requires IsDigit(c)
  {
    c as int - '0' as int
  }

  /** The value of a run of decimal digits, most significant first (0 for no digits). */
  function DigitsValue(s: string): nat
    requires AllDigits(s)
  {
    if s == [] then 0 else 10 * DigitsValue(s[..|s| - 1]) + DigitOf(s[|s| - 1])
  }

  function Pow10(n: nat): (r: nat)
    ensures r >= 1
  {
    if n == 0 then 1 else 10 * Pow10(n - 1)
  }

  /** The value of the digits after a decimal point. */
  function Fraction(f: string): real
    requires AllDigits(f)
  {
    DigitsValue(f) as real / Pow10(|f|) as real
  }

  /** The value of the numeral `whole.frac`. */
  function NumeralValue(whole: string, frac: string): real
    requires AllDigits(whole) && AllDigits(frac)
  {
    DigitsValue(whole) as real + Fraction(frac)
  }

  /** Python's `str(n)` for a natural number: shortest decimal numeral, read back exactly. */
  function NatToString(n: nat): (r: string)
    ensures |r| >= 1 && AllDigits(r)
    ensures DigitsValue(r) == n
    ensures r[0] == '0' ==> r == "0"
  {
    if n < 10 then [('0' as int + n) as char]
    else
      var r := NatToString(n / 10) + [('0' as int + n % 10) as char];
      assert r[..|r| - 1] == NatToString(n / 10);
      r
  }

  /** Python's `str(n)` for any integer: a minus sign before the magnitude when negative. */
  function IntToString(n: int): (r: string)
    ensures |r| >= 1
    ensures n >= 0 ==> AllDigits(r)
    ensures n < 0 ==> r[0] == '-' && AllDigits(r[1..])
  {
    if n < 0 then "-" + NatToString(-n) else NatToString(n)
  }

  /** The decimal text of an integer holds only digits and a leading minus sign, so no
      other character occurs in it. */
  lemma IntTextExcludes(n: int, c: char)
    requires !IsDigit(c) && c != '-'
    ensures c !in IntToString(n)
  {
    var s := IntToString(n);
    forall i | 0 <= i < |s|
      ensures s[i] != c
    {
      if n < 0 && i > 0 {
        assert s[i] == s[1..][i - 1];
      }
    }
  }

  /** Reads an optionally negated run of digits; the inverse of `IntToString`. */
  function ReadInt(s: string): Option<int>
  {
    if |s| > 1 && s[0] == '-' && AllDigits(s[1..]) then Some(-(DigitsValue(s[1..]) as int))
    else if |s| > 0 && AllDigits(s) then Some(DigitsValue(s))
    else None
  }

  /** Writing an integer and reading it back gives the same integer. */
  lemma IntRoundTrip(n: int)
    ensures ReadInt(IntToString(n)) == Some(n)
  {
    var s := IntToString(n);
    if n < 0 {
      assert s[1..] == NatToString(-n);
    } else {
      assert !(|s| > 1 && s[0] == '-');
    }
  }

  /** The end of the run of digits that starts at `i`. */
  function DigitRunFrom(s: string, i: nat): (k: nat)
    requires i <= |s|
    ensures i <= k <= |s|
    ensures forall j :: i <= j < k ==> IsDigit(s[j])
    ensures k < |s| ==> !IsDigit(s[k])
    decreases |s| - i
  {
    if i < |s| && IsDigit(s[i]) then DigitRunFrom(s, i + 1) else i
  }

  /** The length of the run of digits at the start of `s`. */
  function DigitRun(s: string): (k: nat)
    ensures k <= |s| && AllDigits(s[..k])
    ensures k < |s| ==> !IsDigit(s[k])
  {
    var k := DigitRunFrom(s, 0);
    assert forall j :: 0 <= j < k ==> s[..k][j] == s[j];
    k
  }

  /** An unsigned decimal numeral as Python's `float` accepts it: digits, or digits with one
      decimal point and at least one digit on either side of it ("7", "7.", ".5", "7.25"). */
  ghost predicate IsUnsignedNumeral(s: string)
  {
    || (|s| > 0 && AllDigits(s))
    || (|s| > 1 && exists k :: 0 <= k < |s| && s[k] == '.' && AllDigits(s[..k]) && AllDigits(s[k + 1..]))
  }

  /** The value of an unsigned decimal numeral, or `None` when `s` is not one. */
  function ParseUnsigned(s: string): Option<real>
  {
    var k := DigitRun(s);
    if k == |s| then
      if k > 0 then Some(DigitsValue(s) as real) else None
    else if s[k] == '.' && AllDigits(s[k + 1..]) && |s| > 1 then
      Some(NumeralValue(s[..k], s[k + 1..]))
    else None
  }

  /** A digit run that stops at a non-digit is the one `DigitRun` measures. */
  lemma DigitRunAt(s: string, j: nat)
    requires j < |s| && AllDigits(s[..j]) && !IsDigit(s[j])
    ensures DigitRun(s) == j
  {
  }

  /** `ParseUnsigned` accepts exactly the unsigned numerals. */
  lemma ParseUnsignedAccepts(s: string)
    ensures ParseUnsigned(s).Some? <==> IsUnsignedNumeral(s)
  {
    var k := DigitRun(s);
    if ParseUnsigned(s).Some? && k < |s| {
      assert s[k] == '.' && AllDigits(s[..k]) && AllDigits(s[k + 1..]);
    }
    if IsUnsignedNumeral(s) && !(|s| > 0 && AllDigits(s)) {
      var j :| 0 <= j < |s| && s[j] == '.' && AllDigits(s[..j]) && AllDigits(s[j + 1..]);
      DigitRunAt(s, j);
    }
  }

  /** The value of a numeral with a decimal point: the whole part plus the fraction. */
  lemma ParseUnsignedPoint(whole: string, frac: string)
    requires AllDigits(whole) && AllDigits(frac) && |whole| + |frac| > 0
    ensures ParseUnsigned(whole + "." + frac) == Some(NumeralValue(whole, frac))
  {
    var s := whole + "." + frac;
    assert s[..|whole|] == whole;
    assert s[|whole| + 1..] == frac;
    DigitRunAt(s, |whole|);
  }

  /** The value of a numeral without a decimal point. */
  lemma ParseUnsignedWhole(whole: string)
    requires AllDigits(whole) && |whole| > 0
    ensures ParseUnsigned(whole) == Some(DigitsValue(whole) as real)
  {
  }

  /** Python's `float(s)` on text without surrounding white space: an optional sign
      followed by an unsigned numeral. */
  function ParseDecimal(s: string): Option<real>
  {
    if |s| > 0 && (s[0] == '+' || s[0] == '-') then
      match ParseUnsigned(s[1..])
      case None => None
      case Some(v) => Some(if s[0] == '-' then -v else v)
    else ParseUnsigned(s)
  }

  /** Python's `float(s)`: surrounding white space is ignored, then a signed numeral. */
  function PyFloat(s: string): (r: Option<real>)
    ensures r.Some? <==> IsSignedNumeral(Strip(s))
  {
    ParseDecimalAccepts(Strip(s));
    ParseDecimal(Strip(s))
  }

  /** A signed decimal numeral: an unsigned one, possibly after one `+` or `-`. */
  ghost predicate IsSignedNumeral(s: string)
  {
    || IsUnsignedNumeral(s)
    || (|s| > 0 && (s[0] == '+' || s[0] == '-') && IsUnsignedNumeral(s[1..]))
  }

  /** The signed reader accepts exactly the signed decimal numerals. */
  lemma ParseDecimalAccepts(t: string)
    ensures ParseDecimal(t).Some? <==> IsSignedNumeral(t)
  {
    ParseUnsignedAccepts(t);
    if |t| > 0 {
      ParseUnsignedAccepts(t[1..]);
      if t[0] == '+' || t[0] == '-' {
        assert !IsDigit(t[0]) && t[0] != '.';
      }
    }
  }

  /** `str(n)` of an integer is read back by `float` as the same value. */
  lemma ParseDecimalInt(n: int)
    ensures ParseDecimal(IntToString(n)) == Some(n as real)
  {
    var s := IntToString(n);
    if n < 0 {
      assert s[1..] == NatToString(-n);
      ParseUnsignedWhole(s[1..]);
    } else {
      ParseUnsignedWhole(s);
    }
  }

  /** Python's `int(x)` on a float: truncation toward zero. */
  function Trunc(x: real): (r: int)
    ensures x >= 0.0 ==> r >= 0 && r as real <= x < r as real + 1.0
    ensures x < 0.0 ==> r <= 0 && r as real - 1.0 < x <= r as real
  {
    if x >= 0.0 then x.Floor else -((-x).Floor)
  }
}
