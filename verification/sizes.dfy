/** Target-size labels and the benchmark scale factor derived from them
    (`parse_size`, `calculate_scale_factor` and the list of test configurations in `main`). */
module Sizes {
  import opened Wrappers
  import opened Text
  import opened Numerals

  /** `float()` raised `ValueError` on the numeric part of a size label. */
  datatype SizeError = NotANumber(text: string)

  /** The unit a size label is written in; a label without a suffix is read in megabytes. */
  datatype Unit = Gigabytes | Megabytes | Kilobytes

  function Suffix(u: Unit): string
  {
    match u
    case Gigabytes => "GB"
    case Megabytes => "MB"
    case Kilobytes => "KB"
  }

  /** An amount written in unit `u`, in megabytes (1 GB = 1024 MB, 1 MB = 1024 KB). */
  function InMegabytes(u: Unit, amount: real): real
  {
    match u
    case Gigabytes => amount * 1024.0
    case Megabytes => amount
    case Kilobytes => amount / 1024.0
  }

  /** Splits an upper-cased label into its numeric part and unit, trying the suffixes
      in the order GB, MB, KB; with none of them the whole label is the number. */
  function SplitUnit(s: string): (r: (string, Unit))
    ensures r.0 + (if EndsWith(s, Suffix(r.1)) then Suffix(r.1) else "") == s
    ensures r.0 <= s
  {
    if EndsWith(s, "GB") then (s[..|s| - 2], Gigabytes)
    else if EndsWith(s, "MB") then (s[..|s| - 2], Megabytes)
    else if EndsWith(s, "KB") then (s[..|s| - 2], Kilobytes)
    else (s, Megabytes)
  }

  /** `parse_size`: a label such as "1GB", "500mb" or "250" as whole megabytes. The label is
      stripped and upper-cased, its number read as by `float`, scaled to megabytes and
      truncated toward zero by `int`. */
  function ParseSize(sizeText: string): (r: Result<int, SizeError>)
    ensures r.Err? ==> r.error.text <= Upper(Strip(sizeText)) && !IsSignedNumeral(Strip(r.error.text))
  {
    var parts := SplitUnit(Upper(Strip(sizeText)));
    Measure(parts.0, parts.1)
  }

  /** The numeric part `body` of a label in unit `u`, as whole megabytes. */
  function Measure(body: string, u: Unit): Result<int, SizeError>
  {
    match PyFloat(body)
    case None => Err(NotANumber(body))
    case Some(v) => Ok(Trunc(InMegabytes(u, v)))
  }

  function Max(a: int, b: int): int
  {
    if a < b then b else a
  }

  /** `calculate_scale_factor`: one scale-factor unit per 15 MB of data, truncated, and never
      below 1. */
  function ScaleFactor(targetMb: int): (r: int)
    ensures r >= 1
    ensures targetMb >= 0 ==> r == Max(1, targetMb / 15)
    ensures targetMb < 30 ==> r == 1
    ensures targetMb >= 15 ==> 15 * r <= targetMb < 15 * (r + 1)
  {
    Max(1, Trunc(targetMb as real / 15.0))
  }

  /** More data never asks for a smaller scale factor. */
  lemma ScaleFactorMonotone(a: int, b: int)
    requires a <= b
    ensures ScaleFactor(a) <= ScaleFactor(b)
  {
  }

  lemma ScaleFactorExamples()
    ensures ScaleFactor(1024) == 68
    ensures ScaleFactor(15) == 1
    ensures ScaleFactor(1) == 1
    ensures ScaleFactor(3072) == 204
    ensures ScaleFactor(0) == 1 && ScaleFactor(-500) == 1
  {
  }

  /** Upper-casing and stripping leave a label alone when its number part has unpadded ends
      and no lower-case letters. */
  lemma CanonicalSuffixed(body: string, u: Unit)
    requires body != [] && !IsSpace(body[0]) && !IsSpace(body[|body| - 1])
    requires forall i :: 0 <= i < |body| ==> !IsAsciiLower(body[i])
    ensures Upper(Strip(body + Suffix(u))) == body + Suffix(u)
  {
    var s := body + Suffix(u);
    assert s[|s| - 1] == 'B';
    StripUnpadded(s);
    forall i | 0 <= i < |s|
      ensures !IsAsciiLower(s[i])
    {
      if i < |body| {
        assert s[i] == body[i];
      } else {
        assert s[i] == Suffix(u)[i - |body|];
        assert Suffix(u)[0] in "GMK" && Suffix(u)[1] == 'B';
      }
    }
    UpperFixed(s);
  }

  lemma SplitUnitSuffixed(body: string, u: Unit)
    ensures SplitUnit(body + Suffix(u)) == (body, u)
  {
    var s := body + Suffix(u);
    assert s[..|s| - 2] == body;
    assert s[|s| - 2..] == Suffix(u);
  }

  /** A label with an explicit suffix whose number needs no stripping or upper-casing
      is read as that number in that unit. */
  lemma ParseSizeSuffixed(body: string, u: Unit)
    requires body != [] && !IsSpace(body[0]) && !IsSpace(body[|body| - 1])
    requires forall i :: 0 <= i < |body| ==> !IsAsciiLower(body[i])
    ensures ParseSize(body + Suffix(u)) == Measure(body, u)
  {
    CanonicalSuffixed(body, u);
    SplitUnitSuffixed(body, u);
  }

  /** A numeric part that needs no stripping is read as written. */
  lemma MeasureUnpadded(body: string, u: Unit)
    requires body != [] && !IsSpace(body[0]) && !IsSpace(body[|body| - 1])
    ensures Measure(body, u) ==
      match ParseDecimal(body)
      case None => Err(NotANumber(body))
      case Some(v) => Ok(Trunc(InMegabytes(u, v)))
  {
    StripUnpadded(body);
  }

  /** A label without a suffix is read as megabytes. */
  lemma ParseSizeBare(body: string)
    requires body != [] && !IsSpace(body[0]) && !IsSpace(body[|body| - 1])
    requires forall i :: 0 <= i < |body| ==> !IsAsciiLower(body[i])
    requires body[|body| - 1] != 'B'
    ensures ParseSize(body) == Measure(body, Megabytes)
  {
    StripUnpadded(body);
    UpperFixed(body);
    assert Upper(Strip(body)) == body;
    assert SplitUnit(body) == (body, Megabytes);
  }

  /** The text of an integer needs no stripping or upper-casing, and does not end in 'B'. */
  lemma IntTextIsPlain(n: int)
    ensures var t := IntToString(n);
      && t != [] && !IsSpace(t[0]) && !IsSpace(t[|t| - 1]) && t[|t| - 1] != 'B'
      && forall i :: 0 <= i < |t| ==> !IsAsciiLower(t[i])
  {
    var t := IntToString(n);
    forall i | 0 <= i < |t|
      ensures IsDigit(t[i]) || t[i] == '-'
    {
      if n < 0 && i > 0 {
        assert t[i] == t[1..][i - 1];
      }
    }
  }

  /** `float(str(n))` is `n`: the number part of a label written from an integer. */
  lemma MeasureWhole(n: int, u: Unit)
    ensures Measure(IntToString(n), u) == Ok(Trunc(InMegabytes(u, n as real)))
  {
    IntTextIsPlain(n);
    StripUnpadded(IntToString(n));
    ParseDecimalInt(n);
  }

  /** The text of an integer, in unit `u`, is read as that integer in megabytes before truncation. */
  lemma ParseSizeWhole(n: int, u: Unit)
    ensures ParseSize(IntToString(n) + Suffix(u)) == Ok(Trunc(InMegabytes(u, n as real)))
  {
    IntTextIsPlain(n);
    ParseSizeSuffixed(IntToString(n), u);
    MeasureWhole(n, u);
  }

  /** `int` leaves a whole number alone. */
  lemma TruncWhole(n: int)
    ensures Trunc(n as real) == n
  {
  }

  /** "nMB" is read as n megabytes, for every integer n. */
  lemma ParseSizeWholeMegabytes(n: int)
    ensures ParseSize(IntToString(n) + "MB") == Ok(n)
  {
    ParseSizeWhole(n, Megabytes);
    TruncWhole(n);
  }

  /** The bare number "n" is read as n megabytes, for every integer n. */
  lemma ParseSizeWholeBare(n: int)
    ensures ParseSize(IntToString(n)) == Ok(n)
  {
    IntTextIsPlain(n);
    ParseSizeBare(IntToString(n));
    MeasureWhole(n, Megabytes);
    TruncWhole(n);
  }

  /** "nGB" is read as 1024 n megabytes. */
  lemma ParseSizeWholeGigabytes(n: int)
    ensures ParseSize(IntToString(n) + "GB") == Ok(1024 * n)
  {
    ParseSizeWhole(n, Gigabytes);
    assert InMegabytes(Gigabytes, n as real) == (1024 * n) as real;
    TruncWhole(1024 * n);
  }

  /** "nKB" is read as n div 1024 megabytes: anything under 1024 KB is 0 MB. */
  lemma ParseSizeWholeKilobytes(n: nat)
    ensures ParseSize(IntToString(n) + "KB") == Ok(n / 1024)
  {
    assert Suffix(Kilobytes) == "KB";
    ParseSizeWhole(n, Kilobytes);
    KilobytesInMegabytes(n);
    assert ParseSize(IntToString(n) + Suffix(Kilobytes)) == Ok(n / 1024);
  }

  lemma KilobytesInMegabytes(n: nat)
    ensures Trunc(InMegabytes(Kilobytes, n as real)) == n / 1024
  {
    TruncKilobytes(n);
  }

  /** Whole kilobytes truncate to whole megabytes as integer division by 1024. */
  lemma TruncKilobytes(n: nat)
    ensures Trunc(n as real / 1024.0) == n / 1024
  {
    var x := n as real / 1024.0;
    var r := Trunc(x);
    assert r as real <= x < r as real + 1.0;
    assert r as real * 1024.0 <= n as real;
    assert n as real < r as real * 1024.0 + 1024.0;
    assert r * 1024 <= n < r * 1024 + 1024;
  }

  lemma NumeralChars(d: string)
    requires IsUnsignedNumeral(d)
    ensures forall i :: 0 <= i < |d| ==> IsDigit(d[i]) || d[i] == '.'
  {
    if !(|d| > 0 && AllDigits(d)) {
      var k :| 0 <= k < |d| && d[k] == '.' && AllDigits(d[..k]) && AllDigits(d[k + 1..]);
      forall i | 0 <= i < |d|
        ensures IsDigit(d[i]) || d[i] == '.'
      {
        if i < k {
          assert d[i] == d[..k][i];
        } else if i > k {
          assert d[i] == d[k + 1..][i - k - 1];
        }
      }
    }
  }

  /** A numeral needs no stripping or upper-casing, has no sign and does not end in 'B'. */
  lemma NumeralIsPlain(d: string)
    requires IsUnsignedNumeral(d)
    ensures d != [] && !IsSpace(d[0]) && !IsSpace(d[|d| - 1]) && d[|d| - 1] != 'B'
    ensures d[0] != '+' && d[0] != '-'
    ensures forall i :: 0 <= i < |d| ==> !IsAsciiLower(d[i])
  {
    NumeralChars(d);
  }

  /** Every decimal numeral, with or without a KB/MB/GB suffix, is a valid label. */
  lemma ParseSizeAcceptsNumerals(d: string, u: Unit)
    requires IsUnsignedNumeral(d)
    ensures ParseSize(d + Suffix(u)).Ok?
    ensures ParseSize(d).Ok?
  {
    NumeralIsPlain(d);
    ParseUnsignedAccepts(d);
    assert ParseDecimal(d).Some?;
    ParseSizeSuffixed(d, u);
    MeasureUnpadded(d, u);
    ParseSizeBare(d);
    MeasureUnpadded(d, Megabytes);
  }

  lemma NumeralHasDigit(s: string)
    requires ParseDecimal(s).Some?
    ensures exists i :: 0 <= i < |s| && IsDigit(s[i])
  {
    var t := if |s| > 0 && (s[0] == '+' || s[0] == '-') then s[1..] else s;
    ParseUnsignedAccepts(t);
    var c: char;
    if |t| > 0 && AllDigits(t) {
      c := t[0];
    } else {
      var k :| 0 <= k < |t| && t[k] == '.' && AllDigits(t[..k]) && AllDigits(t[k + 1..]);
      c := if k > 0 then t[..k][0] else t[k + 1..][0];
    }
    assert IsDigit(c) && c in s;
  }

  /** A number part is read only if it holds a digit. */
  lemma MeasureNeedsDigit(body: string, u: Unit)
    ensures Measure(body, u).Ok? ==> exists i :: 0 <= i < |body| && IsDigit(body[i])
  {
    if Measure(body, u).Ok? {
      var t := Strip(body);
      StripKeeps(body);
      NumeralHasDigit(t);
      var i :| 0 <= i < |t| && IsDigit(t[i]);
      assert t[i] in body;
    }
  }

  /** A label is accepted only if it contains a digit: text such as "abcMB" or "GB" is an error. */
  lemma ParseSizeNeedsDigit(sizeText: string)
    ensures ParseSize(sizeText).Ok? ==> exists i :: 0 <= i < |sizeText| && IsDigit(sizeText[i])
  {
    var t := Strip(sizeText);
    var parts := SplitUnit(Upper(t));
    MeasureNeedsDigit(parts.0, parts.1);
    if Measure(parts.0, parts.1).Ok? {
      var j :| 0 <= j < |parts.0| && IsDigit(parts.0[j]);
      assert IsDigit(Upper(t)[j]);
      assert IsDigit(t[j]);
      StripKeeps(sizeText);
      assert t[j] in sizeText;
    }
  }

  /** Labels are case-insensitive: "500mb" and "500MB" are the same label. */
  lemma ParseSizeIgnoresCase(sizeText: string)
    ensures ParseSize(Upper(sizeText)) == ParseSize(sizeText)
  {
    StripUpper(sizeText);
    UpperIdempotent(Strip(sizeText));
  }

  /** White space around a label does not matter: " 1.5GB " is the label "1.5GB". */
  lemma ParseSizeStrips(sizeText: string)
    ensures ParseSize(Strip(sizeText)) == ParseSize(sizeText)
  {
    StripUnpadded(Strip(sizeText));
  }

  /** A decimal label "w.f" followed by a unit suffix is read as that fraction of the unit,
      truncated to whole megabytes: "1.5GB" is 1536 MB and "0.5KB" is 0 MB. */
  lemma ParseSizeDecimal(whole: string, frac: string, u: Unit)
    requires AllDigits(whole) && AllDigits(frac) && |whole| + |frac| > 0
    ensures ParseSize(whole + "." + frac + Suffix(u)) == Ok(Trunc(InMegabytes(u, NumeralValue(whole, frac))))
  {
    var body := whole + "." + frac;
    DecimalTextIsPlain(whole, frac);
    ParseSizeSuffixed(body, u);
    MeasureUnpadded(body, u);
  }

  /** The text "w.f" needs no stripping or upper-casing, and reads as its value. */
  lemma DecimalTextIsPlain(whole: string, frac: string)
    requires AllDigits(whole) && AllDigits(frac) && |whole| + |frac| > 0
    ensures var t := whole + "." + frac;
      && t != [] && !IsSpace(t[0]) && !IsSpace(t[|t| - 1])
      && (forall i :: 0 <= i < |t| ==> !IsAsciiLower(t[i]))
      && ParseDecimal(t) == Some(NumeralValue(whole, frac))
  {
    var t := whole + "." + frac;
    assert t[|whole|] == '.';
    forall i | 0 <= i < |t|
      ensures IsDigit(t[i]) || t[i] == '.'
    {
      if i < |whole| {
        assert t[i] == whole[i];
      } else if i > |whole| {
        assert t[i] == frac[i - |whole| - 1];
      }
    }
    ParseUnsignedPoint(whole, frac);
  }

  /** One benchmark configuration: the scale factor to fill with and the label it came from. */
  datatype TestConfig = TestConfig(scaleFactor: int, targetSize: string)

  /** The configurations used when no sizes are given. */
  const DefaultConfigs: seq<TestConfig> :=
    [TestConfig(68, "1GB"), TestConfig(205, "3GB"), TestConfig(341, "5GB"), TestConfig(614, "9GB")]

  /** The default table lists 1, 3, 5 and 9 GB (each read as 1024 MB per GB by
      `ParseSizeWholeGigabytes`). Its scale factors agree with `calculate_scale_factor` for
      1, 5 and 9 GB, but for 3 GB it holds 205 where 3072 MB gives 204. */
  lemma DefaultConfigsAgainstScaleFactor()
    ensures |DefaultConfigs| == 4
    ensures DefaultConfigs[0] == TestConfig(ScaleFactor(1024 * 1), IntToString(1) + "GB")
    ensures DefaultConfigs[1] == TestConfig(ScaleFactor(1024 * 3) + 1, IntToString(3) + "GB")
    ensures DefaultConfigs[2] == TestConfig(ScaleFactor(1024 * 5), IntToString(5) + "GB")
    ensures DefaultConfigs[3] == TestConfig(ScaleFactor(1024 * 9), IntToString(9) + "GB")
  {
  }

  /** The loop of `main` over the size labels: one configuration per label, in order, the
      scale factor computed from the megabytes `measure` reads from the label; the first label
      that cannot be read aborts the list with its error, every label before it being read. */
  function ConfigsFor(labels: seq<string>, measure: string -> Result<int, SizeError>): (r: Result<seq<TestConfig>, SizeError>)
    ensures r.Ok? <==> forall i :: 0 <= i < |labels| ==> measure(labels[i]).Ok?
    ensures r.Ok? ==> |r.value| == |labels|
    ensures r.Ok? ==> forall i :: 0 <= i < |labels| ==>
      r.value[i] == TestConfig(ScaleFactor(measure(labels[i]).value), labels[i])
    ensures r.Err? ==> exists i :: 0 <= i < |labels| && measure(labels[i]) == Err(r.error)
                                   && forall j :: 0 <= j < i ==> measure(labels[j]).Ok?
  {
    if labels == [] then Ok([])
    else match measure(labels[0])
      case Err(e) => Err(e)
      case Ok(mb) =>
        match ConfigsFor(labels[1..], measure)
        case Err(e) =>
          var k :| 0 <= k < |labels[1..]| && measure(labels[1..][k]) == Err(e)
            && forall j :: 0 <= j < k ==> measure(labels[1..][j]).Ok?;
          assert forall j :: 0 <= j < k + 1 ==> measure(labels[j]).Ok? by {
            forall j | 0 <= j < k + 1
              ensures measure(labels[j]).Ok?
            {
              if j > 0 {
                assert labels[j] == labels[1..][j - 1];
              }
            }
          }
          assert measure(labels[k + 1]) == Err(e);
          Err(e)
        case Ok(rest) => Ok([TestConfig(ScaleFactor(mb), labels[0])] + rest)
  }

  /** Each piece stripped of surrounding white space. */
  function StripAll(parts: seq<string>): (r: seq<string>)
    ensures |r| == |parts|
    ensures forall i :: 0 <= i < |parts| ==> r[i] == Strip(parts[i])
  {
    seq(|parts|, i requires 0 <= i < |parts| => Strip(parts[i]))
  }

  /** The labels of a comma-separated size list, each stripped of surrounding white space. */
  function SizeLabels(sizes: string): (r: seq<string>)
    ensures |r| == |Split(sizes, ',')| >= 1
    ensures forall i :: 0 <= i < |r| ==> r[i] == Strip(Split(sizes, ',')[i])
  {
    StripAll(Split(sizes, ','))
  }

  /** The test configurations: the defaults when no (or an empty) size list is given, otherwise
      one per label of the list, read by `parse_size`, the label kept as given. */
  function TestConfigs(sizes: Option<string>): (r: Result<seq<TestConfig>, SizeError>)
    ensures sizes.None? || sizes == Some("") ==> r == Ok(DefaultConfigs)
    ensures sizes.Some? && sizes.value != "" ==>
      var labels := SizeLabels(sizes.value);
      && (r.Ok? <==> forall i :: 0 <= i < |labels| ==> ParseSize(labels[i]).Ok?)
      && (r.Ok? ==> |r.value| == |labels| && forall i :: 0 <= i < |labels| ==>
            r.value[i] == TestConfig(ScaleFactor(ParseSize(labels[i]).value), labels[i]))
  {
    if sizes.None? || sizes.value == "" then Ok(DefaultConfigs)
    else ConfigsFor(SizeLabels(sizes.value), ParseSize)
  }
}
