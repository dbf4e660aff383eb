/** The pure parts of `monitor_command_with_cpu`: reading the sampler's hand-off lines, the
    command that stops it, the two awk reductions of the sample log, the Python-side fallbacks
    when their output does not parse, and the `<minutes>分<seconds>秒` elapsed-time text. */
module Monitor {
  import opened Wrappers
  import opened Text
  import opened Numerals

  /** The log path used when the sampler reports none. */
  const DefaultLogFile: string := "/tmp/cpu_monitor.log"

  /** What the sampler start-up script reports: its process id and its log path. */
  datatype Handoff = Handoff(pid: string, logFile: string)

  /** Reads the start-up script's output: the first line of the stripped output is the process
      id, the second (when there is one) the log path. */
  function ParseHandoff(output: string): (r: Handoff)
    ensures '\n' !in r.pid
    ensures r.logFile == DefaultLogFile || '\n' !in r.logFile
    ensures Strip(output) == [] ==> r == Handoff("", DefaultLogFile)
  {
    var lines := Split(Strip(output), '\n');
    Handoff(lines[0], if |lines| > 1 then lines[1] else DefaultLogFile)
  }

  /** Two lines joined by a newline split back into those two lines. */
  lemma SplitTwoLines(first: string, second: string)
    requires '\n' !in first && '\n' !in second
    ensures Split(first + "\n" + second, '\n') == [first, second]
  {
    assert Join([first, second], '\n') == first + "\n" + second by {
      assert [first, second][1..] == [second];
    }
    SplitJoin([first, second], '\n');
  }

  /** The script echoes the process id and the log path, each on its own line; both are read
      back exactly when neither holds a newline and the output does not begin or end with
      white space. */
  lemma HandoffRoundTrip(pid: string, logFile: string)
    requires '\n' !in pid && '\n' !in logFile
    requires pid != [] && !IsSpace(pid[0])
    requires logFile != [] && !IsSpace(logFile[|logFile| - 1])
    ensures ParseHandoff(pid + "\n" + logFile + "\n") == Handoff(pid, logFile)
  {
    var body := pid + "\n" + logFile;
    assert body[0] == pid[0];
    assert body[|body| - 1] == logFile[|logFile| - 1];
    StripTrailingSpace(body, "\n");
    SplitTwoLines(pid, logFile);
  }

  /** Output with only a process-id line leaves the default log path. */
  lemma HandoffWithoutLog(pid: string)
    requires '\n' !in pid
    requires pid != [] && !IsSpace(pid[0]) && !IsSpace(pid[|pid| - 1])
    ensures ParseHandoff(pid + "\n") == Handoff(pid, DefaultLogFile)
  {
    StripTrailingSpace(pid, "\n");
    assert IndexOf(pid, '\n').None?;
  }

  /** The command that stops the sampler, issued only when a process id was read. */
  function StopCommand(pid: string): (r: Option<string>)
    ensures r.Some? <==> pid != ""
    ensures r.Some? ==> StartsWith(r.value, "kill " + pid)
  {
    if pid != "" then
      var kill := "kill " + pid;
      AppendParts(kill, " 2>/dev/null; wait " + pid + " 2>/dev/null");
      Some(kill + (" 2>/dev/null; wait " + pid + " 2>/dev/null"))
    else None
  }

  /** The sum of the samples, accumulated front to back. */
  function Sum(samples: seq<real>): real
  {
    if samples == [] then 0.0 else Sum(samples[..|samples| - 1]) + samples[|samples| - 1]
  }

  /** The arithmetic mean, and 0 for an empty log. */
  function Mean(samples: seq<real>): real
  {
    if samples == [] then 0.0 else Sum(samples) / (|samples| as real)
  }

  function MaxReal(a: real, b: real): real
  {
    if a >= b then a else b
  }

  function MinReal(a: real, b: real): real
  {
    if a <= b then a else b
  }

  /** The largest sample: one of the samples, and no sample exceeds it. */
  function Largest(samples: seq<real>): (r: real)
    requires samples != []
    ensures r in samples
    ensures forall i :: 0 <= i < |samples| ==> samples[i] <= r
  {
    if |samples| == 1 then samples[0]
    else
      var front := samples[..|samples| - 1];
      assert forall i :: 0 <= i < |front| ==> front[i] == samples[i];
      MaxReal(Largest(front), samples[|samples| - 1])
  }

  /** The smallest sample: one of the samples, and no sample is below it. */
  function Smallest(samples: seq<real>): (r: real)
    requires samples != []
    ensures r in samples
    ensures forall i :: 0 <= i < |samples| ==> r <= samples[i]
  {
    if |samples| == 1 then samples[0]
    else
      var front := samples[..|samples| - 1];
      assert forall i :: 0 <= i < |front| ==> front[i] == samples[i];
      MinReal(Smallest(front), samples[|samples| - 1])
  }

  /** The peak as the awk program reports it: the largest sample, and 0 for an empty log. */
  function Peak(samples: seq<real>): real
  {
    if samples == [] then 0.0 else Largest(samples)
  }

  /** The average awk program, `{sum+=$1; count++} END {if(count>0) print sum/count; else
      print 0}`, over the sample of each log line. */
  method AwkAverage(samples: seq<real>) returns (average: real)
    ensures average == Mean(samples)
  {
    var sum := 0.0;
    var count := 0;
    var i := 0;
    while i < |samples|
      invariant 0 <= i <= |samples|
      invariant count == i
      invariant sum == Sum(samples[..i])
    {
      assert samples[..i + 1][..i] == samples[..i];
      sum := sum + samples[i];
      count := count + 1;
      i := i + 1;
    }
    assert samples[..i] == samples;
    if count > 0 {
      average := sum / count as real;
    } else {
      average := 0.0;
    }
  }

  /** The peak awk program, `{if($1>max || max=="") max=$1} END {print max+0}`: the first
      sample sets the unset maximum, a larger one replaces it, and an unset maximum prints
      as 0. */
  method AwkPeak(samples: seq<real>) returns (peak: real)
    ensures peak == Peak(samples)
    ensures samples != [] ==> peak in samples && forall i :: 0 <= i < |samples| ==> samples[i] <= peak
  {
    var max: Option<real> := None;
    var i := 0;
    while i < |samples|
      invariant 0 <= i <= |samples|
      invariant max.None? <==> i == 0
      invariant i > 0 ==> max == Some(Largest(samples[..i]))
    {
      assert samples[..i + 1][..i] == samples[..i];
      if max.None? || samples[i] > max.value {
        max := Some(samples[i]);
      }
      i := i + 1;
    }
    assert samples[..i] == samples;
    peak := max.GetOr(0.0);
  }

  /** The sum of the samples lies between their count times the smallest and their count
      times the largest. */
  lemma {:induction false} SumBetween(samples: seq<real>, low: real, high: real)
    requires forall i :: 0 <= i < |samples| ==> low <= samples[i] <= high
    ensures (|samples| as real) * low <= Sum(samples) <= (|samples| as real) * high
    decreases |samples|
  {
    if samples != [] {
      var front := samples[..|samples| - 1];
      assert forall i :: 0 <= i < |front| ==> front[i] == samples[i];
      SumBetween(front, low, high);
      var k := |front| as real;
      var last := samples[|samples| - 1];
      assert Sum(samples) == Sum(front) + last;
      assert low <= last <= high;
      assert |samples| as real == k + 1.0;
      assert (|samples| as real) * low == k * low + low;
      assert (|samples| as real) * high == k * high + high;
    }
  }

  /** A quotient by a positive count lies between the bounds the count times which bound the
      dividend. */
  lemma QuotientBetween(sum: real, n: real, low: real, high: real)
    requires n > 0.0 && n * low <= sum <= n * high
    ensures low <= sum / n <= high
  {
    assert (sum / n) * n == sum;
  }

  /** For a non-empty log the average lies between the smallest sample and the peak. */
  lemma MeanBetween(samples: seq<real>)
    requires samples != []
    ensures Smallest(samples) <= Mean(samples) <= Peak(samples)
  {
    MeanWithin(samples, Smallest(samples), Largest(samples));
  }

  /** The mean of a non-empty log lies within any bounds on its samples. */
  lemma MeanWithin(samples: seq<real>, low: real, high: real)
    requires samples != []
    requires forall i :: 0 <= i < |samples| ==> low <= samples[i] <= high
    ensures low <= Mean(samples) <= high
  {
    SumBetween(samples, low, high);
    QuotientBetween(Sum(samples), |samples| as real, low, high);
  }

  /** `float(output.strip())`, or `fallback` when that raises: `get_cpu_usage` falls back to
      0, the average CPU to a fresh probe and the peak CPU to the average. */
  function ReadOr(output: string, fallback: real): (r: real)
    ensures IsSignedNumeral(Strip(output)) ==> PyFloat(output) == Some(r)
    ensures !IsSignedNumeral(Strip(output)) ==> r == fallback
  {
    PyFloat(output).GetOr(fallback)
  }

  /** A signed decimal numeral with a point, padded with white space, is read as its value
      whatever the fallback. */
  lemma ReadOrNumeral(lead: string, sign: string, whole: string, frac: string, trail: string, fallback: real)
    requires forall i :: 0 <= i < |lead| ==> IsSpace(lead[i])
    requires forall i :: 0 <= i < |trail| ==> IsSpace(trail[i])
    requires sign == "" || sign == "+" || sign == "-"
    requires AllDigits(whole) && AllDigits(frac) && |whole| + |frac| > 0
    ensures var v := NumeralValue(whole, frac);
      ReadOr(lead + sign + whole + "." + frac + trail, fallback) == if sign == "-" then -v else v
  {
    var numeral := whole + "." + frac;
    var body := sign + numeral;
    var text := lead + sign + whole + "." + frac + trail;
    var v := NumeralValue(whole, frac);
    assert numeral[|whole|] == '.';
    assert numeral[0] == '.' || IsDigit(numeral[0]);
    assert numeral[|numeral| - 1] == '.' || IsDigit(numeral[|numeral| - 1]);
    assert body[|body| - 1] == numeral[|numeral| - 1];
    assert body[0] == if sign == "" then numeral[0] else sign[0];
    assert text == lead + body + trail;
    StripPadding(lead, body, trail);
    ParseUnsignedPoint(whole, frac);
    SignedRead(sign, numeral, v);
    assert PyFloat(text) == Some(if sign == "-" then -v else v);
  }

  /** An optional sign before an unsigned numeral negates its value or leaves it. */
  lemma SignedRead(sign: string, numeral: string, v: real)
    requires sign == "" || sign == "+" || sign == "-"
    requires numeral != [] && (numeral[0] == '.' || IsDigit(numeral[0]))
    requires ParseUnsigned(numeral) == Some(v)
    ensures ParseDecimal(sign + numeral) == Some(if sign == "-" then -v else v)
  {
    if sign == "" {
      assert sign + numeral == numeral;
    } else {
      assert (sign + numeral)[1..] == numeral;
    }
  }

  /** A whole number printed on its own line is read exactly, so no fallback is taken. */
  lemma WholeOutputRead(n: int)
    ensures PyFloat(IntToString(n) + "\n") == Some(n as real)
  {
    var s := IntToString(n);
    assert s[0] == '-' || IsDigit(s[0]);
    assert IsDigit(s[|s| - 1]) by {
      if n < 0 {
        assert s[|s| - 1] == s[1..][|s| - 2];
      }
    }
    StripTrailingSpace(s, "\n");
    ParseDecimalInt(n);
  }

  /** Empty output (a failed remote command) always takes the fallback. */
  lemma EmptyOutputFallsBack(fallback: real)
    ensures ReadOr("", fallback) == fallback
  {
    assert Strip("") == [];
  }

  /** Python's `x // d` on a float and a positive divisor: the floor of the quotient. */
  function FloorDiv(x: real, d: real): real
    requires d > 0.0
  {
    (x / d).Floor as real
  }

  /** Python's `x % d` on a float and a positive divisor: the remainder of `FloorDiv`, with the
      divisor's sign. */
  function FloorMod(x: real, d: real): real
    requires d > 0.0
  {
    x - d * FloorDiv(x, d)
  }

  /** The whole minutes and the remaining whole seconds of an elapsed time, as
      `int(t // 60)` and `int(t % 60)` compute them. */
  function ElapsedParts(elapsed: real): (r: (int, int))
    ensures r.0 == elapsed.Floor / 60 && r.1 == elapsed.Floor % 60
    ensures 0 <= r.1 < 60 && 60 * r.0 + r.1 == elapsed.Floor
  {
    QuotientFloor(elapsed);
    (Trunc(FloorDiv(elapsed, 60.0)), Trunc(FloorMod(elapsed, 60.0)))
  }

  /** The floor of `t / 60` is the whole seconds of `t` divided by 60, and the remainder of
      `t % 60` rounds down to their remainder. */
  lemma QuotientFloor(t: real)
    ensures (t / 60.0).Floor == t.Floor / 60
    ensures FloorMod(t, 60.0).Floor == t.Floor % 60
  {
    var n := t.Floor;
    var q := n / 60;
    var r := n % 60;
    assert n == 60 * q + r && 0 <= r < 60;
    assert (q as real) * 60.0 <= t < (q as real) * 60.0 + 60.0;
    assert q as real <= t / 60.0 < q as real + 1.0;
    assert (t / 60.0).Floor == q;
    assert FloorMod(t, 60.0) == t - 60.0 * (q as real);
    assert (r as real) <= t - 60.0 * (q as real) < (r as real) + 1.0;
  }

  const MinuteSign: char := '\U{5206}'
  const SecondSign: char := '\U{79D2}'

  /** `f"{minutes}分{seconds}秒"` for an elapsed time. */
  function FormatElapsed(elapsed: real): (r: string)
    ensures |r| >= 4 && r[|r| - 1] == SecondSign
  {
    var (minutes, seconds) := ElapsedParts(elapsed);
    IntToString(minutes) + [MinuteSign] + (IntToString(seconds) + [SecondSign])
  }

  /** Reads `<minutes>分<seconds>秒` back into its two numbers. */
  function ReadElapsed(text: string): Option<(int, int)>
  {
    match IndexOf(text, MinuteSign)
    case None => None
    case Some(i) =>
      var rest := text[i + 1..];
      if rest != [] && rest[|rest| - 1] == SecondSign then
        match (ReadInt(text[..i]), ReadInt(rest[..|rest| - 1]))
        case (Some(minutes), Some(seconds)) => Some((minutes, seconds))
        case _ => None
      else None
  }

  /** The formatted elapsed time reads back as its whole minutes and remaining seconds. */
  lemma ElapsedRoundTrip(elapsed: real)
    ensures ReadElapsed(FormatElapsed(elapsed)) == Some((elapsed.Floor / 60, elapsed.Floor % 60))
  {
    var (minutes, seconds) := ElapsedParts(elapsed);
    var m := IntToString(minutes);
    var tail := IntToString(seconds) + [SecondSign];
    var text := m + [MinuteSign] + tail;
    assert FormatElapsed(elapsed) == text;
    IntTextExcludes(minutes, MinuteSign);
    IndexOfFirst(m, MinuteSign, tail);
    assert text[..|m|] == m;
    assert text[|m| + 1..] == tail;
    assert tail[..|tail| - 1] == IntToString(seconds);
    IntRoundTrip(minutes);
    IntRoundTrip(seconds);
  }

  /** Two elapsed times are formatted alike exactly when they have the same whole seconds. */
  lemma FormatElapsedWholeSeconds(t1: real, t2: real)
    ensures FormatElapsed(t1) == FormatElapsed(t2) <==> t1.Floor == t2.Floor
  {
    if FormatElapsed(t1) == FormatElapsed(t2) {
      ElapsedRoundTrip(t1);
      ElapsedRoundTrip(t2);
      var _ := ElapsedParts(t1);
      var _ := ElapsedParts(t2);
    }
  }
}
