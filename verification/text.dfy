/** Python `str` operations the script relies on, over `string` (a `seq<char>`). */
module Text {
  import opened Wrappers

  /** Python's `str.isspace()`, the characters `strip()` removes when given no argument:
      tab to carriage return, the separators U+001C to U+001F, space, U+0085, U+00A0,
      U+1680, U+2000 to U+200A, U+2028, U+2029, U+202F, U+205F and U+3000. */
  predicate IsSpace(c: char)
  {
    if c <= ' ' then '\t' <= c <= '\r' || '\U{001C}' <= c
    else if c < '\U{0085}' then false
    else
      || c == '\U{0085}' || c == '\U{00A0}' || c == '\U{1680}'
      || ('\U{2000}' <= c <= '\U{200A}')
      || c == '\U{2028}' || c == '\U{2029}' || c == '\U{202F}' || c == '\U{205F}' || c == '\U{3000}'
  }

  /** The end of the run of white space that starts at `i`. */
  function SpaceRunFrom(s: string, i: nat): (k: nat)
    requires i <= |s|
    ensures i <= k <= |s|
    ensures forall j :: i <= j < k ==> IsSpace(s[j])
    ensures k < |s| ==> !IsSpace(s[k])
    decreases |s| - i
  {
    if i < |s| && IsSpace(s[i]) then SpaceRunFrom(s, i + 1) else i
  }

  /** The start of the run of white space that ends just before `j`. */
  function SpaceRunUntil(s: string, j: nat): (k: nat)
    requires j <= |s|
    ensures k <= j
    ensures forall i :: k <= i < j ==> IsSpace(s[i])
    ensures k > 0 ==> !IsSpace(s[k - 1])
  {
    if j > 0 && IsSpace(s[j - 1]) then SpaceRunUntil(s, j - 1) else j
  }

  /** `s.strip()`: `s` without its leading and trailing white space, so the result neither
      starts nor ends with white space, and is empty when `s` is all white space. */
  function Strip(s: string): (r: string)
    ensures |r| <= |s|
    ensures r == [] || (!IsSpace(r[0]) && !IsSpace(r[|r| - 1]))
    ensures var lo := SpaceRunFrom(s, 0);
      && lo + |r| <= |s| && r == s[lo..lo + |r|]
      && (forall i :: lo + |r| <= i < |s| ==> IsSpace(s[i]))
  {
    var lo := SpaceRunFrom(s, 0);
    if lo == |s| then
      assert s[lo..lo] == [];
      []
    else
      var hi := SpaceRunUntil(s, |s|);
      s[lo..hi]
  }

  /** What `strip()` keeps is a slice of its input, so every kept character occurs in it. */
  lemma StripKeeps(s: string)
    ensures forall i :: 0 <= i < |Strip(s)| ==> Strip(s)[i] in s
  {
    var r := Strip(s);
    var lo := SpaceRunFrom(s, 0);
    forall i | 0 <= i < |r|
      ensures r[i] in s
    {
      assert r[i] == s[lo + i];
    }
  }

  /** A string whose two ends are not white space is left alone by `strip()`. */
  lemma StripUnpadded(s: string)
    requires s == [] || (!IsSpace(s[0]) && !IsSpace(s[|s| - 1]))
    ensures Strip(s) == s
  {
    if s != [] {
      assert SpaceRunFrom(s, 0) == 0;
      assert SpaceRunUntil(s, |s|) == |s|;
      assert s[0..|s|] == s;
    }
  }

  /** Trailing white space after a string with unpadded ends is exactly what `strip()` removes. */
  lemma StripTrailingSpace(s: string, pad: string)
    requires s != [] && !IsSpace(s[0]) && !IsSpace(s[|s| - 1])
    requires forall i :: 0 <= i < |pad| ==> IsSpace(pad[i])
    ensures Strip(s + pad) == s
  {
    var u := s + pad;
    assert u[0] == s[0];
    assert SpaceRunFrom(u, 0) == 0;
    SpaceRunOver(u, |s|);
    assert u[0..|s|] == s;
  }

  /** White space on both sides of a string with unpadded ends is exactly what `strip()`
      removes. */
  lemma StripPadding(lead: string, s: string, trail: string)
    requires s != [] && !IsSpace(s[0]) && !IsSpace(s[|s| - 1])
    requires forall i :: 0 <= i < |lead| ==> IsSpace(lead[i])
    requires forall i :: 0 <= i < |trail| ==> IsSpace(trail[i])
    ensures Strip(lead + s + trail) == s
  {
    var u := lead + s + trail;
    assert u[|lead|] == s[0];
    SpaceRunFromOver(u, |lead|, 0);
    assert u[|lead| + |s| - 1] == s[|s| - 1];
    assert forall i :: |lead| + |s| <= i < |u| ==> u[i] == trail[i - |lead| - |s|];
    SpaceRunOver(u, |lead| + |s|);
    assert u[|lead|..|lead| + |s|] == s;
  }

  /** Counting forward over leading white space stops at the first non-space character. */
  lemma {:induction false} SpaceRunFromOver(u: string, n: nat, i: nat)
    requires i <= n < |u| && !IsSpace(u[n])
    requires forall j :: i <= j < n ==> IsSpace(u[j])
    ensures SpaceRunFrom(u, i) == n
    decreases n - i
  {
    if i < n {
      SpaceRunFromOver(u, n, i + 1);
    }
  }

  /** Counting back over trailing white space stops at the last non-space character. */
  lemma {:induction false} SpaceRunOver(u: string, n: nat)
    requires 0 < n <= |u| && !IsSpace(u[n - 1])
    requires forall i :: n <= i < |u| ==> IsSpace(u[i])
    ensures SpaceRunUntil(u, |u|) == n
  {
    SpaceRunOverFrom(u, n, |u|);
  }

  lemma {:induction false} SpaceRunOverFrom(u: string, n: nat, j: nat)
    requires 0 < n <= j <= |u| && !IsSpace(u[n - 1])
    requires forall i :: n <= i < j ==> IsSpace(u[i])
    ensures SpaceRunUntil(u, j) == n
    decreases j
  {
    if j > n {
      SpaceRunOverFrom(u, n, j - 1);
    }
  }

  predicate IsAsciiLower(c: char)
  {
    'a' <= c <= 'z'
  }

  /** `str.upper()` on one character, for the ASCII letters. */
  function UpperChar(c: char): char
  {
    if IsAsciiLower(c) then (c as int - 32) as char else c
  }

  /** `str.upper()`: upper-cases every ASCII letter and keeps every other character. */
  function Upper(s: string): (r: string)
    ensures |r| == |s|
    ensures forall i :: 0 <= i < |s| ==> r[i] == UpperChar(s[i])
  {
    seq(|s|, i requires 0 <= i < |s| => UpperChar(s[i]))
  }

  /** A string without lower-case ASCII letters is its own upper-case form. */
  lemma UpperFixed(s: string)
    requires forall i :: 0 <= i < |s| ==> !IsAsciiLower(s[i])
    ensures Upper(s) == s
  {
  }

  /** Upper-casing twice is upper-casing once. */
  lemma UpperIdempotent(s: string)
    ensures Upper(Upper(s)) == Upper(s)
  {
  }

  /** Upper-casing neither creates nor removes white space, so it finds the same runs. */
  lemma {:induction false} SpaceRunFromUpper(s: string, i: nat)
    requires i <= |s|
    ensures SpaceRunFrom(Upper(s), i) == SpaceRunFrom(s, i)
    decreases |s| - i
  {
    if i < |s| {
      assert IsSpace(Upper(s)[i]) == IsSpace(s[i]);
      SpaceRunFromUpper(s, i + 1);
    }
  }

  lemma {:induction false} SpaceRunUntilUpper(s: string, j: nat)
    requires j <= |s|
    ensures SpaceRunUntil(Upper(s), j) == SpaceRunUntil(s, j)
  {
    if j > 0 {
      assert IsSpace(Upper(s)[j - 1]) == IsSpace(s[j - 1]);
      SpaceRunUntilUpper(s, j - 1);
    }
  }

  /** Upper-casing commutes with `strip()`. */
  lemma StripUpper(s: string)
    ensures Strip(Upper(s)) == Upper(Strip(s))
  {
    SpaceRunFromUpper(s, 0);
    SpaceRunUntilUpper(s, |s|);
    var lo := SpaceRunFrom(s, 0);
    var hi := SpaceRunUntil(s, |s|);
    if lo < |s| {
      UpperSlice(s, lo, hi);
    }
  }

  lemma UpperSlice(s: string, lo: nat, hi: nat)
    requires lo <= hi <= |s|
    ensures Upper(s)[lo..hi] == Upper(s[lo..hi])
  {
  }

  predicate StartsWith(s: string, prefix: string)
  {
    |prefix| <= |s| && s[..|prefix|] == prefix
  }

  predicate EndsWith(s: string, suffix: string)
  {
    |suffix| <= |s| && s[|s| - |suffix|..] == suffix
  }

  /** A concatenation starts with its first part, ends with its second, and drops back to
      the second after the first. */
  lemma AppendParts(a: string, b: string)
    ensures StartsWith(a + b, a) && EndsWith(a + b, b) && (a + b)[|a|..] == b
  {
    assert (a + b)[..|a|] == a;
  }

  /** Text in front keeps a suffix a suffix. */
  lemma EndsWithAppend(a: string, b: string, suffix: string)
    requires EndsWith(b, suffix)
    ensures EndsWith(a + b, suffix)
  {
    assert (a + b)[|a + b| - |suffix|..] == b[|b| - |suffix|..];
  }

  /** A prefix of a prefix is a prefix. */
  lemma StartsWithTrans(s: string, a: string, b: string)
    requires StartsWith(s, a) && StartsWith(a, b)
    ensures StartsWith(s, b)
  {
    assert s[..|b|] == s[..|a|][..|b|];
  }

  /** A suffix of a suffix is a suffix. */
  lemma EndsWithTrans(s: string, a: string, b: string)
    requires EndsWith(s, a) && EndsWith(a, b)
    ensures EndsWith(s, b)
  {
    assert s[|s| - |b|..] == s[|s| - |a|..][|a| - |b|..];
  }

  /** Text that differs from `prefix` at position `k` does not start with it. */
  lemma DiffersAt(prefix: string, s: string, k: nat)
    requires k < |prefix| && k < |s| && prefix[k] != s[k]
    ensures !StartsWith(s, prefix)
  {
  }

  /** Text that ends with a non-empty suffix ends with the suffix's last character. */
  lemma EndsWithLast(s: string, suffix: string)
    requires EndsWith(s, suffix) && suffix != []
    ensures s != [] && s[|s| - 1] == suffix[|suffix| - 1]
  {
    assert s[|s| - 1] == s[|s| - |suffix|..][|suffix| - 1];
  }

  /** `s[:n]`: the first `n` characters of `s`, or all of it when it is shorter. */
  function Take(s: string, n: nat): (r: string)
    ensures |r| <= n && r <= s
    ensures |s| <= n ==> r == s
    ensures n < |s| ==> |r| == n
  {
    if |s| <= n then s else s[..n]
  }

  /** The position of the first occurrence of `c` in `s`, as `str.find` reports it. */
  function IndexOf(s: string, c: char): (r: Option<nat>)
    ensures r.None? ==> c !in s
    ensures r.Some? ==> r.value < |s| && s[r.value] == c && c !in s[..r.value]
  {
    if s == [] then None
    else if s[0] == c then Some(0)
    else match IndexOf(s[1..], c)
      case None => None
      case Some(i) => Some(i + 1)
  }

  /** The first `c` in `a + [c] + t` is the one after `a` when `a` holds none. */
  lemma {:induction false} IndexOfFirst(a: string, c: char, t: string)
    requires c !in a
    ensures IndexOf(a + [c] + t, c) == Some(|a|)
    decreases |a|
  {
    if a != [] {
      assert (a + [c] + t)[1..] == a[1..] + [c] + t;
      assert c !in a[1..];
      IndexOfFirst(a[1..], c, t);
    }
  }

  /** `sep.join(parts)`. */
  function Join(parts: seq<string>, sep: char): string
  {
    if parts == [] then []
    else if |parts| == 1 then parts[0]
    else parts[0] + [sep] + Join(parts[1..], sep)
  }

  /** `s.split(sep)` for a one-character separator: the pieces between separators,
      one more piece than there are separators, so never an empty list. */
  function Split(s: string, sep: char): (r: seq<string>)
    ensures |r| >= 1
    ensures forall i :: 0 <= i < |r| ==> sep !in r[i]
    ensures Join(r, sep) == s
    decreases |s|
  {
    match IndexOf(s, sep)
    case None => [s]
    case Some(i) =>
      var rest := Split(s[i + 1..], sep);
      assert s == s[..i] + [sep] + s[i + 1..];
      [s[..i]] + rest
  }

  /** Splitting a joined list gives the list back when no piece holds the separator. */
  lemma {:induction false} SplitJoin(parts: seq<string>, sep: char)
    requires |parts| >= 1
    requires forall i :: 0 <= i < |parts| ==> sep !in parts[i]
    ensures Split(Join(parts, sep), sep) == parts
    decreases |parts|
  {
    if |parts| == 1 {
      assert IndexOf(parts[0], sep).None?;
    } else {
      var s := Join(parts, sep);
      var tail := Join(parts[1..], sep);
      assert s == parts[0] + [sep] + tail;
      assert sep !in parts[0];
      assert s[|parts[0]|] == sep;
      assert sep !in s[..|parts[0]|] by { assert s[..|parts[0]|] == parts[0]; }
      assert IndexOf(s, sep) == Some(|parts[0]|);
      assert s[..|parts[0]|] == parts[0];
      assert s[|parts[0]| + 1..] == tail;
      SplitJoin(parts[1..], sep);
      assert parts == [parts[0]] + parts[1..];
    }
  }
}
