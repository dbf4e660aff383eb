/** Running a command with root rights (`execute_sudo_command`): the sudo password is piped to
    `sudo -S` inside a single-quoted shell word, with every `'` in it rewritten as `'"'"'`.
    A reader for the quoted-word subset of the POSIX shell grammar shows that the shell hands
    `echo` the password exactly as its one argument. What `echo` then writes to `sudo -S` is
    not modelled. */
module ShellQuote {
  import opened Wrappers
  import opened Text

  /** The text that replaces one single quote inside a single-quoted word: close the quote,
      a double-quoted `'`, and reopen the quote. */
  const QuoteEscape: string := "'\"'\"'"

  /** The number of single quotes in `s`. */
  function Quotes(s: string): nat
  {
    if s == [] then 0 else (if s[0] == '\'' then 1 else 0) + Quotes(s[1..])
  }

  /** Quotes are counted piece by piece. */
  lemma {:induction false} QuotesAppend(a: string, b: string)
    ensures Quotes(a + b) == Quotes(a) + Quotes(b)
    decreases |a|
  {
    if a != [] {
      assert (a + b)[0] == a[0] && (a + b)[1..] == a[1..] + b;
      QuotesAppend(a[1..], b);
    } else {
      assert a + b == b;
    }
  }

  /** Text holds a quote exactly when its count is positive. */
  lemma {:induction false} QuotesPresent(s: string)
    ensures Quotes(s) > 0 <==> '\'' in s
    decreases |s|
  {
    if s != [] {
      QuotesPresent(s[1..]);
      assert s == [s[0]] + s[1..];
    }
  }

  /** The password with every `'` replaced by `QuoteEscape` and every other character kept:
      each quote grows into five characters, three of them quotes. */
  function Escape(password: string): (r: string)
    ensures |r| == |password| + 4 * Quotes(password)
    ensures Quotes(r) == 3 * Quotes(password)
  {
    if password == [] then []
    else
      var head := if password[0] == '\'' then QuoteEscape else [password[0]];
      assert Quotes(QuoteEscape) == 3 by {
        assert QuoteEscape[1..][1..][1..][1..][1..] == [];
      }
      QuotesAppend(head, Escape(password[1..]));
      head + Escape(password[1..])
  }

  /** A quote appears in the escaped text exactly when the password has one. */
  lemma EscapeKeepsQuotes(password: string)
    ensures '\'' in Escape(password) <==> '\'' in password
  {
    QuotesPresent(password);
    QuotesPresent(Escape(password));
  }

  /** `execute_sudo_command`: with a non-empty password, echo it quoted into `sudo -S`; with
      none (or an empty one), run `sudo` directly, relying on a password-less sudo rule. */
  function SudoWrap(password: Option<string>, command: string): (r: string)
    ensures password.Some? && password.value != "" ==>
      StartsWith(r, "echo '") && EndsWith(r, "' | sudo -S " + command)
    ensures password.None? || password.value == "" ==> r == "sudo " + command
  {
    if password.Some? && password.value != "" then
      "echo '" + Escape(password.value) + "' | sudo -S " + command
    else "sudo " + command
  }

  /** Either way the command is sent whole, at the end of a longer line. */
  lemma SudoWrapEnds(password: Option<string>, command: string)
    ensures EndsWith(SudoWrap(password, command), command)
    ensures |SudoWrap(password, command)| > |command|
  {
    if password.Some? && password.value != "" {
      var pipe := "' | sudo -S " + command;
      AppendParts("' | sudo -S ", command);
      EndsWithTrans(SudoWrap(password, command), pipe, command);
    } else {
      AppendParts("sudo ", command);
    }
  }

  /** Characters that end an unquoted word: blanks, newline and the control operators. */
  predicate IsWordEnd(c: char)
  {
    c == ' ' || c == '\t' || c == '\n' || c == '|' || c == '&' || c == ';' || c == '<' || c == '>'
    || c == '(' || c == ')'
  }

  /** Characters the shell would expand or treat specially outside quotes; the reader below
      does not interpret them and rejects the word instead. */
  predicate IsExpanding(c: char)
  {
    c == '\\' || c == '$' || c == '`' || c == '*' || c == '?' || c == '[' || c == '~' || c == '#'
  }

  /** Characters with a meaning inside double quotes. */
  predicate IsDoubleQuoteSpecial(c: char)
  {
    c == '\\' || c == '$' || c == '`'
  }

  /** Where the shell's reader is inside a word: outside quotes, inside single quotes, or
      inside double quotes. */
  datatype QuoteMode = Unquoted | InSingle | InDouble

  /** Reads one shell word at the start of `s`, one character at a time, as the POSIX shell's
      token recognition and quote removal do for the subset used here: plain characters,
      single-quoted parts (taken literally) and double-quoted parts without `\`, `$` or
      backquote, up to the first unquoted word end. Gives the word after quote removal and the
      text after it, or `None` for an unterminated quote or a construct outside this subset. */
  function ReadWord(s: string, mode: QuoteMode): Option<(string, string)>
    decreases |s|
  {
    if s == [] then (if mode == Unquoted then Some(([], s)) else None)
    else
      match mode
      case Unquoted =>
        if IsWordEnd(s[0]) then Some(([], s))
        else if s[0] == '\'' then ReadWord(s[1..], InSingle)
        else if s[0] == '"' then ReadWord(s[1..], InDouble)
        else if IsExpanding(s[0]) then None
        else Prepend(s[0], ReadWord(s[1..], Unquoted))
      case InSingle =>
        if s[0] == '\'' then ReadWord(s[1..], Unquoted)
        else Prepend(s[0], ReadWord(s[1..], InSingle))
      case InDouble =>
        if s[0] == '"' then ReadWord(s[1..], Unquoted)
        else if IsDoubleQuoteSpecial(s[0]) then None
        else Prepend(s[0], ReadWord(s[1..], InDouble))
  }

  /** What follows a word is the tail of the input, and it is empty or starts with a word end. */
  lemma {:induction false} ReadWordRest(s: string, mode: QuoteMode)
    ensures var r := ReadWord(s, mode);
      r.Some? ==> |r.value.1| <= |s| && r.value.1 == s[|s| - |r.value.1|..]
                  && (r.value.1 == [] || IsWordEnd(r.value.1[0]))
    decreases |s|
  {
    if s != [] {
      var next := match mode
        case Unquoted => if s[0] == '\'' then InSingle else if s[0] == '"' then InDouble else Unquoted
        case InSingle => if s[0] == '\'' then Unquoted else InSingle
        case InDouble => if s[0] == '"' then Unquoted else InDouble;
      ReadWordRest(s[1..], next);
    }
  }

  /** A literal character in front of the word read after it. */
  function Prepend(c: char, r: Option<(string, string)>): Option<(string, string)>
  {
    match r
    case None => None
    case Some(next) => Some(([c] + next.0, next.1))
  }

  /** Escaping distributes over concatenation. */
  lemma {:induction false} EscapeAppend(a: string, b: string)
    ensures Escape(a + b) == Escape(a) + Escape(b)
    decreases |a|
  {
    if a != [] {
      var head := if a[0] == '\'' then QuoteEscape else [a[0]];
      assert (a + b)[0] == a[0] && (a + b)[1..] == a[1..] + b;
      assert Escape(a + b) == head + Escape(a[1..] + b);
      assert Escape(a) == head + Escape(a[1..]);
      EscapeAppend(a[1..], b);
      assert head + (Escape(a[1..]) + Escape(b)) == (head + Escape(a[1..])) + Escape(b);
    } else {
      assert a + b == b;
    }
  }

  /** A password without single quotes is embedded unchanged. */
  lemma {:induction false} EscapeUnquoted(password: string)
    requires '\'' !in password
    ensures Escape(password) == password
    decreases |password|
  {
    if password != [] {
      assert '\'' !in password[1..];
      EscapeUnquoted(password[1..]);
    }
  }

  /** Inside single quotes, `QuoteEscape` closes the quote, supplies a double-quoted `'` and
      reopens the quote. */
  lemma QuoteEscapeRead(t: string)
    ensures ReadWord(QuoteEscape + t, InSingle) == Prepend('\'', ReadWord(t, InSingle))
  {
    var s1, s2, s3, s4 := "\"'\"'" + t, "'\"'" + t, "\"'" + t, "'" + t;
    assert (QuoteEscape + t)[1..] == s1 && s1[1..] == s2 && s2[1..] == s3 && s3[1..] == s4;
    assert s4[1..] == t;
    assert ReadWord(s4, Unquoted) == ReadWord(t, InSingle);
    assert ReadWord(s3, InDouble) == ReadWord(t, InSingle);
    assert ReadWord(s2, InDouble) == Prepend('\'', ReadWord(t, InSingle));
    assert ReadWord(s1, Unquoted) == Prepend('\'', ReadWord(t, InSingle));
  }

  /** The single-quoted word starts with the escape of the password's first character. */
  lemma EscapeFront(password: string, rest: string)
    requires password != []
    ensures Escape(password) + "'" + rest
      == (if password[0] == '\'' then QuoteEscape else [password[0]]) + (Escape(password[1..]) + "'" + rest)
  {
  }

  /** Inside single quotes, the escaped password followed by the closing quote and a word end
      reads as the password. */
  lemma {:induction false} SingleQuotedRead(password: string, rest: string)
    requires rest == [] || IsWordEnd(rest[0])
    ensures ReadWord(Escape(password) + "'" + rest, InSingle) == Some((password, rest))
    decreases |password|
  {
    var s := Escape(password) + "'" + rest;
    if password == [] {
      assert s == "'" + rest;
      assert s[1..] == rest;
    } else {
      var t := Escape(password[1..]) + "'" + rest;
      SingleQuotedRead(password[1..], rest);
      EscapeFront(password, rest);
      assert password == [password[0]] + password[1..];
      if password[0] == '\'' {
        QuoteEscapeRead(t);
      } else {
        assert s[1..] == t;
      }
    }
  }

  /** POSIX quote removal undoes the escaping: the shell reads `'<escaped password>'` followed
      by a word end as exactly the password. */
  lemma QuotedRoundTrip(password: string, rest: string)
    requires rest == [] || IsWordEnd(rest[0])
    ensures ReadWord("'" + Escape(password) + "'" + rest, Unquoted) == Some((password, rest))
  {
    var s := "'" + Escape(password) + "'" + rest;
    assert s[1..] == Escape(password) + "'" + rest;
    SingleQuotedRead(password, rest);
  }

  /** Different passwords are never escaped to the same text. */
  lemma EscapeInjective(a: string, b: string)
    requires Escape(a) == Escape(b)
    ensures a == b
  {
    QuotedRoundTrip(a, []);
    QuotedRoundTrip(b, []);
  }

  /** In the wrapped command line, the word after `echo ` is read by the shell as exactly the
      password, and what follows is the pipe into `sudo -S` and the command. */
  lemma EchoReceivesPassword(password: string, command: string)
    requires password != ""
    ensures var line := SudoWrap(Some(password), command);
      && line[..5] == "echo "
      && ReadWord(line[5..], Unquoted) == Some((password, " | sudo -S " + command))
  {
    var line := SudoWrap(Some(password), command);
    var rest := " | sudo -S " + command;
    assert line == "echo " + ("'" + Escape(password) + "'" + rest);
    assert line[5..] == "'" + Escape(password) + "'" + rest;
    QuotedRoundTrip(password, rest);
  }
}
