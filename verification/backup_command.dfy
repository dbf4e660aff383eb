/** The full-backup command line of `run_test_sequence`: a fixed `pgbackrest` invocation, then
    `--process-max` and `--archive-timeout` when their settings are set and non-zero, in that
    order, then the `backup` command word. A reader for such lines shows that the line carries
    exactly the settings that take effect. */
module BackupCommand {
  import opened Wrappers
  import opened Text
  import opened Numerals

  /** The command up to the optional flags; it begins with the word `sudo`. */
  const BackupPrefix: string := "sudo" + " -u postgres pgbackrest --stanza=test-backup --type=full"

  /** The two optional flags, each with the space that separates it from what precedes it. */
  const ProcessMaxFlag: string := " --process-max="
  const ArchiveTimeoutFlag: string := " --archive-timeout="

  /** Python truthiness of an optional integer setting: `None` and `0` are both false. */
  predicate Truthy(setting: Option<int>)
  {
    setting.Some? && setting.value != 0
  }

  /** The setting as the command line sees it: a falsy setting is the same as no setting. */
  function Effective(setting: Option<int>): (r: Option<int>)
    ensures r.Some? <==> Truthy(setting)
    ensures r.Some? ==> r == setting
  {
    if Truthy(setting) then setting else None
  }

  /** `<flag><value>` when the setting is truthy, nothing otherwise. */
  function Flag(flag: string, setting: Option<int>): string
  {
    if Truthy(setting) then flag + IntToString(setting.value) else ""
  }

  /** The backup command for the `--process-max` and `--archive-timeout` settings. */
  function Command(processMax: Option<int>, archiveTimeout: Option<int>): (r: string)
    ensures StartsWith(r, BackupPrefix)
    ensures EndsWith(r, " backup")
  {
    var tail := Flag(ArchiveTimeoutFlag, archiveTimeout) + " backup";
    var rest := Flag(ProcessMaxFlag, processMax) + tail;
    AppendParts(BackupPrefix, rest);
    AppendParts(Flag(ArchiveTimeoutFlag, archiveTimeout), " backup");
    EndsWithAppend(Flag(ProcessMaxFlag, processMax), tail, " backup");
    EndsWithAppend(BackupPrefix, rest, " backup");
    BackupPrefix + rest
  }

  /** The two settings a backup command line carries. */
  datatype BackupSettings = BackupSettings(processMax: Option<int>, archiveTimeout: Option<int>)

  /** Reads `flag` followed by an integer and a space at the start of `s`: the integer and
      the text from that space on, or no value and `s` unchanged when `s` does not start so. */
  function ReadFlag(flag: string, s: string): (r: (Option<int>, string))
    ensures r.0.None? ==> r.1 == s
    ensures r.0.Some? ==>
      && StartsWith(s, flag) && |flag| + |r.1| <= |s| && r.1 == s[|s| - |r.1|..]
      && r.1 != [] && r.1[0] == ' ' && ReadInt(s[|flag|..|s| - |r.1|]) == r.0
  {
    if StartsWith(s, flag) then
      var v := s[|flag|..];
      match IndexOf(v, ' ')
      case None => (None, s)
      case Some(k) =>
        match ReadInt(v[..k])
        case None => (None, s)
        case Some(n) =>
          assert v[k..] == s[|flag| + k..] && v[..k] == s[|flag|..|flag| + k];
          (Some(n), v[k..])
    else (None, s)
  }

  /** Reads what follows the prefix: the optional flags in their fixed order, then ` backup`. */
  function ReadFlags(s: string): (r: Option<BackupSettings>)
    ensures r.Some? ==> EndsWith(s, " backup")
  {
    var (processMax, afterProcessMax) := ReadFlag(ProcessMaxFlag, s);
    var (archiveTimeout, tail) := ReadFlag(ArchiveTimeoutFlag, afterProcessMax);
    if tail == " backup" then Some(BackupSettings(processMax, archiveTimeout)) else None
  }

  /** Reads a backup command line back into its settings: the fixed prefix, the optional
      flags in their fixed order, and ` backup` at the end. */
  function ReadCommand(line: string): (r: Option<BackupSettings>)
    ensures r.Some? ==> StartsWith(line, BackupPrefix) && EndsWith(line, " backup")
  {
    if StartsWith(line, BackupPrefix) then ReadFlags(line[|BackupPrefix|..]) else None
  }

  /** A flag with an integer, followed by text starting with a space, reads as that integer. */
  lemma ReadFlagPresent(flag: string, n: int, tail: string)
    requires tail != [] && tail[0] == ' '
    ensures ReadFlag(flag, flag + IntToString(n) + tail) == (Some(n), tail)
  {
    var s := flag + IntToString(n) + tail;
    var v := s[|flag|..];
    assert s[..|flag|] == flag;
    assert v == IntToString(n) + [' '] + tail[1..];
    IntTextExcludes(n, ' ');
    IndexOfFirst(IntToString(n), ' ', tail[1..]);
    assert v[..|IntToString(n)|] == IntToString(n);
    assert v[|IntToString(n)|..] == tail;
    IntRoundTrip(n);
  }

  /** The text after a flag that is left out: the next flag or ` backup`. */
  lemma ReadFlagAbsent(flag: string, s: string)
    requires !StartsWith(s, flag)
    ensures ReadFlag(flag, s) == (None, s)
  {
  }

  /** What follows the prefix in the command line. */
  lemma AfterPrefix(processMax: Option<int>, archiveTimeout: Option<int>)
    ensures Command(processMax, archiveTimeout)[|BackupPrefix|..]
      == Flag(ProcessMaxFlag, processMax) + (Flag(ArchiveTimeoutFlag, archiveTimeout) + " backup")
  {
    AppendParts(BackupPrefix, Flag(ProcessMaxFlag, processMax) + (Flag(ArchiveTimeoutFlag, archiveTimeout) + " backup"));
  }

  /** A flag, when its setting is truthy, reads back as that setting, leaving `tail`; when the
      setting is falsy, nothing is read as long as `tail` does not itself start with the flag. */
  lemma FlagRoundTrip(flag: string, setting: Option<int>, tail: string)
    requires tail != [] && tail[0] == ' '
    requires !StartsWith(tail, flag)
    ensures ReadFlag(flag, Flag(flag, setting) + tail) == (Effective(setting), tail)
  {
    if Truthy(setting) {
      ReadFlagPresent(flag, setting.value, tail);
    } else {
      assert Flag(flag, setting) + tail == tail;
      ReadFlagAbsent(flag, tail);
    }
  }

  /** The archive-timeout part reads back as its effective setting. */
  lemma ArchiveTimeoutPart(archiveTimeout: Option<int>)
    ensures ReadFlag(ArchiveTimeoutFlag, Flag(ArchiveTimeoutFlag, archiveTimeout) + " backup")
      == (Effective(archiveTimeout), " backup")
  {
    DiffersAt(ArchiveTimeoutFlag, " backup", 2);
    FlagRoundTrip(ArchiveTimeoutFlag, archiveTimeout, " backup");
  }

  /** The archive-timeout part is not taken for the process-max flag. */
  lemma NotProcessMax(archiveTimeout: Option<int>)
    ensures var tail := Flag(ArchiveTimeoutFlag, archiveTimeout) + " backup";
      tail != [] && tail[0] == ' ' && !StartsWith(tail, ProcessMaxFlag)
  {
    var tail := Flag(ArchiveTimeoutFlag, archiveTimeout) + " backup";
    if Truthy(archiveTimeout) {
      assert tail[3] == ArchiveTimeoutFlag[3];
    } else {
      assert tail == " backup";
    }
    DiffersAt(ProcessMaxFlag, tail, 3);
  }

  /** The flags and ` backup` read back as the effective settings. */
  lemma ReadFlagsRoundTrip(processMax: Option<int>, archiveTimeout: Option<int>)
    ensures ReadFlags(Flag(ProcessMaxFlag, processMax) + (Flag(ArchiveTimeoutFlag, archiveTimeout) + " backup"))
      == Some(BackupSettings(Effective(processMax), Effective(archiveTimeout)))
  {
    var tail := Flag(ArchiveTimeoutFlag, archiveTimeout) + " backup";
    ArchiveTimeoutPart(archiveTimeout);
    NotProcessMax(archiveTimeout);
    FlagRoundTrip(ProcessMaxFlag, processMax, tail);
  }

  /** The command line carries exactly the settings that take effect: reading it back gives
      each setting when it is truthy and no setting when it is `None` or `0`. */
  lemma ReadCommandRoundTrip(processMax: Option<int>, archiveTimeout: Option<int>)
    ensures ReadCommand(Command(processMax, archiveTimeout))
      == Some(BackupSettings(Effective(processMax), Effective(archiveTimeout)))
  {
    AfterPrefix(processMax, archiveTimeout);
    ReadFlagsRoundTrip(processMax, archiveTimeout);
  }

  /** Two settings give the same command line exactly when they agree on what takes effect. */
  lemma CommandDeterminesSettings(p1: Option<int>, a1: Option<int>, p2: Option<int>, a2: Option<int>)
    ensures Command(p1, a1) == Command(p2, a2) <==> Effective(p1) == Effective(p2) && Effective(a1) == Effective(a2)
  {
    if Command(p1, a1) == Command(p2, a2) {
      ReadCommandRoundTrip(p1, a1);
      ReadCommandRoundTrip(p2, a2);
    }
    if Effective(p1) == Effective(p2) && Effective(a1) == Effective(a2) {
      assert Flag(ProcessMaxFlag, p1) == Flag(ProcessMaxFlag, p2);
      assert Flag(ArchiveTimeoutFlag, a1) == Flag(ArchiveTimeoutFlag, a2);
    }
  }
}
