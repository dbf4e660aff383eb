# PostgreSQL backup/restore benchmark: a Dafny model of its pure core

`pg_backup_restore_test.py` benchmarks `pgbackrest` on a remote PostgreSQL 16 cluster over
SSH. For each target size it fills the database with `pgbench`, records the database size,
takes a full backup, stops the service, wipes the data directory, restores and restarts. The
fill, the backup and the restore are each timed, and a background sampler measures CPU load
during them.

This project models the parts of that script that compute. The remote host, the clocks and
the script's parsers become parameters.

| module (file) | what it models |
|---|---|
| `Wrappers` (wrappers.dfy) | `Option` and `Result` |
| `Text` (text.dfy) | `str.strip`, `str.upper` (ASCII), slicing `[:n]`, `startswith`/`endswith`, `split` |
| `Numerals` (numerals.dfy) | `str(int)`, `int(float)` (truncation toward zero), and `float(str)` for plain decimals |
| `Sizes` (sizes.dfy) | `parse_size`, `calculate_scale_factor`, and the list of test configurations |
| `ShellQuote` (shell_quote.dfy) | `execute_sudo_command`: quoting the password and piping it to `sudo -S` |
| `BackupCommand` (backup_command.dfy) | the `pgbackrest` full-backup command line and its optional flags |
| `Monitor` (monitor.dfy) | the sampler hand-off, the kill command, the awk average/peak, the `float` fallbacks, and the `分`/`秒` elapsed text |
| `Sequencer` (sequencer.dfy) | `monitor_command_with_cpu`, `run_test_sequence` and the test loop, as the list of commands sent and the records kept |

## How the model works

The remote host is a `World`:
- `replies(k)` is the reply `(stdout, stderr, exit code)` to the `k`-th command sent;
- `clock(k)` is the `time.time()` reading taken after `k` commands;
- `timestamp(k)` is the ISO timestamp at that moment.

Every operation returns the commands it sent, in order. The benchmark's own commands (fill,
size query, backup, stop, wipe, restore, start) are its *phases*. The sampler upload, the
probes, the awk reductions, the kill and the clean-up are instrumentation.

`run_test_sequence` is a fixed plan of seven steps (`TestPlan`). Each step is either
watched through `monitor_command_with_cpu` or sent directly through `execute_sudo_command`.
`RunSteps` runs the plan. Three parts are parameters:
- how a watched command runs (`Watcher`);
- how one test runs (`Tester`);
- how replies are read (`Readers`).

The phase properties hold for any `Readers`. They hold for a `Watcher` only if each watched
run sends exactly its own command as a phase (`OnePhaseEach`), and for a `Tester` only if each
test sends the seven phases in order (`SevenPhasesEach`). The script's own watcher and tester
meet these conditions for every choice of readers (`ScriptWatcherFacts`, `ScriptTesterFacts`).

The script's own choices are `ScriptWatcher`, `ScriptTester` and `ScriptReaders`, which use
Python-`float` and line-split readers.

The script sends each watched command (fill, backup, restore) through
`execute_sudo_command` because the command begins with `sudo`. That function adds its own
`sudo` in front, so the line sent is `sudo sudo -u postgres …`, or
`echo '<password>' | sudo -S sudo -u postgres …` when a password is set. The model keeps this
behaviour as written (`Sequencer.PhasesUseSudo`).

## Model

| member | source | states |
|---|---|---|
| Sizes.ParseSize | pg_backup_restore_test.py:459-470 | a rejected label reports its number part: a prefix of the stripped, upper-cased label that is not a signed decimal numeral |
| Sizes.ParseSizeStrips | pg_backup_restore_test.py:461 | white space around a label never changes what it parses to |
| Sizes.ParseSizeDecimal | pg_backup_restore_test.py:459-467 | a decimal label `w.f` with a unit suffix parses to the value of `w.f` in that unit, truncated to whole megabytes |
| Sizes.ParseSizeWholeGigabytes | pg_backup_restore_test.py:459-463 | a whole number of gigabytes `nGB` parses to `1024 * n` megabytes |
| Sizes.ParseSizeWholeMegabytes | pg_backup_restore_test.py:464-465 | `nMB` parses to `n` megabytes |
| Sizes.ParseSizeWholeKilobytes | pg_backup_restore_test.py:466-467 | `nKB` parses to `n / 1024` megabytes, truncated |
| Sizes.ParseSizeWholeBare | pg_backup_restore_test.py:468-470 | a bare number is read as megabytes |
| Sizes.ParseSizeWhole | pg_backup_restore_test.py:459-470 | any integer with any unit parses to its size in megabytes, truncated toward zero |
| Sizes.ParseSizeSuffixed | pg_backup_restore_test.py:461-467 | a label with a unit suffix is measured from the text before the suffix in that unit |
| Sizes.ParseSizeBare | pg_backup_restore_test.py:468-470 | a label without a unit suffix is measured as megabytes |
| Sizes.ParseSizeIgnoresCase | pg_backup_restore_test.py:461 | upper-casing a label first does not change what it parses to |
| Sizes.ParseSizeAcceptsNumerals | pg_backup_restore_test.py:459-470 | every unsigned decimal numeral, with or without a unit, is accepted |
| Sizes.ParseSizeNeedsDigit | pg_backup_restore_test.py:459-470 | an accepted label contains at least one digit, so text without one is rejected |
| Sizes.ScaleFactor | pg_backup_restore_test.py:472-475 | at least 1; for 15 MB or more, the largest whole number of 15 MB units that fits in the target |
| Sizes.ScaleFactorMonotone | pg_backup_restore_test.py:472-475 | a larger target never gets a smaller scale factor |
| Sizes.ScaleFactorExamples | pg_backup_restore_test.py:472-475 | 1024 MB gives 68 and 3072 MB gives 204; 15, 1, 0 and negative targets give 1 |
| Sizes.DefaultConfigsAgainstScaleFactor | pg_backup_restore_test.py:488-494 | the default list is 1, 3, 5 and 9 GB; its scale factors equal `calculate_scale_factor` except for 3 GB, which is one higher |
| Sizes.ConfigsFor | pg_backup_restore_test.py:480-485 | one configuration per label, in order, with the scale factor of the label's megabytes; an unreadable label makes the whole list fail with the error of the first label that fails, every label before it having been read |
| Sizes.SizeLabels | pg_backup_restore_test.py:479 | the labels are the comma-separated pieces, each stripped |
| Sizes.TestConfigs | pg_backup_restore_test.py:478-494 | with no size list, the defaults; otherwise the list succeeds exactly when every label parses, with one configuration per label |
| ShellQuote.SudoWrap | pg_backup_restore_test.py:84-92 | with a non-empty password, `echo '<escaped>' \| sudo -S <command>`; otherwise `sudo <command>` |
| ShellQuote.QuotedRoundTrip | pg_backup_restore_test.py:87-89 | the POSIX shell reads the single-quoted escaped password back as exactly the password |
| ShellQuote.EchoReceivesPassword | pg_backup_restore_test.py:84-89 | in the wrapped line, the word after `echo` is the password itself, followed by the pipe into `sudo -S` |
| ShellQuote.EscapeInjective | pg_backup_restore_test.py:87 | different passwords are never escaped to the same text |
| ShellQuote.EscapeUnquoted | pg_backup_restore_test.py:87 | a password without `'` is embedded unchanged |
| ShellQuote.EscapeAppend | pg_backup_restore_test.py:87 | escaping works piece by piece |
| ShellQuote.Escape | pg_backup_restore_test.py:87 | each `'` of the password becomes five characters, three of them quotes, and every other character is kept: the text grows by four per quote and holds three times as many quotes |
| ShellQuote.EscapeKeepsQuotes | pg_backup_restore_test.py:87 | the escaped text holds a `'` exactly when the password does |
| ShellQuote.SudoWrapEnds | pg_backup_restore_test.py:83-91 | both forms of the wrapped line end with the whole command and are longer than it |
| BackupCommand.Command | pg_backup_restore_test.py:251-256 | the line starts with the fixed prefix `sudo -u postgres pgbackrest --stanza=test-backup --type=full` and ends with ` backup` |
| BackupCommand.ReadCommandRoundTrip | pg_backup_restore_test.py:251-256 | the line reads back as exactly the settings that take effect, in the order process-max, archive-timeout |
| BackupCommand.CommandDeterminesSettings | pg_backup_restore_test.py:251-256 | two lines are equal if and only if the effective settings agree |
| Monitor.ParseHandoff | pg_backup_restore_test.py:139-141 | the process id and log path are single lines; empty output gives no id and the default log path |
| Monitor.HandoffRoundTrip | pg_backup_restore_test.py:130-141 | the two lines the start-up script echoes read back as its id and log path |
| Monitor.HandoffWithoutLog | pg_backup_restore_test.py:139-141 | a single line gives that id and the default log path `/tmp/cpu_monitor.log` |
| Monitor.StopCommand | pg_backup_restore_test.py:154-155 | a kill command is issued exactly when a process id was read, and it begins `kill <pid>` |
| Monitor.AwkAverage | pg_backup_restore_test.py:162 | the awk loop computes the mean of the samples, and 0 for an empty log |
| Monitor.AwkPeak | pg_backup_restore_test.py:163 | the awk loop computes the largest sample, which is one of the samples, and 0 for an empty log |
| Monitor.MeanBetween | pg_backup_restore_test.py:162-163 | the average lies between the smallest sample and the peak |
| Monitor.MeanWithin | pg_backup_restore_test.py:162 | the mean of a non-empty log lies within any bounds on its samples |
| Monitor.ReadOr | pg_backup_restore_test.py:168-176 | an output gives its value exactly when, stripped, it is a signed decimal numeral (an independent description of the text `float` accepts), and gives the fallback otherwise: 0 for a probe, a fresh probe for the average, the average for the peak |
| Monitor.ReadOrNumeral | pg_backup_restore_test.py:168-176 | white space, an optional sign and a decimal numeral with a point read as the numeral's value, negated after `-`, whatever the fallback |
| Monitor.EmptyOutputFallsBack | pg_backup_restore_test.py:168-176 | empty output, as a failed command gives, always takes the fallback |
| Monitor.WholeOutputRead | pg_backup_restore_test.py:169 | an integer followed by a newline, as awk prints it, reads as that integer |
| Monitor.ElapsedParts | pg_backup_restore_test.py:186 | `int(t // 60)` and `int(t % 60)` are the whole minutes and remaining whole seconds of `t` |
| Monitor.ElapsedRoundTrip | pg_backup_restore_test.py:186 | the `<m>分<s>秒` text reads back as those minutes and seconds |
| Monitor.FormatElapsedWholeSeconds | pg_backup_restore_test.py:186 | two times format alike exactly when they have the same whole seconds |
| Monitor.FormatElapsed | pg_backup_restore_test.py:186 | the text has at least four characters and ends in `秒` (its content is pinned by `Monitor.ElapsedRoundTrip`) |
| Sequencer.Record | pg_backup_restore_test.py:183-194 | the record keeps the description, the time and the exit code; output and error are prefixes of at most 500 characters, whole when no longer |
| Sequencer.MonitorRunOutput | pg_backup_restore_test.py:149-193 | the record of a watched command keeps the reply to that command: its exit code, and its output and error cut to 500 characters |
| Sequencer.MonitorRun | pg_backup_restore_test.py:108-203 | a watched run sends at least eight commands, the fourth being the watched command, and its record's formatted time is that of its elapsed seconds |
| Sequencer.MonitorRunPhases | pg_backup_restore_test.py:135-181 | a watched command contributes exactly one phase, itself, whatever the replies |
| Sequencer.MonitorRunStops | pg_backup_restore_test.py:153-171 | the kill follows the watched command exactly when an id was read; a fallback probe is sent exactly when the average does not read as a number |
| Sequencer.MonitorRunElapsed | pg_backup_restore_test.py:144-186 | the time runs from just before the start probe to just after the kill when an id was read, and to just after the watched command when none was (no kill is sent then); it is formatted from its whole seconds |
| Sequencer.MonitorRunReadings | pg_backup_restore_test.py:144-181 | with the script's readers: the start CPU is the probe before the watched command (0.0 when unreadable); the average is the average program's output or else a fresh probe; the peak is the peak program's output or else the average; the end CPU is the closing probe |
| Sequencer.MonitorRunAligned | pg_backup_restore_test.py:135-181 | the `k`-th command of a run gets `replies(at + k)`: the hand-off is read from the start-up script, the start probe is the third command, the average and peak programs come right after the kill (if any), then the fallback probe when there is one, and the closing probe is the last command; these are the replies `MonitorRunReadings` reads |
| Sequencer.ScriptProbe | pg_backup_restore_test.py:96-106 | `get_cpu_usage` gives the probe's output when, stripped, it is a signed decimal numeral, and 0.0 otherwise |
| Sequencer.Epilogue | pg_backup_restore_test.py:153-181 | after the watched command come four commands, one more with the kill and one more with the fallback probe; the first is the kill exactly when an id was read, and otherwise the average program; none of them is a phase |
| Sequencer.EpilogueAligned | pg_backup_restore_test.py:153-181 | after the kill, if any, come the average program, the peak program and the fallback probe when there is one; the clean-up and the closing probe come last |
| Sequencer.PhasesUseSudo | pg_backup_restore_test.py:147-149 | the fill, backup and restore lines begin with `sudo`, so they are sent through the sudo wrapper, which adds a `sudo` of its own |
| Sequencer.StopMonitorSent | pg_backup_restore_test.py:154-155 | the kill command sent begins `kill <pid>` |
| Sequencer.Line | pg_backup_restore_test.py:227-304 | the fill, backup and restore lines begin with `sudo`, and the size query, stop, wipe and start lines do not; `PhasesUseSudo` builds on this |
| Sequencer.WatchedLine | pg_backup_restore_test.py:147-151 | a watched command is sent unchanged exactly when, stripped, it does not start with `sudo`; either way the sent line ends with the whole command |
| Sequencer.Sent | pg_backup_restore_test.py:100-179 | the average and peak programs begin `cat <log> `, the clean-up `rm -f <log> ` and the kill `kill <pid>`, for the log and pid the sampler reported |
| Sequencer.PhaseSentWhole | pg_backup_restore_test.py:147-151 | a benchmark command, watched or sent directly through `execute_sudo_command`, is sent whole at the end of its line |
| Sequencer.ScriptWatcherFacts | pg_backup_restore_test.py:108-203 | the script's watched run gives one phase and keeps its output cut, for any readers |
| Sequencer.Step | pg_backup_restore_test.py:224-305 | a step leaves a record exactly when it is watched |
| Sequencer.RunSteps | pg_backup_restore_test.py:224-305 | one outcome per step, and it is a record exactly for the watched steps |
| Sequencer.RunStepsPhases | pg_backup_restore_test.py:224-305 | the steps send their benchmark commands in the planned order, whatever the replies |
| Sequencer.RunStepsRecords | pg_backup_restore_test.py:226-296 | each watched step's record has that step's description and output cut to 500 characters |
| Sequencer.RunStepsOutcomeAt | pg_backup_restore_test.py:224-305 | each step's outcome is that step run from the command where the commands of the steps before it end |
| Sequencer.TestPlan | pg_backup_restore_test.py:224-305 | seven steps, of which exactly the fill, backup and restore (steps 0, 2 and 5) are watched; the size query, stop, wipe and start go straight to `execute_sudo_command` |
| Sequencer.TestPlanned | pg_backup_restore_test.py:224-305 | the plan's benchmark commands are exactly the seven expected phases, in order |
| Sequencer.RunTestSequence | pg_backup_restore_test.py:205-313 | the record is labelled with the configuration and the timestamp, holds three step records, and copies the backup's and restore's time, average and peak from them |
| Sequencer.RunTestSequencePhases | pg_backup_restore_test.py:224-305 | every test sends fill, size query, backup, stop, wipe, restore and start in that order, whatever the exit codes |
| Sequencer.RunTestSequenceRecords | pg_backup_restore_test.py:226-296 | the three records are the fill's, the backup's and the restore's, with output cut to 500 characters |
| Sequencer.DatabaseSizeFromQuery | pg_backup_restore_test.py:233-246 | the size query is the command after the fill's, and the size is read from its reply |
| Sequencer.ScriptTesterFacts | pg_backup_restore_test.py:205-313 | the script's test sends the seven phases and labels its record with its configuration |
| Sequencer.RunTests | pg_backup_restore_test.py:511-513 | each configuration appends exactly one record, and earlier results are kept |
| Sequencer.RunTestsRecords | pg_backup_restore_test.py:312 | the record appended for each configuration carries that configuration's scale factor and label |
| Sequencer.RunTestsPhases | pg_backup_restore_test.py:511-512 | the loop sends each configuration's seven phases in turn |
| Sequencer.TestLoop | pg_backup_restore_test.py:511-512 | the script's loop sends seven phases per configuration and appends one labelled record per configuration |
| Text.Take | pg_backup_restore_test.py:192-193 | `s[:n]` is a prefix of at most `n` characters, the whole text when it is no longer |
| Text.Split | pg_backup_restore_test.py:139 | the pieces contain no separator and join back into the text |
| Text.SplitJoin | pg_backup_restore_test.py:139 | pieces without the separator, once joined, split back into the same pieces |
| Text.StripUpper | pg_backup_restore_test.py:461 | stripping and upper-casing can be done in either order |
| Numerals.IntRoundTrip | pg_backup_restore_test.py:227 | the decimal text of an integer reads back as that integer |
| Numerals.Trunc | pg_backup_restore_test.py:463-475 | `int()` of a float rounds toward zero |
| Numerals.ParseUnsignedAccepts | pg_backup_restore_test.py:103 | the number reader accepts exactly the unsigned decimal numerals |
| Numerals.ParseDecimalAccepts | pg_backup_restore_test.py:103 | the signed reader accepts exactly an unsigned numeral with an optional leading `+` or `-` |
| Numerals.PyFloat | pg_backup_restore_test.py:103 | `float(stdout.strip())` succeeds exactly when the stripped text is a signed decimal numeral |

## Left out

- SSH: connecting, `execute_command` and its timeouts are left out. Replies are the `World.replies` parameter; a failed connection is just a reply with exit code -1.
- The sampler's background loop (`vmstat`/`top` once a second) runs on the remote host. Its log is modelled as the list of samples the awk programs read.
- `time.sleep` between steps is left out, because it does not change what is sent or recorded.
- Report writing (`generate_report`, lines 315-373), argument parsing, password prompts and the confirmation prompt (lines 376-508) are left out. They are I/O.
- `print` output is left out.
- The reply to the sampler upload (line 135) is ignored by the script, so the model ignores it too.
- Sequencer.DatabaseSizeFromQuery: keeps the size query's whole output rather than the `pg_size_pretty` figure that the regular expression on line 240 extracts. Regular-expression matching is not modelled.
- Numerals.ParseUnsignedAccepts: Python's `float` also accepts exponents, `inf`, `nan`, underscores and non-ASCII digits. The model reads only a sign, decimal digits and an optional fraction, so it rejects those.
- Numerals.PyFloat: rejects the exponents, `inf`, `nan`, underscores and non-ASCII digits that Python's `float` accepts, as `Numerals.ParseUnsignedAccepts` says; `Monitor.ReadOr` and `Sizes.ParseSize` therefore fall back or fail on such text where Python reads a number.
- Monitor.AwkAverage: awk reads a non-numeric log line as 0 and counts it. The model takes the log as numbers already.
- Monitor.AwkPeak: awk compares log fields as strings or numbers depending on their text. The model compares numbers only.
- Sizes.ParseSize: `float` is IEEE double precision in Python, so `int(float(x) * 1024)` rounds. The model computes on exact reals: "9007199254740993MB" gives 9007199254740993 here and 9007199254740992 in Python. A numeral too large for a double becomes `inf` there, and `int()` then raises `OverflowError`; the model returns the exact integer instead.
- Sizes.ParseSizeWhole: exact arithmetic, as for `Sizes.ParseSize`; Python agrees only while the number and its product by 1024 are exact doubles (below 2^53).
- Sizes.ParseSizeWholeGigabytes: exact arithmetic, as for `Sizes.ParseSize`.
- Sizes.ParseSizeWholeMegabytes: exact arithmetic, as for `Sizes.ParseSize`.
- Sizes.ParseSizeWholeKilobytes: exact arithmetic, as for `Sizes.ParseSize`.
- Sizes.ParseSizeWholeBare: exact arithmetic, as for `Sizes.ParseSize`.
- Sizes.ParseSizeDecimal: exact arithmetic, as for `Sizes.ParseSize`. A numeral with more digits than a double holds is rounded first in Python: "2.9999999999999999MB" is 3 MB there, while the model gives 2.
- Sizes.ScaleFactor: `target_mb / 15` is a float division in Python; the model divides exactly. The two agree while the size is below 2^53.
- Monitor.ElapsedParts: the elapsed time is an exact real here; Python's `time.time()` difference is a double, and `//` and `%` are taken on it.
- ShellQuote.EchoReceivesPassword: shows only that `echo` receives the password as its one argument. What `echo` writes into `sudo -S` can differ: bash's `echo` takes a password such as `-n` or `-e` as an option, dash's `echo` rewrites backslash escapes, and `sudo -S` stops reading at the first newline.
- Monitor.ReadOr: CPU figures are exact reals. Floating-point rounding and awk's `%.6g` printing of the average are not modelled.
- Text.Upper: upper-cases ASCII letters only. Python also upper-cases other scripts, which size labels do not use.
- ShellQuote.QuotedRoundTrip: the shell reader covers plain characters, single quotes and double quotes without `\`, `$` or backquote. That is the subset the wrapped command line uses; the rest of the POSIX grammar is not modelled.
- Sequencer.MonitorRunReadings: the CPU figures are proved for the script's readers (`float` and the line split). The phase, output and kill properties are proved for any readers.
