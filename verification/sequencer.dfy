/** `monitor_command_with_cpu`, `run_test_sequence` and the test loop of `main` as functions of
    the replies the remote host gives. Every command the script sends is recorded, in order,
    and the reply to the `k`-th command of a run is `replies(k)`. The benchmark's own commands
    (fill, size query, backup, stop, wipe, restore, start) are the phases; the sampler
    set-up, probes, log reductions and clean-up are instrumentation. */
module Sequencer {
  import opened Wrappers
  import opened Text
  import opened Numerals
  import opened ShellQuote
  import BackupCommand
  import Sizes
  import opened Monitor

  /** What `execute_command` returns for one command: standard output, standard error and
      exit status (`-1` when the connection failed). */
  datatype Reply = Reply(stdout: string, stderr: string, exitCode: int)

  /** The remote host and the local clock as the script sees them: the reply to the `k`-th
      command, the `time.time()` reading taken once `k` commands have been sent, and the
      `datetime.now().isoformat()` text at that moment. */
  datatype World = World(replies: nat -> Reply, clock: nat -> real, timestamp: nat -> string)

  /** The script's two `pgbackrest` options. The sudo password (`sudo_password or password`)
      only changes the text a command is sent as, so it is the argument of `Sent`. */
  datatype Settings = Settings(processMax: Option<int>, archiveTimeout: Option<int>)

  /** The benchmark's own commands. */
  datatype Benchmark =
    | Fill(scaleFactor: int)
    | SizeQuery
    | FullBackup(processMax: Option<int>, archiveTimeout: Option<int>)
    | StopService
    | WipeData
    | Restore
    | StartService

  /** The fixed benchmark command texts. Each is split after its first word, where the
      ones without `sudo` differ from it. */
  const SizeQueryLine: string :=
    "-u" + " postgres psql -p 5433 -c \"SELECT pg_size_pretty(pg_database_size('postgres'));\""
  const StopLine: string := "systemctl" + " stop postgresql@16-test"
  const WipeLine: string := "bash" + " -c 'rm -rf /var/lib/postgresql/16/test/*'"
  const RestoreLine: string := "sudo" + " -u postgres pgbackrest --stanza=test-backup restore"
  const StartLine: string := "systemctl" + " start postgresql@16-test"

  /** A benchmark command's text as the script writes it, before any `sudo` wrapping. The
      fill, backup and restore commands begin with the word `sudo`; the other four are passed
      to `execute_sudo_command` without it. */
  function Line(b: Benchmark): (r: string)
    ensures StartsWith(r, "sudo") <==> b.Fill? || b.FullBackup? || b.Restore?
  {
    match b
    case Fill(scaleFactor) =>
      var rest := " -u postgres pgbench -i -s " + IntToString(scaleFactor) + " -p 5433 postgres";
      AppendParts("sudo", rest);
      "sudo" + rest
    case SizeQuery =>
      DiffersAt("sudo", SizeQueryLine, 0);
      SizeQueryLine
    case FullBackup(processMax, archiveTimeout) =>
      var line := BackupCommand.Command(processMax, archiveTimeout);
      AppendParts("sudo", " -u postgres pgbackrest --stanza=test-backup --type=full");
      StartsWithTrans(line, BackupCommand.BackupPrefix, "sudo");
      line
    case StopService =>
      DiffersAt("sudo", StopLine, 1);
      StopLine
    case WipeData =>
      DiffersAt("sudo", WipeLine, 0);
      WipeLine
    case Restore =>
      AppendParts("sudo", " -u postgres pgbackrest --stanza=test-backup restore");
      RestoreLine
    case StartService =>
      DiffersAt("sudo", StartLine, 1);
      StartLine
  }

  /** One command sent to the remote host. A benchmark command is sent either watched, through
      `monitor_command_with_cpu`, or directly through `execute_sudo_command`. */
  datatype Command =
    | UploadMonitor
    | StartMonitor
    | ProbeCpu
    | StopMonitor(pid: string)
    | AverageLog(logFile: string)
    | PeakLog(logFile: string)
    | RemoveLog(logFile: string)
    | Watched(benchmark: Benchmark)
    | Sudo(benchmark: Benchmark)

  predicate IsPhase(c: Command)
  {
    c.Watched? || c.Sudo?
  }

  /** The sampler start-up script: a background loop writing one whole-machine CPU reading per
      second to its log, then the loop's process id and the log path. */
  const MonitorScript: string :=
    "\n#!/bin/bash\nLOG_FILE=/tmp/cpu_monitor_$$.log\nwhile true; do\n"
    + "    if command -v vmstat >/dev/null 2>&1; then\n"
    + "        vmstat 1 1 | tail -1 | awk '{print 100-$15}'\n"
    + "    else\n"
    + "        top -bn1 | grep 'Cpu(s)' | awk '{print $2}' | sed 's/%us,//'\n"
    + "    fi\n    sleep 1\ndone > \"$LOG_FILE\" 2>&1 &\necho $!\necho \"$LOG_FILE\"\n"

  /** The watched command as sent: through `execute_sudo_command` when, stripped, it starts
      with `sudo`, as it is otherwise. Either way the command itself comes last. */
  function WatchedLine(password: Option<string>, command: string): (r: string)
    ensures EndsWith(r, command)
    ensures r == command <==> !StartsWith(Strip(command), "sudo")
  {
    SudoWrapEnds(password, command);
    AppendParts([], command);
    if StartsWith(Strip(command), "sudo") then SudoWrap(password, command) else command
  }

  /** The sampler upload: the start-up script written through a here-document, then made
      executable. */
  const UploadText: string :=
    "cat > /tmp/start_monitor.sh << 'EOF'\n" + MonitorScript + "\nEOF\nchmod +x /tmp/start_monitor.sh"

  /** The one-shot CPU probe of `get_cpu_usage`: 100 minus the idle share `top` reports. */
  const ProbeText: string :=
    "top -bn1 | grep 'Cpu(s)' | sed 's/.*, *\\([0-9.]*\\)%* id.*/\\1/' | awk '{print 100 - $1}'"

  /** What follows `cat <log> ` in the two reductions: the mean of the samples (0 for an empty
      log), and their largest value. */
  const AverageAwk: string :=
    "2>/dev/null | awk '{sum+=$1; count++} END {if(count>0) print sum/count; else print 0}'"
  const PeakAwk: string :=
    "2>/dev/null | awk '{if($1>max || max==\"\") max=$1} END {print max+0}'"

  /** What follows `rm -f <log> ` in the clean-up: the start-up script. */
  const CleanUpRest: string := "/tmp/start_monitor.sh 2>/dev/null"

  /** A command on the sampler's log: `program`, the log file, then the rest of the line. */
  function OnLog(program: string, logFile: string, rest: string): (r: string)
    ensures StartsWith(r, program + logFile + " ")
  {
    AppendParts(program + logFile + " ", rest);
    program + logFile + " " + rest
  }

  /** The text handed to `execute_command` for each command. The awk reductions and the
      clean-up name the log file the sampler reported, and the kill names the reported
      process. */
  function Sent(password: Option<string>, c: Command): (r: string)
    ensures c.AverageLog? || c.PeakLog? ==> StartsWith(r, "cat " + c.logFile + " ")
    ensures c.RemoveLog? ==> StartsWith(r, "rm -f " + c.logFile + " ")
    ensures c.StopMonitor? && c.pid != "" ==> StartsWith(r, "kill " + c.pid)
  {
    match c
    case UploadMonitor => UploadText
    case StartMonitor => "/tmp/start_monitor.sh"
    case ProbeCpu => ProbeText
    case StopMonitor(pid) => StopCommand(pid).GetOr("")
    case AverageLog(logFile) => OnLog("cat ", logFile, AverageAwk)
    case PeakLog(logFile) => OnLog("cat ", logFile, PeakAwk)
    case RemoveLog(logFile) => OnLog("rm -f ", logFile, CleanUpRest)
    case Watched(b) => WatchedLine(password, Line(b))
    case Sudo(b) => SudoWrap(password, Line(b))
  }

  /** A benchmark command, watched or direct, is sent whole at the end of its line. */
  lemma PhaseSentWhole(password: Option<string>, c: Command)
    requires IsPhase(c)
    ensures EndsWith(Sent(password, c), Line(c.benchmark))
  {
    if c.Sudo? {
      SudoWrapEnds(password, Line(c.benchmark));
    }
  }

  /** The benchmark commands among the commands sent, in order. */
  function Phases(steps: seq<Command>): (r: seq<Benchmark>)
    ensures |r| <= |steps|
  {
    if steps == [] then []
    else (if IsPhase(steps[0]) then [steps[0].benchmark] else []) + Phases(steps[1..])
  }

  /** Commands sent one after another contribute their phases one after another. */
  lemma {:induction false} PhasesAppend(a: seq<Command>, b: seq<Command>)
    ensures Phases(a + b) == Phases(a) + Phases(b)
    decreases |a|
  {
    if a != [] {
      assert (a + b)[1..] == a[1..] + b;
      PhasesAppend(a[1..], b);
    } else {
      assert a + b == b;
    }
  }

  /** Instrumentation alone contributes no phase. */
  lemma {:induction false} PhasesInstrument(steps: seq<Command>)
    requires forall i :: 0 <= i < |steps| ==> !IsPhase(steps[i])
    ensures Phases(steps) == []
    decreases |steps|
  {
    if steps != [] {
      PhasesInstrument(steps[1..]);
    }
  }

  /** The record `monitor_command_with_cpu` returns for one watched command. */
  datatype PhaseResult = PhaseResult(
    description: string,
    elapsedSeconds: real,
    elapsedFormatted: string,
    startCpu: real,
    endCpu: real,
    averageCpu: real,
    peakCpu: real,
    exitCode: int,
    stdout: string,
    stderr: string)

  /** A watched command's record together with the commands it sent. */
  datatype Monitored = Monitored(result: PhaseResult, steps: seq<Command>)

  /** How the script reads the replies it parses: a number from a command's output, and the
      sampler's hand-off. The script's own readers are Python's `float()` and the split of
      the start-up output into lines; every property below holds for any readers. */
  datatype Readers = Readers(number: string -> Option<real>, handoff: string -> Handoff)

  const ScriptReaders: Readers := Readers(PyFloat, ParseHandoff)

  /** `get_cpu_usage` given the probe's reply: its output read as a number, or `0.0`. */
  function Probe(read: Readers, reply: Reply): real
  {
    read.number(reply.stdout).GetOr(0.0)
  }

  /** With the script's reader, `get_cpu_usage` gives the probe's output when it is a decimal
      numeral once stripped, and 0 otherwise. */
  lemma ScriptProbe(reply: Reply)
    ensures IsSignedNumeral(Strip(reply.stdout)) ==> PyFloat(reply.stdout) == Some(Probe(ScriptReaders, reply))
    ensures !IsSignedNumeral(Strip(reply.stdout)) ==> Probe(ScriptReaders, reply) == 0.0
  {
  }

  /** The commands that follow the watched one: the stop command when the sampler reported a
      process id, the average and peak programs over the log, a fresh probe only when the
      average did not parse, the clean-up and the closing probe. */
  function Epilogue(handoff: Handoff, fallback: bool): (r: seq<Command>)
    ensures |r| == (if handoff.pid == "" then 4 else 5) + (if fallback then 1 else 0)
    ensures r[0] == StopMonitor(handoff.pid) <==> handoff.pid != ""
    ensures r[0] == AverageLog(handoff.logFile) <==> handoff.pid == ""
    ensures forall i :: 0 <= i < |r| ==> !IsPhase(r[i])
  {
    var stop := if StopCommand(handoff.pid).Some? then [StopMonitor(handoff.pid)] else [];
    stop + [AverageLog(handoff.logFile), PeakLog(handoff.logFile)] + (if fallback then [ProbeCpu] else [])
      + [RemoveLog(handoff.logFile), ProbeCpu]
  }

  /** After the stop command, if any, come the average and peak programs, then the fallback
      probe when there is one; the clean-up and the closing probe come last. */
  lemma EpilogueAligned(handoff: Handoff, fallback: bool)
    ensures var r := Epilogue(handoff, fallback);
      var e := if handoff.pid == "" then 0 else 1;
      && r[e] == AverageLog(handoff.logFile) && r[e + 1] == PeakLog(handoff.logFile)
      && (fallback ==> r[e + 2] == ProbeCpu)
      && r[|r| - 2] == RemoveLog(handoff.logFile) && r[|r| - 1] == ProbeCpu
  {
  }

  /** Every command of a watched run: the sampler's upload and start, the start probe, the
      watched command, then the epilogue. */
  function MonitorSteps(handoff: Handoff, b: Benchmark, fallback: bool): seq<Command>
  {
    [UploadMonitor, StartMonitor, ProbeCpu, Watched(b)] + Epilogue(handoff, fallback)
  }

  /** The CPU figures read after the watched command, whose first reading command is the
      `at`-th: the average (or, when it does not read as a number, the fallback probe at
      `at + 2`), the peak (or else the average), and the closing probe after the clean-up. */
  function ReadCpu(w: World, read: Readers, at: nat): (r: (real, real, real))
  {
    var parsed := read.number(w.replies(at).stdout);
    var average := parsed.GetOr(Probe(read, w.replies(at + 2)));
    var peak := read.number(w.replies(at + 1).stdout).GetOr(average);
    var endCpu := Probe(read, w.replies(at + (if parsed.None? then 4 else 3)));
    (average, peak, endCpu)
  }

  /** `monitor_command_with_cpu` for benchmark command `b`, starting at command `at`: upload and
      start the sampler, take the start time and a probe, send the watched command, stop the
      sampler if it reported a process id, take the end time, read the CPU figures and build
      the record. The watched command is the fourth command sent, so its reply is
      `replies(at + 3)`. */
  function MonitorRun(w: World, read: Readers, at: nat, b: Benchmark, description: string): (r: Monitored)
    ensures |r.steps| >= 8 && r.steps[3] == Watched(b)
    ensures r.result.elapsedFormatted == FormatElapsed(r.result.elapsedSeconds)
  {
    var handoff := read.handoff(w.replies(at + 1).stdout);
    var startTime := w.clock(at + 2);
    var startCpu := Probe(read, w.replies(at + 2));
    var main := w.replies(at + 3);
    var endAt := if handoff.pid == "" then at + 4 else at + 5;
    var endTime := w.clock(endAt);
    var (average, peak, endCpu) := ReadCpu(w, read, endAt);
    var elapsed := endTime - startTime;
    var steps := MonitorSteps(handoff, b, read.number(w.replies(endAt).stdout).None?);
    Monitored(Record(description, elapsed, startCpu, endCpu, average, peak, main), steps)
  }

  /** The record of a watched command that took `elapsed` seconds and gave `main`: its exit
      code, and its output and error text each cut to their first 500 characters. */
  function Record(description: string, elapsed: real, startCpu: real, endCpu: real,
                  average: real, peak: real, main: Reply): (r: PhaseResult)
    ensures r.description == description && r.elapsedSeconds == elapsed
    ensures r.elapsedFormatted == FormatElapsed(elapsed)
    ensures r.exitCode == main.exitCode
    ensures r.stdout <= main.stdout && |r.stdout| <= 500
    ensures r.stderr <= main.stderr && |r.stderr| <= 500
    ensures |main.stdout| <= 500 ==> r.stdout == main.stdout
    ensures |main.stderr| <= 500 ==> r.stderr == main.stderr
    ensures |main.stdout| > 500 ==> |r.stdout| == 500
    ensures |main.stderr| > 500 ==> |r.stderr| == 500
  {
    PhaseResult(description, elapsed, FormatElapsed(elapsed), startCpu, endCpu, average, peak,
                main.exitCode, Take(main.stdout, 500), Take(main.stderr, 500))
  }

  /** The record of a watched command keeps its exit code, and its output and error text as
      prefixes of at most 500 characters, whole when they are no longer. */
  lemma MonitorRunOutput(w: World, read: Readers, at: nat, b: Benchmark, description: string)
    ensures var r := MonitorRun(w, read, at, b, description).result;
      var main := w.replies(at + 3);
      && r.description == description
      && r.exitCode == main.exitCode
      && r.stdout <= main.stdout && |r.stdout| <= 500
      && r.stderr <= main.stderr && |r.stderr| <= 500
      && (|main.stdout| <= 500 ==> r.stdout == main.stdout)
      && (|main.stderr| <= 500 ==> r.stderr == main.stderr)
  {
  }

  /** With the script's readers, the CPU figures read after a watched command are those of
      `get_cpu_usage` and the two fallbacks: the average or else a fresh probe, the peak or
      else the average, and the closing probe. */
  lemma ScriptReadCpu(w: World, at: nat)
    ensures var (average, peak, endCpu) := ReadCpu(w, ScriptReaders, at);
      && average == ReadOr(w.replies(at).stdout, ReadOr(w.replies(at + 2).stdout, 0.0))
      && peak == ReadOr(w.replies(at + 1).stdout, average)
      && endCpu == ReadOr(w.replies(at + (if PyFloat(w.replies(at).stdout).None? then 4 else 3)).stdout, 0.0)
  {
  }

  /** With the script's readers, the record's CPU figures are the start probe and the figures
      read once the sampler is stopped. */
  lemma MonitorRunReadings(w: World, at: nat, b: Benchmark, description: string)
    ensures var r := MonitorRun(w, ScriptReaders, at, b, description).result;
      var endAt := if ParseHandoff(w.replies(at + 1).stdout).pid == "" then at + 4 else at + 5;
      var averageText := w.replies(endAt).stdout;
      && r.startCpu == ReadOr(w.replies(at + 2).stdout, 0.0)
      && r.averageCpu == ReadOr(averageText, ReadOr(w.replies(endAt + 2).stdout, 0.0))
      && r.peakCpu == ReadOr(w.replies(endAt + 1).stdout, r.averageCpu)
      && r.endCpu == ReadOr(w.replies(endAt + (if PyFloat(averageText).None? then 4 else 3)).stdout, 0.0)
  {
    var r := MonitorRun(w, ScriptReaders, at, b, description).result;
    var endAt := if ParseHandoff(w.replies(at + 1).stdout).pid == "" then at + 4 else at + 5;
    MonitorRunCpu(w, ScriptReaders, at, b, description);
    var (average, peak, endCpu) := ReadCpu(w, ScriptReaders, endAt);
    ScriptReadCpu(w, endAt);
    assert r.startCpu == ReadOr(w.replies(at + 2).stdout, 0.0);
    assert r.averageCpu == average && r.peakCpu == peak && r.endCpu == endCpu;
  }

  /** The record's CPU figures are the probe before the watched command and the figures read
      once the sampler is stopped, whatever the readers. */
  lemma MonitorRunCpu(w: World, read: Readers, at: nat, b: Benchmark, description: string)
    ensures var r := MonitorRun(w, read, at, b, description).result;
      var endAt := if read.handoff(w.replies(at + 1).stdout).pid == "" then at + 4 else at + 5;
      && r.startCpu == Probe(read, w.replies(at + 2))
      && (r.averageCpu, r.peakCpu, r.endCpu) == ReadCpu(w, read, endAt)
  {
  }

  /** A watched command contributes exactly one phase: itself. */
  lemma MonitorRunPhases(w: World, read: Readers, at: nat, b: Benchmark, description: string)
    ensures Phases(MonitorRun(w, read, at, b, description).steps) == [b]
  {
    var handoff := read.handoff(w.replies(at + 1).stdout);
    var endAt := if handoff.pid == "" then at + 4 else at + 5;
    var prologue := [UploadMonitor, StartMonitor, ProbeCpu, Watched(b)];
    var epilogue := Epilogue(handoff, read.number(w.replies(endAt).stdout).None?);
    assert MonitorRun(w, read, at, b, description).steps == prologue + epilogue;
    PhasesAppend(prologue, epilogue);
    PhasesInstrument(epilogue);
    ProloguePhases(b);
  }

  /** The set-up before a watched command contributes the command alone. */
  lemma ProloguePhases(b: Benchmark)
    ensures Phases([UploadMonitor, StartMonitor, ProbeCpu, Watched(b)]) == [b]
  {
    var prologue := [UploadMonitor, StartMonitor, ProbeCpu, Watched(b)];
    assert prologue == [UploadMonitor, StartMonitor, ProbeCpu] + [Watched(b)];
    PhasesAppend([UploadMonitor, StartMonitor, ProbeCpu], [Watched(b)]);
    PhasesInstrument([UploadMonitor, StartMonitor, ProbeCpu]);
    assert Phases([Watched(b)]) == [b] + Phases([]);
  }

  /** The sampler is stopped exactly when it reported a process id: the command after the
      watched one is the stop command for that id, and otherwise the average program; a
      fallback probe is sent exactly when the average did not read as a number. */
  lemma MonitorRunStops(w: World, read: Readers, at: nat, b: Benchmark, description: string)
    ensures var handoff := read.handoff(w.replies(at + 1).stdout);
      var steps := MonitorRun(w, read, at, b, description).steps;
      var endAt := if handoff.pid == "" then at + 4 else at + 5;
      && |steps| > 4
      && (steps[4] == StopMonitor(handoff.pid) <==> handoff.pid != "")
      && (steps[4] == AverageLog(handoff.logFile) <==> handoff.pid == "")
      && (|steps| == endAt - at + 5 <==> read.number(w.replies(endAt).stdout).None?)
  {
  }

  /** The replies `ReadCpu` reads are those to the commands that produce them: the `k`-th
      command of a run gets `replies(at + k)`, the sampler's hand-off comes from the start-up
      script, the start probe precedes the watched command, the average and peak programs
      are the first two commands after the sampler is stopped, the fallback probe follows
      them, and the closing probe is the last command, right after the clean-up. */
  lemma MonitorRunAligned(w: World, read: Readers, at: nat, b: Benchmark, description: string)
    ensures var handoff := read.handoff(w.replies(at + 1).stdout);
      var steps := MonitorRun(w, read, at, b, description).steps;
      var e := if handoff.pid == "" then 4 else 5;
      var fallback := read.number(w.replies(at + e).stdout).None?;
      && |steps| == e + (if fallback then 5 else 4)
      && steps[1] == StartMonitor && steps[2] == ProbeCpu
      && steps[e] == AverageLog(handoff.logFile) && steps[e + 1] == PeakLog(handoff.logFile)
      && (fallback ==> steps[e + 2] == ProbeCpu)
      && steps[|steps| - 2] == RemoveLog(handoff.logFile)
      && steps[|steps| - 1] == ProbeCpu && |steps| - 1 == e + (if fallback then 4 else 3)
  {
    var handoff := read.handoff(w.replies(at + 1).stdout);
    var e := if handoff.pid == "" then 4 else 5;
    var fallback := read.number(w.replies(at + e).stdout).None?;
    assert MonitorRun(w, read, at, b, description).steps == MonitorSteps(handoff, b, fallback);
    MonitorStepsAligned(handoff, b, fallback);
  }

  /** Where each command of a watched run sits, by the handoff and the fallback. */
  lemma MonitorStepsAligned(handoff: Handoff, b: Benchmark, fallback: bool)
    ensures var steps := MonitorSteps(handoff, b, fallback);
      var e := if handoff.pid == "" then 4 else 5;
      && |steps| == e + (if fallback then 5 else 4)
      && steps[1] == StartMonitor && steps[2] == ProbeCpu
      && steps[e] == AverageLog(handoff.logFile) && steps[e + 1] == PeakLog(handoff.logFile)
      && (fallback ==> steps[e + 2] == ProbeCpu)
      && steps[|steps| - 2] == RemoveLog(handoff.logFile)
      && steps[|steps| - 1] == ProbeCpu && |steps| - 1 == e + (if fallback then 4 else 3)
  {
    EpilogueAligned(handoff, fallback);
  }

  /** The time a watched command took is measured around it alone: from the clock reading
      just before it to the one after the sampler was stopped, and its formatted minutes and
      seconds are those of the whole seconds elapsed. */
  lemma MonitorRunElapsed(w: World, read: Readers, at: nat, b: Benchmark, description: string)
    ensures var pid := read.handoff(w.replies(at + 1).stdout).pid;
      var r := MonitorRun(w, read, at, b, description).result;
      var endAt := if pid == "" then at + 4 else at + 5;
      && r.elapsedSeconds == w.clock(endAt) - w.clock(at + 2)
      && r.elapsedFormatted == FormatElapsed(r.elapsedSeconds)
  {
  }

  /** One step of a test: a benchmark command sent watched, through `monitor_command_with_cpu`,
      with the description of its record, or sent directly through `execute_sudo_command`. */
  datatype Action = Watch(benchmark: Benchmark, description: string) | Direct(benchmark: Benchmark)

  /** What one step leaves behind: a watched command's record or a direct command's reply. */
  datatype Outcome = Recorded(record: PhaseResult) | Replied(reply: Reply)

  /** The outcomes of a list of steps, one per step, and every command the steps sent. */
  datatype Run = Run(outcomes: seq<Outcome>, steps: seq<Command>)

  /** How a watched command is run, given the index of its first command, the benchmark
      command and the record's description. */
  type Watcher = (nat, Benchmark, string) -> Monitored

  /** The script's watcher: `monitor_command_with_cpu`. */
  function ScriptWatcher(w: World, read: Readers): Watcher
  {
    (at: nat, b: Benchmark, description: string) => MonitorRun(w, read, at, b, description)
  }

  /** A watcher whose runs contribute exactly the watched command to the phases. */
  ghost predicate OnePhaseEach(watch: Watcher)
  {
    forall at, b, description :: Phases(watch(at, b, description).steps) == [b]
  }

  /** A watcher whose records carry their description and cut output and error text to at
      most 500 characters. */
  ghost predicate KeepsOutput(watch: Watcher)
  {
    forall at, b, description ::
      var record := watch(at, b, description).result;
      record.description == description && |record.stdout| <= 500 && |record.stderr| <= 500
  }

  /** `monitor_command_with_cpu` contributes one phase and keeps its output cut, whatever
      the replies and the readers. */
  lemma ScriptWatcherFacts(w: World, read: Readers)
    ensures OnePhaseEach(ScriptWatcher(w, read)) && KeepsOutput(ScriptWatcher(w, read))
  {
    forall at, b, description
      ensures Phases(ScriptWatcher(w, read)(at, b, description).steps) == [b]
    {
      MonitorRunPhases(w, read, at, b, description);
    }
    forall at, b, description
      ensures var record := ScriptWatcher(w, read)(at, b, description).result;
        record.description == description && |record.stdout| <= 500 && |record.stderr| <= 500
    {
      MonitorRunOutput(w, read, at, b, description);
    }
  }

  /** One step, starting at command `at`: its outcome and the commands it sent. A direct
      command is sent alone, so its reply is `replies(at)`. */
  function Step(watch: Watcher, replies: nat -> Reply, at: nat, action: Action): (r: (Outcome, seq<Command>))
    ensures r.0.Recorded? <==> action.Watch?
  {
    match action
    case Watch(b, description) =>
      var m := watch(at, b, description);
      (Recorded(m.result), m.steps)
    case Direct(b) => (Replied(replies(at)), [Sudo(b)])
  }

  /** The steps run one after another, each starting where the previous one's commands end.
      No outcome stops the run. */
  function RunSteps(watch: Watcher, replies: nat -> Reply, at: nat, plan: seq<Action>): (r: Run)
    ensures |r.outcomes| == |plan|
    ensures forall i :: 0 <= i < |plan| ==> (r.outcomes[i].Recorded? <==> plan[i].Watch?)
    decreases |plan|
  {
    if plan == [] then Run([], [])
    else
      var (outcome, sent) := Step(watch, replies, at, plan[0]);
      var rest := RunSteps(watch, replies, at + |sent|, plan[1..]);
      Run([outcome] + rest.outcomes, sent + rest.steps)
  }

  /** The benchmark commands of a list of steps, in order. */
  function Planned(plan: seq<Action>): (r: seq<Benchmark>)
    ensures |r| == |plan|
  {
    seq(|plan|, i requires 0 <= i < |plan| => plan[i].benchmark)
  }

  /** Each step contributes exactly its own benchmark command to the phases. */
  lemma StepPhases(watch: Watcher, replies: nat -> Reply, at: nat, action: Action)
    requires OnePhaseEach(watch)
    ensures Phases(Step(watch, replies, at, action).1) == [action.benchmark]
  {
    match action
    case Watch(b, description) =>
    case Direct(b) =>
      assert Phases([Sudo(b)]) == [b] + Phases([]);
  }

  /** Whatever the replies, the steps send their benchmark commands in the planned order. */
  lemma {:induction false} RunStepsPhases(watch: Watcher, replies: nat -> Reply, at: nat, plan: seq<Action>)
    requires OnePhaseEach(watch)
    ensures Phases(RunSteps(watch, replies, at, plan).steps) == Planned(plan)
    decreases |plan|
  {
    if plan != [] {
      var (outcome, sent) := Step(watch, replies, at, plan[0]);
      var rest := RunSteps(watch, replies, at + |sent|, plan[1..]);
      StepPhases(watch, replies, at, plan[0]);
      RunStepsPhases(watch, replies, at + |sent|, plan[1..]);
      PhasesAppend(sent, rest.steps);
      PlannedFirst(plan);
    }
  }

  /** The planned phases are the first step's benchmark command followed by the rest's. */
  lemma PlannedFirst(plan: seq<Action>)
    requires plan != []
    ensures Planned(plan) == [plan[0].benchmark] + Planned(plan[1..])
  {
    var rest := Planned(plan[1..]);
    forall i | 0 <= i < |plan|
      ensures Planned(plan)[i] == ([plan[0].benchmark] + rest)[i]
    {
      if i > 0 {
        assert rest[i - 1] == plan[1..][i - 1].benchmark;
      }
    }
  }

  /** A run's outcomes are its first step's outcome followed by the rest's. */
  lemma RunStepsFront(watch: Watcher, replies: nat -> Reply, at: nat, plan: seq<Action>)
    requires plan != []
    ensures var first := Step(watch, replies, at, plan[0]);
      RunSteps(watch, replies, at, plan).outcomes
        == [first.0] + RunSteps(watch, replies, at + |first.1|, plan[1..]).outcomes
  {
  }

  /** Each watched step's record carries that step's description, and its output and error
      text cut to at most 500 characters. */
  lemma RunStepsRecords(watch: Watcher, replies: nat -> Reply, at: nat, plan: seq<Action>)
    requires KeepsOutput(watch)
    ensures var r := RunSteps(watch, replies, at, plan);
      forall i :: 0 <= i < |plan| && plan[i].Watch? ==>
        && r.outcomes[i].record.description == plan[i].description
        && |r.outcomes[i].record.stdout| <= 500 && |r.outcomes[i].record.stderr| <= 500
  {
    var r := RunSteps(watch, replies, at, plan);
    forall i | 0 <= i < |plan| && plan[i].Watch?
      ensures r.outcomes[i].record.description == plan[i].description
      ensures |r.outcomes[i].record.stdout| <= 500 && |r.outcomes[i].record.stderr| <= 500
    {
      RunStepsOutcomeAt(watch, replies, at, plan, i);
      StepRecord(watch, replies, StepStart(watch, replies, at, plan, i), plan[i]);
    }
  }

  /** The index of the first command of step `i`: each step starts where the previous one's
      commands end. */
  function StepStart(watch: Watcher, replies: nat -> Reply, at: nat, plan: seq<Action>, i: nat): nat
    requires i < |plan|
    decreases i
  {
    if i == 0 then at
    else StepStart(watch, replies, at + |Step(watch, replies, at, plan[0]).1|, plan[1..], i - 1)
  }

  /** Past the first step, the steps start where the first one's commands end. */
  lemma StepStartNext(watch: Watcher, replies: nat -> Reply, at: nat, plan: seq<Action>, i: nat)
    requires 0 < i < |plan|
    ensures StepStart(watch, replies, at, plan, i)
      == StepStart(watch, replies, at + |Step(watch, replies, at, plan[0]).1|, plan[1..], i - 1)
  {
  }

  /** Step `i`'s outcome is that step run from its own first command. */
  lemma {:induction false} RunStepsOutcomeAt(watch: Watcher, replies: nat -> Reply, at: nat, plan: seq<Action>, i: nat)
    requires i < |plan|
    ensures RunSteps(watch, replies, at, plan).outcomes[i]
      == Step(watch, replies, StepStart(watch, replies, at, plan, i), plan[i]).0
    decreases i
  {
    if i > 0 {
      var next := at + |Step(watch, replies, at, plan[0]).1|;
      var rest := RunSteps(watch, replies, next, plan[1..]);
      RunStepsFront(watch, replies, at, plan);
      assert RunSteps(watch, replies, at, plan).outcomes[i] == rest.outcomes[i - 1];
      RunStepsOutcomeAt(watch, replies, next, plan[1..], i - 1);
      assert plan[1..][i - 1] == plan[i];
      StepStartNext(watch, replies, at, plan, i);
    } else {
      RunStepsFront(watch, replies, at, plan);
    }
  }

  /** A watched step's record is its watcher's, so it keeps the step's description and cuts
      its output. */
  lemma StepRecord(watch: Watcher, replies: nat -> Reply, at: nat, action: Action)
    requires KeepsOutput(watch) && action.Watch?
    ensures var record := Step(watch, replies, at, action).0.record;
      && record.description == action.description
      && |record.stdout| <= 500 && |record.stderr| <= 500
  {
    var record := watch(at, action.benchmark, action.description).result;
    assert Step(watch, replies, at, action).0.record == record;
  }

  /** The steps of `run_test_sequence` for target `targetSize` and scale factor `scaleFactor`:
      fill (watched), size query, full backup (watched), stop, wipe, restore (watched),
      start. Only the fill, the backup and the restore run under the sampler; the other four
      go straight to `execute_sudo_command`. */
  function TestPlan(settings: Settings, scaleFactor: int, targetSize: string): (r: seq<Action>)
    ensures |r| == 7
    ensures forall i :: 0 <= i < |r| ==> (r[i].Watch? <==> i == 0 || i == 2 || i == 5)
  {
    [Watch(Fill(scaleFactor), "資料填充 (" + targetSize + ")"),
     Direct(SizeQuery),
     Watch(FullBackup(settings.processMax, settings.archiveTimeout), "備份 (" + targetSize + ")"),
     Direct(StopService),
     Direct(WipeData),
     Watch(Restore, "還原 (" + targetSize + ")"),
     Direct(StartService)]
  }

  /** The phases every test sends, in order, whatever the replies: fill, size query, backup,
      stop, wipe, restore and start. */
  function ExpectedPhases(settings: Settings, scaleFactor: int): seq<Benchmark>
  {
    [Fill(scaleFactor), SizeQuery, FullBackup(settings.processMax, settings.archiveTimeout),
     StopService, WipeData, Restore, StartService]
  }

  /** The database size the record keeps: the size query's output when it succeeded (from
      which the script extracts the `pg_size_pretty` figure), or the failure marker. */
  datatype SizeReading = SizeOutput(stdout: string) | SizeFailed

  /** The record `run_test_sequence` appends to `results`. */
  datatype TestResult = TestResult(
    targetSize: string,
    scaleFactor: int,
    timestamp: string,
    steps: seq<PhaseResult>,
    databaseSize: SizeReading,
    backupTime: real,
    backupAverageCpu: real,
    backupPeakCpu: real,
    restoreTime: real,
    restoreAverageCpu: real,
    restorePeakCpu: real)

  /** A test's record together with the commands it sent. */
  datatype Sequenced = Sequenced(result: TestResult, steps: seq<Command>)

  /** The size reading from the size query's reply. */
  function SizeFrom(reply: Reply): (r: SizeReading)
    ensures r == SizeOutput(reply.stdout) <==> reply.exitCode == 0
    ensures r == SizeFailed <==> reply.exitCode != 0
  {
    if reply.exitCode == 0 then SizeOutput(reply.stdout) else SizeFailed
  }

  /** `run_test_sequence` for one configuration, starting at command `at`. No reply stops the
      sequence: a failed step is only reported, and the next one is sent. The record keeps
      the three watched commands' records, in order, and the backup's and restore's time and
      CPU figures. */
  function RunTestSequence(watch: Watcher, w: World, settings: Settings, at: nat, scaleFactor: int, targetSize: string): (r: Sequenced)
    ensures r.result.targetSize == targetSize && r.result.scaleFactor == scaleFactor
    ensures r.result.timestamp == w.timestamp(at)
    ensures |r.result.steps| == 3
    ensures r.result.backupTime == r.result.steps[1].elapsedSeconds
    ensures r.result.backupAverageCpu == r.result.steps[1].averageCpu
    ensures r.result.backupPeakCpu == r.result.steps[1].peakCpu
    ensures r.result.restoreTime == r.result.steps[2].elapsedSeconds
    ensures r.result.restoreAverageCpu == r.result.steps[2].averageCpu
    ensures r.result.restorePeakCpu == r.result.steps[2].peakCpu
  {
    var run := RunSteps(watch, w.replies, at, TestPlan(settings, scaleFactor, targetSize));
    var fill := run.outcomes[0].record;
    var backup := run.outcomes[2].record;
    var restore := run.outcomes[5].record;
    var result := TestResult(targetSize, scaleFactor, w.timestamp(at), [fill, backup, restore],
                             SizeFrom(run.outcomes[1].reply),
                             backup.elapsedSeconds, backup.averageCpu, backup.peakCpu,
                             restore.elapsedSeconds, restore.averageCpu, restore.peakCpu);
    Sequenced(result, run.steps)
  }

  /** Every test sends the seven phases in their fixed order, whatever the replies: a failed
      fill or backup is still followed by the stop, the wipe, the restore and the restart. */
  lemma RunTestSequencePhases(watch: Watcher, w: World, settings: Settings, at: nat, scaleFactor: int, targetSize: string)
    requires OnePhaseEach(watch)
    ensures Phases(RunTestSequence(watch, w, settings, at, scaleFactor, targetSize).steps) == ExpectedPhases(settings, scaleFactor)
  {
    var plan := TestPlan(settings, scaleFactor, targetSize);
    RunStepsPhases(watch, w.replies, at, plan);
    TestPlanned(settings, scaleFactor, targetSize);
    assert RunTestSequence(watch, w, settings, at, scaleFactor, targetSize).steps == RunSteps(watch, w.replies, at, plan).steps;
  }

  /** The test's plan lists the expected phases in their order. */
  lemma TestPlanned(settings: Settings, scaleFactor: int, targetSize: string)
    ensures Planned(TestPlan(settings, scaleFactor, targetSize)) == ExpectedPhases(settings, scaleFactor)
  {
    var plan := TestPlan(settings, scaleFactor, targetSize);
    assert forall i :: 0 <= i < 7 ==> Planned(plan)[i] == ExpectedPhases(settings, scaleFactor)[i];
  }

  /** The three records are the fill's, the backup's and the restore's, each with its output
      and error text cut to at most 500 characters. */
  lemma RunTestSequenceRecords(watch: Watcher, w: World, settings: Settings, at: nat, scaleFactor: int, targetSize: string)
    requires KeepsOutput(watch)
    ensures var steps := RunTestSequence(watch, w, settings, at, scaleFactor, targetSize).result.steps;
      && steps[0].description == "資料填充 (" + targetSize + ")"
      && steps[1].description == "備份 (" + targetSize + ")"
      && steps[2].description == "還原 (" + targetSize + ")"
      && forall i :: 0 <= i < |steps| ==> |steps[i].stdout| <= 500 && |steps[i].stderr| <= 500
  {
    var plan := TestPlan(settings, scaleFactor, targetSize);
    RunStepsRecords(watch, w.replies, at, plan);
  }

  /** The size is recorded from the size query's reply, which is the one after the fill's
      commands: its output on success, the failure marker otherwise. */
  lemma DatabaseSizeFromQuery(watch: Watcher, w: World, settings: Settings, at: nat, scaleFactor: int, targetSize: string)
    ensures var fill := watch(at, Fill(scaleFactor), "資料填充 (" + targetSize + ")");
      var reply := w.replies(at + |fill.steps|);
      var r := RunTestSequence(watch, w, settings, at, scaleFactor, targetSize);
      && |fill.steps| < |r.steps| && r.steps[|fill.steps|] == Sudo(SizeQuery)
      && (r.result.databaseSize == SizeOutput(reply.stdout) <==> reply.exitCode == 0)
      && (r.result.databaseSize == SizeFailed <==> reply.exitCode != 0)
  {
    var plan := TestPlan(settings, scaleFactor, targetSize);
    var fill := watch(at, Fill(scaleFactor), "資料填充 (" + targetSize + ")");
    var rest := RunSteps(watch, w.replies, at + |fill.steps|, plan[1..]);
    assert RunSteps(watch, w.replies, at, plan).steps == fill.steps + rest.steps;
    assert RunSteps(watch, w.replies, at, plan).outcomes[1] == rest.outcomes[0];
    assert plan[1..][0] == Direct(SizeQuery);
  }

  /** The commands the script writes with a leading `sudo` keep it once stripped. */
  lemma SudoLine(s: string)
    requires StartsWith(s, "sudo") && !IsSpace(s[|s| - 1])
    ensures StartsWith(Strip(s), "sudo")
  {
    assert s[0] == s[..4][0];
    StripUnpadded(s);
  }

  /** Each watched command begins with `sudo`, so it is sent through `execute_sudo_command`,
      which adds a `sudo` of its own in front. Every phase, watched or not, is therefore run
      through the sudo wrapper. */
  lemma PhasesUseSudo(password: Option<string>, b: Benchmark)
    requires b.Fill? || b.FullBackup? || b.Restore?
    ensures Sent(password, Watched(b)) == SudoWrap(password, Line(b))
  {
    match b
    case Fill(scaleFactor) =>
      var rest := " -u postgres pgbench -i -s " + IntToString(scaleFactor) + " -p 5433 postgres";
      AppendParts("sudo", rest);
      AppendParts(" -u postgres pgbench -i -s " + IntToString(scaleFactor), " -p 5433 postgres");
      EndsWithLast(rest, " -p 5433 postgres");
      EndsWithLast(Line(b), rest);
      SudoLine(Line(b));
    case FullBackup(processMax, archiveTimeout) =>
      var line := BackupCommand.Command(processMax, archiveTimeout);
      AppendParts("sudo", " -u postgres pgbackrest --stanza=test-backup --type=full");
      StartsWithTrans(line, BackupCommand.BackupPrefix, "sudo");
      EndsWithLast(line, " backup");
      SudoLine(line);
    case Restore =>
      AppendParts("sudo", " -u postgres pgbackrest --stanza=test-backup restore");
      EndsWithLast(Line(b), " -u postgres pgbackrest --stanza=test-backup restore");
      SudoLine(Line(b));
  }

  /** The stop command is sent as `kill <pid> ...` for the reported id. */
  lemma StopMonitorSent(password: Option<string>, pid: string)
    requires pid != ""
    ensures StartsWith(Sent(password, StopMonitor(pid)), "kill " + pid)
  {
  }

  /** How one test is run, given the index of its first command, the scale factor and the
      target size label. */
  type Tester = (nat, int, string) -> Sequenced

  /** The script's tester: `run_test_sequence`. */
  function ScriptTester(w: World, read: Readers, settings: Settings): Tester
  {
    (at: nat, scaleFactor: int, targetSize: string) => RunTestSequence(ScriptWatcher(w, read), w, settings, at, scaleFactor, targetSize)
  }

  /** A tester whose every test sends the seven phases in their fixed order. */
  ghost predicate SevenPhasesEach(test: Tester, settings: Settings)
  {
    forall at, scaleFactor, targetSize ::
      Phases(test(at, scaleFactor, targetSize).steps) == ExpectedPhases(settings, scaleFactor)
  }

  /** A tester whose records carry the configuration they were run for. */
  ghost predicate LabelsEach(test: Tester)
  {
    forall at, scaleFactor, targetSize ::
      var result := test(at, scaleFactor, targetSize).result;
      result.scaleFactor == scaleFactor && result.targetSize == targetSize
  }

  /** `run_test_sequence` sends the seven phases and labels its record, whatever the
      replies and the readers. */
  lemma ScriptTesterFacts(w: World, read: Readers, settings: Settings)
    ensures SevenPhasesEach(ScriptTester(w, read, settings), settings)
    ensures LabelsEach(ScriptTester(w, read, settings))
  {
    ScriptWatcherFacts(w, read);
    forall at, scaleFactor, targetSize
      ensures Phases(ScriptTester(w, read, settings)(at, scaleFactor, targetSize).steps)
        == ExpectedPhases(settings, scaleFactor)
    {
      RunTestSequencePhases(ScriptWatcher(w, read), w, settings, at, scaleFactor, targetSize);
    }
  }

  /** The test loop of `main`: one test per configuration (scale factor and target size
      label), in order, each appending one record to `results`. */
  function RunTests(test: Tester, at: nat, configs: seq<Sizes.TestConfig>, results: seq<TestResult>): (r: (seq<TestResult>, seq<Command>))
    ensures |r.0| == |results| + |configs|
    ensures r.0[..|results|] == results
    decreases |configs|
  {
    if configs == [] then (results, [])
    else
      var current := test(at, configs[0].scaleFactor, configs[0].targetSize);
      var (rest, steps) := RunTests(test, at + |current.steps|, configs[1..], results + [current.result]);
      assert rest[..|results|] == rest[..|results| + 1][..|results|];
      (rest, current.steps + steps)
  }

  /** The record appended for each configuration is that configuration's. */
  lemma {:induction false} RunTestsRecords(test: Tester, at: nat, configs: seq<Sizes.TestConfig>, results: seq<TestResult>)
    requires LabelsEach(test)
    ensures var r := RunTests(test, at, configs, results).0;
      forall i :: 0 <= i < |configs| ==>
        r[|results| + i].scaleFactor == configs[i].scaleFactor && r[|results| + i].targetSize == configs[i].targetSize
    decreases |configs|
  {
    if configs != [] {
      var current := test(at, configs[0].scaleFactor, configs[0].targetSize);
      var r := RunTests(test, at, configs, results).0;
      RunTestsRecords(test, at + |current.steps|, configs[1..], results + [current.result]);
      forall i | 0 <= i < |configs|
        ensures r[|results| + i].scaleFactor == configs[i].scaleFactor && r[|results| + i].targetSize == configs[i].targetSize
      {
        if i > 0 {
          assert configs[i] == configs[1..][i - 1];
          assert |results| + i == |results + [current.result]| + (i - 1);
        } else {
          assert r[|results|] == r[..|results| + 1][|results|];
        }
      }
    }
  }

  /** The phases of the configurations' tests, seven after seven. */
  function AllPhases(settings: Settings, configs: seq<Sizes.TestConfig>): (r: seq<Benchmark>)
    ensures |r| == 7 * |configs|
  {
    if configs == [] then [] else ExpectedPhases(settings, configs[0].scaleFactor) + AllPhases(settings, configs[1..])
  }

  /** Whatever the replies, the test loop sends each configuration's seven phases in turn. */
  lemma {:induction false} RunTestsPhases(test: Tester, settings: Settings, at: nat, configs: seq<Sizes.TestConfig>, results: seq<TestResult>)
    requires SevenPhasesEach(test, settings)
    ensures Phases(RunTests(test, at, configs, results).1) == AllPhases(settings, configs)
    decreases |configs|
  {
    if configs != [] {
      var current := test(at, configs[0].scaleFactor, configs[0].targetSize);
      var next := at + |current.steps|;
      RunTestsPhases(test, settings, next, configs[1..], results + [current.result]);
      PhasesAppend(current.steps, RunTests(test, next, configs[1..], results + [current.result]).1);
    }
  }

  /** The script's test loop, from its first command with no records yet, sends the seven
      phases of each configuration in turn and appends one record per configuration, labelled
      with that configuration. */
  lemma TestLoop(w: World, read: Readers, settings: Settings, configs: seq<Sizes.TestConfig>)
    ensures var (results, steps) := RunTests(ScriptTester(w, read, settings), 0, configs, []);
      && Phases(steps) == AllPhases(settings, configs)
      && |results| == |configs|
      && forall i :: 0 <= i < |configs| ==>
        results[i].scaleFactor == configs[i].scaleFactor && results[i].targetSize == configs[i].targetSize
  {
    ScriptTesterFacts(w, read, settings);
    RunTestsPhases(ScriptTester(w, read, settings), settings, 0, configs, []);
    RunTestsRecords(ScriptTester(w, read, settings), 0, configs, []);
  }
}
