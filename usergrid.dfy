/**
 * The local Usergrid service: start launches the jar in the background and
 * watches its log for the started or failed marker, stop signals the
 * recorded process until it is gone, pid reports the recorded process id.
 * The pid file is an object whose content the commands change in place; the
 * log lines, the start timeout, the spawned process id and what each kill
 * reports are oracles.
 */
module Usergrid {
  import opened Wrappers
  import opened Js
  import opened Cli

  const StartDetect := "[HttpServer] Started."
  const FailedStartDetect := "unable to start"
  const NotRunning := "Usergrid doesn't appear to be running"

  // ---------------------------------------------------------------------
  // The pid file.

  /**
   * What the pid file holds: nothing, some text, or a read error other than
   * "not found" (its code). `Unreadable` never carries "ENOENT": a missing
   * file is `Absent`, which readPid turns into null.
   */
  datatype PidContent = Absent | Present(text: string) | Unreadable(code: string)

  /** `readPid()` on the file's content: its text, null when there is no file, and other read errors thrown. */
  function PidRead(content: PidContent): Result<Option<string>> {
    match content
    case Absent => Ok(None)
    case Present(text) => Ok(Some(text))
    case Unreadable(code) => Err(code)
  }

  class PidFile {
    var content: PidContent

    constructor(content: PidContent)
      ensures this.content == content
    {
      this.content := content;
    }

    /** `readPid()`. */
    method ReadPid() returns (pid: Result<Option<string>>)
      ensures pid == PidRead(content)
    {
      pid := PidRead(content);
    }

    /** `writePid(pid)`: the pid in decimal replaces whatever the file held. */
    method WritePid(pid: int)
      modifies this
      ensures content == Present(IntToString(pid))
    {
      content := Present(IntToString(pid));
    }

    /** `deletePid()`: unlinking a file that is not there throws ENOENT. */
    method DeletePid() returns (thrown: Option<string>)
      modifies this
      ensures content == Absent
      ensures thrown == if old(content).Absent? then Some("ENOENT") else None
    {
      thrown := if content.Absent? then Some("ENOENT") else None;
      content := Absent;
    }
  }

  /** The pid written by start reads back as the same digits, which parse to the same number. */
  lemma PidRoundTrip(pid: nat)
    ensures PidRead(Present(IntToString(pid))).Ok?
    ensures PidRead(Present(IntToString(pid))).value.Some?
    ensures ParseNat(PidRead(Present(IntToString(pid))).value.value) == pid
  {
    ParseNatToString(pid);
  }

  /** `printPid(options, cb)`: the recorded pid, or the not-running message for a missing or empty file; read errors are thrown. */
  function PrintPid(content: PidContent): (r: Result<Completion>)
    ensures r.Err? <==> content.Unreadable?
    ensures r.Ok? ==> r.value.err.None?
    ensures content.Present? && content.text != "" ==> r == Ok(Completion(None, Str(content.text)))
    ensures content.Absent? || content == Present("") ==> r == Ok(Completion(None, Str(NotRunning)))
  {
    match PidRead(content)
    case Err(code) => Err(code)
    case Ok(pid) => if !Named(pid) then Ok(Completion(None, Str(NotRunning))) else Ok(Completion(None, Str(pid.value)))
  }

  /** After start has written a pid, pid reports exactly that pid. */
  lemma PrintPidAfterWrite(pid: nat)
    ensures PrintPid(Present(IntToString(pid))) == Ok(Completion(None, Str(IntToString(pid))))
  {
  }

  // ---------------------------------------------------------------------
  // start and when.

  /** The java arguments: `-jar` and the jar file before a copy of the configured start options. */
  function StartArgs(jarFile: string, startOptions: seq<string>): (args: seq<string>)
    ensures |args| == |startOptions| + 2
    ensures args[0] == "-jar" && args[1] == jarFile
    ensures args[2..] == startOptions
  {
    ["-jar", jarFile] + startOptions
  }

  datatype LineKind = StartedLine | FailedLine | OtherLine

  /** How when's line handler reads one log line: success is looked for first, the error only when it is non-empty. */
  function Classify(line: string, success: string, error: string): (k: LineKind)
    ensures k == StartedLine <==> Contains(line, success)
    ensures k == FailedLine <==> !Contains(line, success) && error != "" && Contains(line, error)
  {
    if IndexOf(line, success) != -1 then StartedLine
    else if error != "" && IndexOf(line, error) != -1 then FailedLine
    else OtherLine
  }

  /** A line that names both markers counts as a successful start. */
  lemma StartedMarkerWins(line: string)
    requires Contains(line, StartDetect) && Contains(line, FailedStartDetect)
    ensures Classify(line, StartDetect, FailedStartDetect) == StartedLine
  {
  }

  /** The first line that decides the start, or -1 when none does. */
  function FirstDecisive(lines: seq<string>, success: string, error: string): (k: int)
    ensures -1 <= k < |lines|
    ensures k >= 0 ==> Classify(lines[k], success, error) != OtherLine
    ensures forall j :: 0 <= j < |lines| && (k == -1 || j < k) ==> Classify(lines[j], success, error) == OtherLine
    decreases |lines|
  {
    if lines == [] then -1
    else if Classify(lines[0], success, error) != OtherLine then 0
    else
      var k := FirstDecisive(lines[1..], success, error);
      if k == -1 then -1 else k + 1
  }

  /** One call of when's callback: its error (None for success) and the line that decided it, if any. */
  datatype WhenCall = WhenCall(err: Option<string>, line: Option<string>)

  const TimedOut := WhenCall(Some("timeout"), None)

  /** The callback for the deciding line: no error for the success marker, "error" for the failure marker. */
  function Decided(line: string, kind: LineKind): WhenCall {
    WhenCall(if kind == StartedLine then None else Some("error"), Some(line))
  }

  /**
   * `when(success, error, cb)` over the log lines the tail reports, in order.
   * The timeout fires once `timeoutAt` lines have arrived (after the last one
   * when fewer arrive) unless a deciding line has cleared it first. Firing
   * does not stop the watch, so a later deciding line calls back again.
   */
  method When(success: string, error: string, lines: seq<string>, timeoutAt: nat) returns (calls: seq<WhenCall>)
    ensures var k := FirstDecisive(lines, success, error);
      if k == -1 then calls == [TimedOut]
      else if timeoutAt <= k then calls == [TimedOut, Decided(lines[k], Classify(lines[k], success, error))]
      else calls == [Decided(lines[k], Classify(lines[k], success, error))]
  {
    calls := [];
    var timerSet := true;
    var i := 0;
    while i < |lines|
      invariant 0 <= i <= |lines|
      invariant forall j :: 0 <= j < i ==> Classify(lines[j], success, error) == OtherLine
      invariant timerSet == (i <= timeoutAt)
      invariant calls == if timeoutAt < i then [TimedOut] else []
      decreases |lines| - i
    {
      if timerSet && timeoutAt == i {
        calls := calls + [TimedOut];
        timerSet := false;
      }
      var kind := Classify(lines[i], success, error);
      if kind != OtherLine {
        calls := calls + [Decided(lines[i], kind)];
        return;
      }
      i := i + 1;
    }
    if timerSet {
      calls := calls + [TimedOut];
    }
  }

  /** The reply start gives for one call of when's callback. */
  function StartReply(call: WhenCall, pid: nat): Completion {
    if call.err.Some? then Completion(call.err, Undefined)
    else Completion(None, Str("started. (" + IntToString(pid) + ")"))
  }

  /**
   * `start(options, cb)`: spawns java with the start arguments and, when the
   * log shows the success marker, records the spawned pid and replies
   * "started. (<pid>)"; the failure marker and the timeout reply with an
   * error.
   */
  method Start(file: PidFile, jarFile: string, startOptions: seq<string>, pid: nat, lines: seq<string>, timeoutAt: nat)
    returns (args: seq<string>, calls: seq<Completion>)
    modifies file
    ensures args == StartArgs(jarFile, startOptions)
    ensures var k := FirstDecisive(lines, StartDetect, FailedStartDetect);
      var started := k >= 0 && Classify(lines[k], StartDetect, FailedStartDetect) == StartedLine;
      file.content == (if started then Present(IntToString(pid)) else old(file.content))
    ensures 1 <= |calls| <= 2
    ensures forall i :: 0 <= i < |calls| ==> (calls[i].err.None? <==> calls[i] == Completion(None, Str("started. (" + IntToString(pid) + ")")))
    ensures |calls| == 2 ==> calls[0] == Completion(Some("timeout"), Undefined)
    ensures var k := FirstDecisive(lines, StartDetect, FailedStartDetect);
      var timedOut := Completion(Some("timeout"), Undefined);
      var verdict := if k >= 0 && Classify(lines[k], StartDetect, FailedStartDetect) == StartedLine
        then Completion(None, Str("started. (" + IntToString(pid) + ")"))
        else Completion(Some("error"), Undefined);
      calls == if k == -1 then [timedOut] else if timeoutAt <= k then [timedOut, verdict] else [verdict]
  {
    args := StartArgs(jarFile, startOptions);
    var decided := When(StartDetect, FailedStartDetect, lines, timeoutAt);
    calls := [];
    var i := 0;
    while i < |decided|
      invariant 0 <= i <= |decided|
      invariant |calls| == i
      invariant forall j :: 0 <= j < i ==> calls[j] == StartReply(decided[j], pid)
      invariant file.content == if exists j :: 0 <= j < i && decided[j].err.None? then Present(IntToString(pid)) else old(file.content)
    {
      if decided[i].err.None? {
        file.WritePid(pid);
      }
      calls := calls + [StartReply(decided[i], pid)];
      i := i + 1;
    }
    var k := FirstDecisive(lines, StartDetect, FailedStartDetect);
    if k >= 0 {
      assert decided[|decided| - 1] == Decided(lines[k], Classify(lines[k], StartDetect, FailedStartDetect));
    }
  }

  // ---------------------------------------------------------------------
  // stop.

  datatype Signal = SigTerm | SigKill

  /** What `process.kill` did: delivered the signal, or threw an error with this code. */
  datatype KillResult = Delivered | KillFailed(code: string)

  /** One call of `process.kill`: the attempt it belongs to, the pid read for it and the signal. */
  datatype Kill = Kill(attempt: nat, pid: Option<string>, signal: Signal)

  /** The signal of stop's attempt `i`: SIGTERM for the first eight, SIGKILL for the ninth. */
  function ScheduledSignal(i: nat): Signal {
    if i < 8 then SigTerm else SigKill
  }

  /**
   * The signals stop sends, in order: one SIGTERM at once, then a SIGTERM on
   * every interval tick, and after the tick that finds its counter above 5
   * the interval is cleared and a SIGKILL follows.
   */
  method StopSchedule() returns (signals: seq<Signal>)
    ensures |signals| == 9
    ensures forall i :: 0 <= i < 9 ==> signals[i] == ScheduledSignal(i)
  {
    signals := [SigTerm];
    var count := 0;
    var cleared := false;
    while !cleared
      invariant 0 <= count <= 7
      invariant !cleared ==> count <= 6
      invariant cleared ==> count == 7
      invariant |signals| == 1 + count + (if cleared then 1 else 0)
      invariant forall i :: 0 <= i < 1 + count ==> signals[i] == SigTerm
      invariant cleared ==> signals[1 + count] == SigKill
      decreases 7 - count
    {
      signals := signals + [SigTerm];
      var ticked := count;
      count := count + 1;
      if ticked > 5 {
        cleared := true;
        signals := signals + [SigKill];
      }
    }
  }

  /** The error code stopit's catch sees on attempt `attempt`: from reading the pid, or from the kill. */
  function CaughtCode(content: PidContent, kill: (nat, Option<string>, Signal) -> KillResult, attempt: nat, signal: Signal): Option<string> {
    match PidRead(content)
    case Err(code) => Some(code)
    case Ok(pid) =>
      match kill(attempt, pid, signal)
      case Delivered => None
      case KillFailed(code) => Some(code)
  }

  const StoppedReply := Completion(None, Str("stopped"))

  /**
   * `stopit(term)`: signals the pid the file holds now. When the catch sees
   * ESRCH the pid file is deleted and the callback gets "stopped"; any
   * other error is swallowed. Deleting a pid file that is already gone
   * throws out of the catch.
   */
  method StopIt(file: PidFile, kill: (nat, Option<string>, Signal) -> KillResult, attempt: nat, signal: Signal)
    returns (sent: Option<Kill>, stopped: bool, thrown: Option<string>)
    modifies file
    ensures var read := PidRead(old(file.content));
      sent == if read.Ok? then Some(Kill(attempt, read.value, signal)) else None
    ensures if CaughtCode(old(file.content), kill, attempt, signal) == Some("ESRCH") then
        file.content == Absent && (stopped <==> !old(file.content).Absent?)
        && thrown == (if old(file.content).Absent? then Some("ENOENT") else None)
      else file.content == old(file.content) && !stopped && thrown.None?
  {
    var read := file.ReadPid();
    var code: Option<string>;
    if read.Err? {
      sent, code := None, Some(read.error);
    } else {
      sent := Some(Kill(attempt, read.value, signal));
      match kill(attempt, read.value, signal)
      case Delivered => code := None;
      case KillFailed(c) => code := Some(c);
    }
    stopped, thrown := false, None;
    if code == Some("ESRCH") {
      thrown := file.DeletePid();
      stopped := thrown.None?;
    }
  }

  /** "stopped" is among the replies at most once. */
  predicate StoppedAtMostOnce(calls: seq<Completion>) {
    forall i, j :: 0 <= i < j < |calls| && calls[i] == StoppedReply ==> calls[j] != StoppedReply
  }

  lemma StoppedOnce(calls: seq<Completion>)
    requires StoppedAtMostOnce(calls) && StoppedReply !in calls
    ensures StoppedAtMostOnce(calls + [StoppedReply])
  {
    var next := calls + [StoppedReply];
    forall i | 0 <= i < |calls| ensures next[i] != StoppedReply {
      assert next[i] == calls[i];
    }
  }

  /** What stop has done so far: the pid file's content, the replies, the kills sent and the error thrown, if any. */
  datatype StopState = StopState(content: PidContent, calls: seq<Completion>, sent: seq<Kill>, thrown: Option<string>)

  /** One `stopit` on attempt `attempt`, as StopIt does it; once an error was thrown nothing more happens. */
  function StopStep(s: StopState, kill: (nat, Option<string>, Signal) -> KillResult, attempt: nat): StopState {
    if s.thrown.Some? then s
    else
      var signal := ScheduledSignal(attempt);
      var read := PidRead(s.content);
      var sent := if read.Ok? then s.sent + [Kill(attempt, read.value, signal)] else s.sent;
      if CaughtCode(s.content, kill, attempt, signal) != Some("ESRCH") then s.(sent := sent)
      else if s.content.Absent? then StopState(Absent, s.calls, sent, Some("ENOENT"))
      else StopState(Absent, s.calls + [StoppedReply], sent, None)
  }

  /** The first `n` attempts of stop, from `s`. */
  function StopAttempts(s: StopState, kill: (nat, Option<string>, Signal) -> KillResult, n: nat): StopState
    decreases n
  {
    if n == 0 then s else StopStep(StopAttempts(s, kill, n - 1), kill, n - 1)
  }

  /** How many times stop signals: the first SIGTERM, seven more on the interval, then the SIGKILL. */
  const StopAttemptCount: nat := 9

  /** The replies stop gives before its first attempt: the not-running message when there is no pid. */
  function StopFirstCalls(pid: Option<string>): seq<Completion> {
    if Named(pid) then [] else [Completion(None, Str(NotRunning))]
  }

  /** Where stop's attempts start from a readable pid file: the first replies, nothing sent yet. */
  function StopStart(content: PidContent): StopState
    requires !content.Unreadable?
  {
    StopState(content, StopFirstCalls(PidRead(content).value), [], None)
  }

  /** All of stop: an unreadable pid file throws at once; otherwise the first replies, then the nine attempts. */
  function StopRun(content: PidContent, kill: (nat, Option<string>, Signal) -> KillResult): StopState {
    if content.Unreadable? then StopState(content, [], [], Some(content.code))
    else StopAttempts(StopStart(content), kill, StopAttemptCount)
  }

  /** No attempt before `n` sees ESRCH when signalling `pid`. */
  predicate Swallowed(kill: (nat, Option<string>, Signal) -> KillResult, pid: Option<string>, n: nat) {
    forall i: nat :: i < n ==> kill(i, pid, ScheduledSignal(i)) != KillFailed("ESRCH")
  }

  /**
   * Over any number of attempts from a readable file: one kill per attempt
   * until an error is thrown, in schedule order; the only error thrown is
   * the ENOENT of deleting a file already gone; "stopped" is replied at most
   * once, and only with the pid file gone; earlier replies stay.
   */
  lemma {:induction false} AttemptsShape(s: StopState, kill: (nat, Option<string>, Signal) -> KillResult, n: nat)
    requires !s.content.Unreadable? && s.thrown.None? && s.sent == []
    requires StoppedAtMostOnce(s.calls) && StoppedReply !in s.calls
    ensures var r := StopAttempts(s, kill, n);
      !r.content.Unreadable?
      && |s.calls| <= |r.calls| && (forall i :: 0 <= i < |s.calls| ==> r.calls[i] == s.calls[i])
      && |r.sent| <= n && (r.thrown.None? ==> |r.sent| == n)
      && (forall i :: 0 <= i < |r.sent| ==> r.sent[i].attempt == i && r.sent[i].signal == ScheduledSignal(i))
      && (r.thrown.Some? ==> r.thrown == Some("ENOENT"))
      && StoppedAtMostOnce(r.calls)
      && (StoppedReply in r.calls ==> r.content == Absent)
    decreases n
  {
    if n > 0 {
      AttemptsShape(s, kill, n - 1);
      var p := StopAttempts(s, kill, n - 1);
      if p.thrown.None? && CaughtCode(p.content, kill, n - 1, ScheduledSignal(n - 1)) == Some("ESRCH") && !p.content.Absent? {
        StoppedOnce(p.calls);
      }
    }
  }

  /** Attempts that see no ESRCH change nothing but the kills sent: other errors are swallowed. */
  lemma {:induction false} AttemptsSwallowed(s: StopState, kill: (nat, Option<string>, Signal) -> KillResult, n: nat)
    requires !s.content.Unreadable? && s.thrown.None?
    requires Swallowed(kill, PidRead(s.content).value, n)
    ensures var r := StopAttempts(s, kill, n);
      r.content == s.content && r.calls == s.calls && r.thrown.None?
      && |r.sent| == |s.sent| + n
      && forall i :: 0 <= i < n ==> r.sent[|s.sent| + i] == Kill(i, PidRead(s.content).value, ScheduledSignal(i))
    decreases n
  {
    if n > 0 {
      AttemptsSwallowed(s, kill, n - 1);
    }
  }

  /** Once the pid file is gone, later attempts add no reply and leave it gone. */
  lemma {:induction false} AttemptsAfterGone(s: StopState, kill: (nat, Option<string>, Signal) -> KillResult, m: nat, n: nat)
    requires m <= n && StopAttempts(s, kill, m).content == Absent
    ensures StopAttempts(s, kill, n).content == Absent
    ensures StopAttempts(s, kill, n).calls == StopAttempts(s, kill, m).calls
    decreases n
  {
    if n > m {
      AttemptsAfterGone(s, kill, m, n - 1);
    }
  }

  /** Once an error is thrown, later attempts change nothing. */
  lemma {:induction false} AttemptsAfterThrow(s: StopState, kill: (nat, Option<string>, Signal) -> KillResult, m: nat, n: nat)
    requires m <= n && StopAttempts(s, kill, m).thrown.Some?
    ensures StopAttempts(s, kill, n) == StopAttempts(s, kill, m)
    decreases n
  {
    if n > m {
      AttemptsAfterThrow(s, kill, m, n - 1);
    }
  }

  /**
   * What stop promises from a readable pid file: nine kills in schedule
   * order unless an error is thrown, and then only the ENOENT of deleting a
   * file already gone; "stopped" at most once, and only with the file gone.
   */
  lemma StopRunShape(content: PidContent, kill: (nat, Option<string>, Signal) -> KillResult)
    requires !content.Unreadable?
    ensures var r := StopRun(content, kill);
      (r.thrown.None? ==> |r.sent| == 9)
      && (r.thrown.Some? ==> r.thrown == Some("ENOENT"))
      && (forall i :: 0 <= i < |r.sent| ==> r.sent[i].attempt == i && r.sent[i].signal == ScheduledSignal(i))
      && StoppedAtMostOnce(r.calls)
      && (StoppedReply in r.calls ==> r.content == Absent)
  {
    AttemptsShape(StopStart(content), kill, StopAttemptCount);
  }

  /** With no pid recorded, stop's first reply says Usergrid is not running. */
  lemma StopNotRunningFirst(content: PidContent, kill: (nat, Option<string>, Signal) -> KillResult)
    requires content.Absent? || content == Present("")
    ensures |StopRun(content, kill).calls| > 0 && StopRun(content, kill).calls[0] == Completion(None, Str(NotRunning))
  {
    AttemptsShape(StopStart(content), kill, StopAttemptCount);
  }

  /** When no kill sees ESRCH, all nine are sent to the recorded pid and the file and the replies stay as they were. */
  lemma StopSwallowsOtherErrors(content: PidContent, kill: (nat, Option<string>, Signal) -> KillResult)
    requires !content.Unreadable? && Swallowed(kill, PidRead(content).value, 9)
    ensures var r := StopRun(content, kill);
      r.thrown.None? && r.content == content && r.calls == StopFirstCalls(PidRead(content).value)
      && |r.sent| == 9 && forall i :: 0 <= i < 9 ==> r.sent[i] == Kill(i, PidRead(content).value, ScheduledSignal(i))
  {
    AttemptsSwallowed(StopStart(content), kill, StopAttemptCount);
  }

  /** The first ESRCH for a recorded pid deletes the pid file and replies "stopped", once. */
  lemma StopFirstEsrch(text: string, kill: (nat, Option<string>, Signal) -> KillResult, j: nat)
    requires j < 9 && Swallowed(kill, Some(text), j) && kill(j, Some(text), ScheduledSignal(j)) == KillFailed("ESRCH")
    ensures StopRun(Present(text), kill).content == Absent
    ensures StopRun(Present(text), kill).calls == StopFirstCalls(Some(text)) + [StoppedReply]
  {
    var s := StopStart(Present(text));
    AttemptsSwallowed(s, kill, j);
    AttemptsAfterGone(s, kill, j + 1, StopAttemptCount);
  }

  /**
   * `stop(options, cb)`: replies that Usergrid is not running when there is
   * no pid, and goes on regardless: nine attempts, the schedule's signals in
   * order. The first read of the pid file and a failed delete end the
   * command with a thrown error.
   */
  method Stop(file: PidFile, kill: (nat, Option<string>, Signal) -> KillResult)
    returns (calls: seq<Completion>, sent: seq<Kill>, thrown: Option<string>)
    modifies file
    ensures StopState(file.content, calls, sent, thrown) == StopRun(old(file.content), kill)
  {
    calls, sent, thrown := [], [], None;
    var first := file.ReadPid();
    if first.Err? {
      thrown := Some(first.error);
      return;
    }
    if !Named(first.value) {
      calls := [Completion(None, Str(NotRunning))];
    }
    var schedule := StopSchedule();
    ghost var start := StopStart(file.content);
    assert start == StopState(file.content, calls, [], None);
    var attempt := 0;
    while attempt < 9
      invariant 0 <= attempt <= 9
      invariant StopState(file.content, calls, sent, thrown) == StopAttempts(start, kill, attempt)
      invariant thrown.None?
    {
      var k, stopped, failed := StopIt(file, kill, attempt, schedule[attempt]);
      if k.Some? {
        sent := sent + [k.value];
      }
      if stopped {
        calls := calls + [StoppedReply];
      }
      if failed.Some? {
        thrown := failed;
        AttemptsAfterThrow(start, kill, attempt + 1, 9);
        return;
      }
      attempt := attempt + 1;
    }
  }
}
