/**
 * The output protocol of LocalProcessExecutor.Start: two readers, a health monitor and a waiter share one
 * buffered output channel, one mutex around the health status, one WaitGroup and one cancellation, while the
 * caller receives from the channel. Every channel operation, lock and unlock is one atomic step.
 */
module ProcessExecutor {
  import opened Options

  type Line = string

  const CAPACITY: nat := 100

  datatype Status = UNKNOWN | RUNNING | HEALTHY | ERROR | STOPPED | FINISHED

  datatype Stream = Stdout | Stderr

  datatype Message = Debug | Setup | Info | Output(stream: Stream, line: Line, status: Status) | Health(status: Status)

  datatype ReaderAt = Checking | Scanning | Scanned(line: Line) | Ready(line: Line, status: Status) | ReaderEnded

  /** A reader of a stream of `lines`; `seen` are the tokens scanned so far, `cut` that the last one is incomplete. */
  datatype Reader = Reader(lines: seq<Line>, at: ReaderAt, seen: seq<Line>, cut: bool)

  datatype Monitor = Waiting | Ticked | Reporting(status: Status) | MonitorUnlocks | MonitorEnded

  datatype Waiter =
    | AwaitExit | Exited(failed: bool) | Cancelled(failed: bool) | Announcing(status: Status) | WaiterUnlocks
    | Joining | Cleaning | LastSend | Closing | Done

  datatype State = State(
    out: Reader,
    err: Reader,
    monitor: Monitor,
    waiter: Waiter,
    buffer: seq<Message>,
    delivered: seq<Message>,
    closes: nat,
    panicked: bool,
    locked: bool,
    cancelled: bool,
    health: Option<Status>)

  datatype Step =
    | Read(stream: Stream, move: ReaderMove)
    | Monitor(check: MonitorMove)
    | Wait(stage: WaiterMove)
    | Receive
    | CallerCancels

  datatype ReaderMove = Check | ScanLine | ScanCut(length: nat) | ScanEnd | ReadStatus | SendLine | Quit

  datatype MonitorMove = Tick | LockAndLook(report: Option<Status>) | Report | Unlock | Leave

  datatype WaiterMove =
    | ProcessExits(failed: bool) | Cancel | LockAndSet | Announce | Release | Join | Clean | SendLast | Close

  function Init(outLines: seq<Line>, errLines: seq<Line>, usesShell: bool): State {
    State(Reader(outLines, Checking, [], false), Reader(errLines, Checking, [], false), Waiting, AwaitExit,
          (if usesShell then [] else [Debug]) + [Setup, Setup, Setup, Info, Health(RUNNING)],
          [], 0, false, false, false, Some(RUNNING))
  }

  function ReaderOf(s: State, k: Stream): Reader {
    if k == Stdout then s.out else s.err
  }

  function WithReader(s: State, k: Stream, r: Reader): State {
    if k == Stdout then s.(out := r) else s.(err := r)
  }

  predicate HasExited(s: State) {
    s.waiter != AwaitExit
  }

  predicate IsClosed(s: State) {
    s.closes > 0
  }

  // ----- The channel -----

  predicate CanSend(s: State) {
    IsClosed(s) || |s.buffer| < CAPACITY
  }

  /** A send on a closed channel panics. */
  function Send(s: State, m: Message): State {
    if IsClosed(s) then s.(panicked := true) else s.(buffer := s.buffer + [m])
  }

  /** A second close panics. */
  function CloseChannel(s: State): State {
    s.(closes := s.closes + 1, panicked := s.panicked || IsClosed(s))
  }

  // ----- The goroutines -----

  predicate CanRead(r: Reader, m: ReaderMove, exited: bool, cancelled: bool) {
    match m
    case Check => r.at == Checking
    case ScanLine => r.at == Scanning && !r.cut && |r.seen| < |r.lines|
    // Wait closes the pipes, and the scanner then returns what it has of the next line.
    case ScanCut(n) => r.at == Scanning && !r.cut && |r.seen| < |r.lines| && exited && 0 < n < |r.lines[|r.seen|]|
    case ScanEnd => r.at == Scanning
    case ReadStatus => r.at.Scanned?
    case SendLine => r.at.Ready?
    case Quit => r.at.Ready? && cancelled
  }

  function Moved(r: Reader, m: ReaderMove, exited: bool, cancelled: bool, health: Option<Status>): Reader
    requires CanRead(r, m, exited, cancelled)
  {
    match m
    case Check => r.(at := if cancelled then ReaderEnded else Scanning)
    case ScanLine => Keep(r, r.lines[|r.seen|], false)
    case ScanCut(n) => Keep(r, r.lines[|r.seen|][..n], true)
    case ScanEnd => r.(at := ReaderEnded)
    case ReadStatus => r.(at := Ready(r.at.line, if health.Some? then health.value else UNKNOWN))
    case SendLine => r.(at := Checking)
    case Quit => r.(at := ReaderEnded)
  }

  function Keep(r: Reader, line: Line, cut: bool): Reader {
    r.(at := Scanned(line), seen := r.seen + [line], cut := cut)
  }

  predicate ReaderEnabled(s: State, k: Stream, m: ReaderMove) {
    && CanRead(ReaderOf(s, k), m, HasExited(s), s.cancelled)
    && (m == ReadStatus ==> !s.locked)
    && (m == SendLine ==> CanSend(s))
  }

  function ReaderNext(s: State, k: Stream, m: ReaderMove): State
    requires ReaderEnabled(s, k, m)
  {
    var r := ReaderOf(s, k);
    var s' := if m == SendLine then Send(s, Output(k, r.at.line, r.at.status)) else s;
    WithReader(s', k, Moved(r, m, HasExited(s), s.cancelled, s.health))
  }

  predicate MonitorEnabled(s: State, m: MonitorMove) {
    match m
    case Tick => s.monitor == Waiting
    case Leave => s.monitor == Waiting && s.cancelled
    case LockAndLook(report) => s.monitor == Ticked && !s.locked && (report.Some? ==> report.value in {ERROR, FINISHED})
    case Report => s.monitor.Reporting? && CanSend(s)
    case Unlock => s.monitor == MonitorUnlocks
  }

  function MonitorNext(s: State, m: MonitorMove): State
    requires MonitorEnabled(s, m)
  {
    match m
    case Tick => s.(monitor := Ticked)
    case Leave => s.(monitor := MonitorEnded)
    case LockAndLook(report) =>
      if s.health.Some? && report.Some? then s.(locked := true, health := report, monitor := Reporting(report.value))
      else s.(locked := true, monitor := MonitorUnlocks)
    case Report => Send(s, Health(s.monitor.status)).(monitor := MonitorUnlocks)
    case Unlock => s.(locked := false, monitor := Waiting)
  }

  predicate WaiterEnabled(s: State, m: WaiterMove) {
    match m
    case ProcessExits(_) => s.waiter == AwaitExit
    case Cancel => s.waiter.Exited?
    case LockAndSet => s.waiter.Cancelled? && !s.locked
    case Announce => s.waiter.Announcing? && CanSend(s)
    case Release => s.waiter == WaiterUnlocks
    case Join => s.waiter == Joining && s.out.at == ReaderEnded && s.err.at == ReaderEnded && s.monitor == MonitorEnded
    case Clean => s.waiter == Cleaning && !s.locked
    case SendLast => s.waiter == LastSend && CanSend(s)
    case Close => s.waiter == Closing
  }

  function WaiterNext(s: State, m: WaiterMove): State
    requires WaiterEnabled(s, m)
  {
    match m
    case ProcessExits(failed) => s.(waiter := Exited(failed))
    case Cancel => s.(waiter := Cancelled(s.waiter.failed), cancelled := true)
    case LockAndSet =>
      var final := if s.waiter.failed then ERROR else FINISHED;
      if s.health.Some? then s.(locked := true, health := Some(final), waiter := Announcing(final))
      else s.(locked := true, waiter := WaiterUnlocks)
    case Announce => Send(s, Health(s.waiter.status)).(waiter := WaiterUnlocks)
    case Release => s.(locked := false, waiter := Joining)
    case Join => s.(waiter := Cleaning)
    case Clean => s.(health := None, waiter := LastSend)
    case SendLast => Send(s, Health(FINISHED)).(waiter := Closing)
    case Close => CloseChannel(s).(waiter := Done)
  }

  predicate Enabled(s: State, step: Step) {
    !s.panicked &&
    match step
    case Read(k, m) => ReaderEnabled(s, k, m)
    case Monitor(m) => MonitorEnabled(s, m)
    case Wait(m) => WaiterEnabled(s, m)
    case Receive => s.buffer != []
    case CallerCancels => !s.cancelled
  }

  function Next(s: State, step: Step): State
    requires Enabled(s, step)
  {
    match step
    case Read(k, m) => ReaderNext(s, k, m)
    case Monitor(m) => MonitorNext(s, m)
    case Wait(m) => WaiterNext(s, m)
    case Receive => s.(buffer := s.buffer[1..], delivered := s.delivered + [s.buffer[0]])
    case CallerCancels => s.(cancelled := true)
  }

  predicate ValidRun(s: State, steps: seq<Step>)
    decreases |steps|
  {
    steps == [] || (Enabled(s, steps[0]) && ValidRun(Next(s, steps[0]), steps[1..]))
  }

  function After(s: State, steps: seq<Step>): State
    requires ValidRun(s, steps)
    decreases |steps|
  {
    if steps == [] then s else After(Next(s, steps[0]), steps[1..])
  }

  lemma {:induction false} Extend(s: State, steps: seq<Step>, step: Step)
    requires ValidRun(s, steps) && Enabled(After(s, steps), step)
    ensures ValidRun(s, steps + [step]) && After(s, steps + [step]) == Next(After(s, steps), step)
    decreases |steps|
  {
    if steps == [] {
      assert steps + [step] == [step];
      assert After(Next(s, step), [step][1..]) == Next(s, step);
    } else {
      Extend(Next(s, steps[0]), steps[1..], step);
      assert (steps + [step])[1..] == steps[1..] + [step];
    }
  }

  /** Extends a run by an enabled step. */
  lemma Then(s: State, before: seq<Step>, step: Step) returns (steps: seq<Step>)
    requires ValidRun(s, before) && Enabled(After(s, before), step)
    ensures ValidRun(s, steps) && After(s, steps) == Next(After(s, before), step)
  {
    Extend(s, before, step);
    steps := before + [step];
  }

  lemma StepFirst(s: State, step: Step, rest: seq<Step>)
    requires Enabled(s, step) && ValidRun(Next(s, step), rest)
    ensures ValidRun(s, [step] + rest) && After(s, [step] + rest) == After(Next(s, step), rest)
  {
    hide Enabled, Next;
    assert ([step] + rest)[1..] == rest;
  }

  ghost predicate Reaches(s: State, s': State) {
    exists steps :: ValidRun(s, steps) && After(s, steps) == s'
  }

  lemma ReachesItself(s: State)
    ensures Reaches(s, s)
  {
    assert ValidRun(s, []) && After(s, []) == s;
  }

  lemma ReachesNext(s: State, s': State, step: Step)
    requires Reaches(s, s') && Enabled(s', step)
    ensures Reaches(s, Next(s', step))
  {
    hide Next, Enabled;
    var before :| ValidRun(s, before) && After(s, before) == s';
    var steps := Then(s, before, step);
  }

  // ----- The invariant -----

  function Sent(s: State): seq<Message> {
    s.delivered + s.buffer
  }

  predicate MonitorHolds(s: State) {
    s.monitor.Reporting? || s.monitor == MonitorUnlocks
  }

  predicate WaiterHolds(s: State) {
    s.waiter.Announcing? || s.waiter == WaiterUnlocks
  }

  predicate HasJoined(s: State) {
    s.waiter == Cleaning || s.waiter == LastSend || s.waiter == Closing || s.waiter == Done
  }

  predicate ChannelSafe(s: State) {
    && !s.panicked
    && s.closes == (if s.waiter == Done then 1 else 0)
    && |s.buffer| <= CAPACITY
    && (HasJoined(s) ==> s.out.at == ReaderEnded && s.err.at == ReaderEnded && s.monitor == MonitorEnded)
    && (s.waiter == Closing || s.waiter == Done ==> Sent(s) != [] && Sent(s)[|Sent(s)| - 1] == Health(FINISHED))
    && (s.locked <==> MonitorHolds(s) || WaiterHolds(s))
    && !(MonitorHolds(s) && WaiterHolds(s))
    && (HasExited(s) && !s.waiter.Exited? ==> s.cancelled)
    && (s.health.Some? <==> !(s.waiter == LastSend || s.waiter == Closing || s.waiter == Done))
  }

  /** The lines of one stream among the messages. */
  function LinesOf(k: Stream, ms: seq<Message>): seq<Line> {
    if ms == [] then []
    else
      var m := ms[|ms| - 1];
      LinesOf(k, ms[..|ms| - 1]) + (if m.Output? && m.stream == k then [m.line] else [])
  }

  /** `seen` is a prefix of `lines`, except that its last line may be cut short when `cut` holds. */
  predicate SeenInOrder(seen: seq<Line>, lines: seq<Line>, cut: bool) {
    && |seen| <= |lines|
    && (cut ==> seen != [])
    && forall i :: 0 <= i < |seen| ==>
         if cut && i == |seen| - 1 then seen[i] < lines[i] else seen[i] == lines[i]
  }

  predicate Pending(r: Reader) {
    r.at.Scanned? || r.at.Ready?
  }

  /** Everything seen has been sent, except the line in hand, or the one that was in hand when the reader ended. */
  predicate StreamInOrder(r: Reader, sent: seq<Line>) {
    && SeenInOrder(r.seen, r.lines, r.cut)
    && (Pending(r) ==> r.seen != [] && r.at.line == r.seen[|r.seen| - 1] && sent == r.seen[..|r.seen| - 1])
    && (!Pending(r) ==> sent == r.seen || (r.at == ReaderEnded && r.seen != [] && sent == r.seen[..|r.seen| - 1]))
  }

  predicate StreamsInOrder(s: State) {
    forall k :: StreamInOrder(ReaderOf(s, k), LinesOf(k, Sent(s)))
  }

  // ----- Channel safety -----

  lemma ReaderKeepsSafe(s: State, k: Stream, m: ReaderMove)
    requires ChannelSafe(s) && ReaderEnabled(s, k, m)
    ensures ChannelSafe(ReaderNext(s, k, m))
  {
  }

  lemma MonitorKeepsSafe(s: State, m: MonitorMove)
    requires ChannelSafe(s) && MonitorEnabled(s, m)
    ensures ChannelSafe(MonitorNext(s, m))
  {
  }

  lemma WaiterKeepsSafe(s: State, m: WaiterMove)
    requires ChannelSafe(s) && WaiterEnabled(s, m)
    ensures ChannelSafe(WaiterNext(s, m))
  {
  }

  lemma ReceiveKeepsSent(s: State)
    requires Enabled(s, Receive)
    ensures Sent(Next(s, Receive)) == Sent(s)
  {
  }

  lemma StepKeepsSafe(s: State, step: Step)
    requires ChannelSafe(s) && Enabled(s, step)
    ensures ChannelSafe(Next(s, step))
  {
    match step
    case Read(k, m) => ReaderKeepsSafe(s, k, m);
    case Monitor(m) => MonitorKeepsSafe(s, m);
    case Wait(m) => WaiterKeepsSafe(s, m);
    case Receive => ReceiveKeepsSent(s);
    case CallerCancels =>
  }

  // ----- Order of the lines -----

  lemma LinesOfAppend(k: Stream, ms: seq<Message>, m: Message)
    ensures LinesOf(k, ms + [m]) == LinesOf(k, ms) + (if m.Output? && m.stream == k then [m.line] else [])
  {
    assert (ms + [m])[..|ms|] == ms;
  }

  lemma {:induction false} NoLines(k: Stream, ms: seq<Message>)
    requires forall m :: m in ms ==> !m.Output?
    ensures LinesOf(k, ms) == []
  {
    if ms != [] {
      NoLines(k, ms[..|ms| - 1]);
    }
  }

  lemma SendKeepsOrder(s: State, m: Message, k: Stream)
    requires !IsClosed(s)
    ensures LinesOf(k, Sent(Send(s, m))) == LinesOf(k, Sent(s)) + (if m.Output? && m.stream == k then [m.line] else [])
  {
    LinesOfAppend(k, Sent(s), m);
    assert Sent(Send(s, m)) == Sent(s) + [m];
  }

  /** Scanning one more token, whole or cut short. */
  lemma SeenGrows(r: Reader, line: Line, cut: bool)
    requires SeenInOrder(r.seen, r.lines, r.cut) && !r.cut && |r.seen| < |r.lines|
    requires if cut then line < r.lines[|r.seen|] else line == r.lines[|r.seen|]
    ensures SeenInOrder(r.seen + [line], r.lines, cut)
    ensures (r.seen + [line])[..|r.seen|] == r.seen
  {
  }

  lemma ScanKeepsOrder(r: Reader, line: Line, cut: bool, sent: seq<Line>)
    requires StreamInOrder(r, sent) && r.at == Scanning && !r.cut && |r.seen| < |r.lines|
    requires if cut then line < r.lines[|r.seen|] else line == r.lines[|r.seen|]
    ensures StreamInOrder(Keep(r, line, cut), sent)
  {
    SeenGrows(r, line, cut);
    hide SeenInOrder;
  }

  lemma ReaderKeepsOrder(r: Reader, m: ReaderMove, exited: bool, cancelled: bool, health: Option<Status>,
                         sent: seq<Line>)
    requires CanRead(r, m, exited, cancelled) && StreamInOrder(r, sent)
    ensures StreamInOrder(Moved(r, m, exited, cancelled, health), sent + (if m == SendLine then [r.at.line] else []))
  {
    hide SeenInOrder;
    assert sent + [] == sent;
    match m
    case ScanLine => ScanKeepsOrder(r, r.lines[|r.seen|], false, sent);
    case ScanCut(n) => ScanKeepsOrder(r, r.lines[|r.seen|][..n], true, sent);
    case _ =>
  }

  lemma ReadKeepsOrder(s: State, k: Stream, m: ReaderMove)
    requires ChannelSafe(s) && StreamsInOrder(s) && ReaderEnabled(s, k, m)
    ensures StreamsInOrder(ReaderNext(s, k, m))
  {
    var r, s' := ReaderOf(s, k), ReaderNext(s, k, m);
    assert !IsClosed(s);
    forall k'
      ensures StreamInOrder(ReaderOf(s', k'), LinesOf(k', Sent(s')))
    {
      assert StreamInOrder(ReaderOf(s, k'), LinesOf(k', Sent(s)));
      if m == SendLine {
        SendKeepsOrder(s, Output(k, r.at.line, r.at.status), k');
        assert LinesOf(k', Sent(s)) + [] == LinesOf(k', Sent(s));
      }
      assert Sent(s') == Sent(if m == SendLine then Send(s, Output(k, r.at.line, r.at.status)) else s);
      if k == k' {
        ReaderKeepsOrder(r, m, HasExited(s), s.cancelled, s.health, LinesOf(k, Sent(s)));
        assert LinesOf(k, Sent(s)) + [] == LinesOf(k, Sent(s));
      }
    }
  }

  /** The steps that are no reads leave the readers alone and send no line. */
  lemma OtherStepKeepsOrder(s: State, step: Step, k: Stream)
    requires ChannelSafe(s) && Enabled(s, step) && !step.Read?
    ensures ReaderOf(Next(s, step), k) == ReaderOf(s, k)
    ensures LinesOf(k, Sent(Next(s, step))) == LinesOf(k, Sent(s))
  {
    match step
    case Monitor(Report) => SendKeepsOrder(s, Health(s.monitor.status), k);
    case Wait(Announce) => SendKeepsOrder(s, Health(s.waiter.status), k);
    case Wait(SendLast) => SendKeepsOrder(s, Health(FINISHED), k);
    case Receive => ReceiveKeepsSent(s);
    case _ =>
  }

  lemma StepKeepsOrder(s: State, step: Step)
    requires ChannelSafe(s) && StreamsInOrder(s) && Enabled(s, step)
    ensures StreamsInOrder(Next(s, step))
  {
    if step.Read? {
      ReadKeepsOrder(s, step.stream, step.move);
    } else {
      forall k
        ensures StreamInOrder(ReaderOf(Next(s, step), k), LinesOf(k, Sent(Next(s, step))))
      {
        assert StreamInOrder(ReaderOf(s, k), LinesOf(k, Sent(s)));
        OtherStepKeepsOrder(s, step, k);
      }
    }
  }

  lemma InitHolds(outLines: seq<Line>, errLines: seq<Line>, usesShell: bool)
    ensures ChannelSafe(Init(outLines, errLines, usesShell)) && StreamsInOrder(Init(outLines, errLines, usesShell))
  {
    var s := Init(outLines, errLines, usesShell);
    forall k
      ensures LinesOf(k, Sent(s)) == []
    {
      NoLines(k, Sent(s));
    }
  }

  lemma {:induction false} RunKeepsInvariant(s: State, steps: seq<Step>)
    requires ChannelSafe(s) && StreamsInOrder(s) && ValidRun(s, steps)
    ensures ChannelSafe(After(s, steps)) && StreamsInOrder(After(s, steps))
    decreases |steps|
  {
    if steps != [] {
      StepKeepsSafe(s, steps[0]);
      StepKeepsOrder(s, steps[0]);
      RunKeepsInvariant(Next(s, steps[0]), steps[1..]);
    }
  }

  // ----- Safety of every run -----

  /**
   * No send and no second close ever hits a closed channel. The channel is closed only after both readers and the
   * monitor have ended, and HEALTH/FINISHED is then the last message sent.
   */
  lemma ExecutorSafety(outLines: seq<Line>, errLines: seq<Line>, usesShell: bool, steps: seq<Step>)
    requires ValidRun(Init(outLines, errLines, usesShell), steps)
    ensures var s := After(Init(outLines, errLines, usesShell), steps);
            && !s.panicked && s.closes <= 1
            && (IsClosed(s) ==> s.out.at == ReaderEnded && s.err.at == ReaderEnded && s.monitor == MonitorEnded)
            && (IsClosed(s) ==> Sent(s) != [] && Sent(s)[|Sent(s)| - 1] == Health(FINISHED))
  {
    InitHolds(outLines, errLines, usesShell);
    RunKeepsInvariant(Init(outLines, errLines, usesShell), steps);
  }

  /** The output channel holds a hundred messages: a line in hand waits exactly while it is full. */
  lemma BufferHoldsHundred(s: State, k: Stream)
    requires ChannelSafe(s) && ReaderOf(s, k).at.Ready?
    ensures |s.buffer| <= 100
    ensures Enabled(s, Read(k, SendLine)) <==> |s.buffer| != 100
  {
  }

  /** Nothing is sent after the close: the caller only drains the buffer. */
  lemma {:induction false} ClosedIsFinal(s: State, steps: seq<Step>)
    requires ChannelSafe(s) && IsClosed(s) && ValidRun(s, steps)
    ensures Sent(After(s, steps)) == Sent(s) && After(s, steps).closes == s.closes
    decreases |steps|
  {
    if steps != [] {
      StepKeepsSafe(s, steps[0]);
      if steps[0] == Receive {
        ReceiveKeepsSent(s);
      }
      ClosedIsFinal(Next(s, steps[0]), steps[1..]);
    }
  }

  lemma {:induction false} LinesOfConcat(k: Stream, a: seq<Message>, b: seq<Message>)
    ensures LinesOf(k, a + b) == LinesOf(k, a) + LinesOf(k, b)
  {
    if b == [] {
      assert a + b == a;
    } else {
      var n := |b| - 1;
      LinesOfConcat(k, a, b[..n]);
      assert (a + b)[..|a + b| - 1] == a + b[..n];
    }
  }

  /**
   * The lines of each stream arrive in order and without gaps. They are a prefix of what the process wrote, except
   * in one case: the last one is the token that the scanner cut short when the exit of the process closed the pipe.
   */
  lemma LinesArriveInOrder(outLines: seq<Line>, errLines: seq<Line>, usesShell: bool, steps: seq<Step>, k: Stream)
    requires ValidRun(Init(outLines, errLines, usesShell), steps)
    ensures var s := After(Init(outLines, errLines, usesShell), steps);
            var lines, got := if k == Stdout then outLines else errLines, LinesOf(k, s.delivered);
            && |got| <= |lines|
            && (forall i :: 0 <= i < |got| - 1 ==> got[i] == lines[i])
            && (got != [] ==> got[|got| - 1] <= lines[|got| - 1])
            && (got <= lines <==> !(ReaderOf(s, k).cut && |got| == |ReaderOf(s, k).seen|))
            && (ReaderOf(s, k).cut ==> HasExited(s))
  {
    InitHolds(outLines, errLines, usesShell);
    RunKeepsInvariant(Init(outLines, errLines, usesShell), steps);
    CutOnlyAfterExit(Init(outLines, errLines, usesShell), steps);
    var s := After(Init(outLines, errLines, usesShell), steps);
    assert StreamInOrder(ReaderOf(s, k), LinesOf(k, Sent(s)));
    LinesOfConcat(k, s.delivered, s.buffer);
    DeliveredInOrder(ReaderOf(s, k), LinesOf(k, s.delivered), LinesOf(k, s.buffer));
    ReadersKeepLines(Init(outLines, errLines, usesShell), steps);
  }

  lemma DeliveredInOrder(r: Reader, got: seq<Line>, rest: seq<Line>)
    requires StreamInOrder(r, got + rest)
    ensures |got| <= |r.lines|
    ensures forall i :: 0 <= i < |got| - 1 ==> got[i] == r.lines[i]
    ensures got != [] ==> got[|got| - 1] <= r.lines[|got| - 1]
    ensures got <= r.lines <==> !(r.cut && |got| == |r.seen|)
  {
    var all := got + rest;
    assert |all| <= |r.seen| && forall i :: 0 <= i < |got| ==> got[i] == all[i] == r.seen[i];
  }

  /** The lines of a reader are those of its process. */
  lemma {:induction false} ReadersKeepLines(s: State, steps: seq<Step>)
    requires ValidRun(s, steps)
    ensures After(s, steps).out.lines == s.out.lines && After(s, steps).err.lines == s.err.lines
    decreases |steps|
  {
    if steps != [] {
      ReadersKeepLines(Next(s, steps[0]), steps[1..]);
    }
  }

  lemma {:induction false} CutOnlyAfterExit(s: State, steps: seq<Step>)
    requires ValidRun(s, steps) && ((s.out.cut || s.err.cut) ==> HasExited(s))
    ensures var s' := After(s, steps); (s'.out.cut || s'.err.cut) ==> HasExited(s')
    decreases |steps|
  {
    if steps != [] {
      CutOnlyAfterExit(Next(s, steps[0]), steps[1..]);
    }
  }

  // ----- What is announced -----

  lemma SendAppends(s: State, m: Message)
    requires !IsClosed(s)
    ensures Sent(Send(s, m)) == Sent(s) + [m]
  {
  }

  lemma ReadSentGrows(s: State, k: Stream, m: ReaderMove)
    requires ChannelSafe(s) && ReaderEnabled(s, k, m)
    ensures m == SendLine ==> var r := ReaderOf(s, k);
              Sent(ReaderNext(s, k, m)) == Sent(s) + [Output(k, r.at.line, r.at.status)]
    ensures m != SendLine ==> Sent(ReaderNext(s, k, m)) == Sent(s)
  {
    if m == SendLine {
      SendAppends(s, Output(k, ReaderOf(s, k).at.line, ReaderOf(s, k).at.status));
    }
  }

  /** A step adds at most one message, and none once the last one has been sent. */
  lemma SentGrows(s: State, step: Step)
    requires ChannelSafe(s) && Enabled(s, step)
    ensures Sent(Next(s, step)) == Sent(s) || exists m :: Sent(Next(s, step)) == Sent(s) + [m]
    ensures s.waiter == Closing || s.waiter == Done ==> Sent(Next(s, step)) == Sent(s)
  {
    match step
    case Read(k, m) => { ReadSentGrows(s, k, m); hide Sent, ReaderNext; }
    case Monitor(Report) => SendAppends(s, Health(s.monitor.status));
    case Wait(Announce) => SendAppends(s, Health(s.waiter.status));
    case Wait(SendLast) => SendAppends(s, Health(FINISHED));
    case Receive => ReceiveKeepsSent(s);
    case _ =>
  }

  lemma {:induction false} RunSentGrows(s: State, steps: seq<Step>)
    requires ChannelSafe(s) && ValidRun(s, steps)
    ensures Sent(s) <= Sent(After(s, steps))
    decreases |steps|
  {
    if steps != [] {
      SentGrows(s, steps[0]);
      StepKeepsSafe(s, steps[0]);
      hide ChannelSafe, Enabled, Next, Sent;
      RunSentGrows(Next(s, steps[0]), steps[1..]);
    }
  }

  /** Every run begins with these messages. */
  lemma FirstMessages(outLines: seq<Line>, errLines: seq<Line>, usesShell: bool, steps: seq<Step>)
    requires ValidRun(Init(outLines, errLines, usesShell), steps)
    ensures (if usesShell then [] else [Debug]) + [Setup, Setup, Setup, Info, Health(RUNNING)]
         <= Sent(After(Init(outLines, errLines, usesShell), steps))
  {
    InitHolds(outLines, errLines, usesShell);
    RunSentGrows(Init(outLines, errLines, usesShell), steps);
  }

  function FinalStatus(failed: bool): Status {
    if failed then ERROR else FINISHED
  }

  /** The process has exited in this way, and what the waiter has sent by now says so. */
  predicate Fated(s: State, failed: bool) {
    match s.waiter
    case AwaitExit => false
    case Exited(f) => f == failed
    case Cancelled(f) => f == failed
    case Announcing(status) => status == FinalStatus(failed)
    case Closing => AnnouncedBeforeLast(s, failed)
    case Done => AnnouncedBeforeLast(s, failed)
    case _ => Health(FinalStatus(failed)) in Sent(s)
  }

  predicate AnnouncedBeforeLast(s: State, failed: bool) {
    Sent(s) != [] && Health(FinalStatus(failed)) in Sent(s)[..|Sent(s)| - 1]
  }

  lemma FatedWait(s: State, m: WaiterMove, failed: bool)
    requires ChannelSafe(s) && WaiterEnabled(s, m) && Fated(s, failed)
    ensures Fated(WaiterNext(s, m), failed)
  {
    var s' := WaiterNext(s, m);
    match m
    case Announce => assert Sent(s') == Sent(s) + [Health(s.waiter.status)];
    case SendLast => assert Sent(s') == Sent(s) + [Health(FINISHED)] && Sent(s')[..|Sent(s')| - 1] == Sent(s);
    case _ =>
  }

  lemma FatedStep(s: State, step: Step, failed: bool)
    requires ChannelSafe(s) && Enabled(s, step) && Fated(s, failed)
    ensures Fated(Next(s, step), failed)
  {
    if step.Wait? {
      FatedWait(s, step.stage, failed);
    } else {
      SentGrows(s, step);
      WaiterStands(s, step);
      hide Sent, ChannelSafe, Enabled, Next;
    }
  }

  lemma WaiterStands(s: State, step: Step)
    requires Enabled(s, step) && !step.Wait?
    ensures Next(s, step).waiter == s.waiter
  {
  }

  lemma {:induction false} FatedRun(s: State, steps: seq<Step>, failed: bool)
    requires ChannelSafe(s) && ValidRun(s, steps) && Fated(s, failed)
    ensures Fated(After(s, steps), failed)
    decreases |steps|
  {
    if steps != [] {
      FatedStep(s, steps[0], failed);
      StepKeepsSafe(s, steps[0]);
      hide Fated, ChannelSafe, Enabled, Next;
      FatedRun(Next(s, steps[0]), steps[1..], failed);
    }
  }

  lemma {:induction false} NoSecondExit(s: State, steps: seq<Step>, failed: bool)
    requires ValidRun(s, steps) && HasExited(s)
    ensures Wait(ProcessExits(failed)) !in steps
    decreases |steps|
  {
    if steps != [] {
      NoSecondExit(Next(s, steps[0]), steps[1..], failed);
      assert steps == [steps[0]] + steps[1..];
    }
  }

  /** From the exit of the process on, what the waiter announces is fixed. */
  lemma {:induction false} FatedAfterExit(s: State, steps: seq<Step>, failed: bool)
    requires ChannelSafe(s) && ValidRun(s, steps) && s.waiter == AwaitExit && Wait(ProcessExits(failed)) in steps
    ensures Fated(After(s, steps), failed)
    decreases |steps|
  {
    StepKeepsSafe(s, steps[0]);
    if steps[0] == Wait(ProcessExits(failed)) {
      FatedRun(Next(s, steps[0]), steps[1..], failed);
    } else {
      assert Wait(ProcessExits(failed)) in steps[1..];
      if steps[0].Wait? {
        NoSecondExit(Next(s, steps[0]), steps[1..], failed);
      } else {
        WaiterStands(s, steps[0]);
        hide ChannelSafe, Fated, Enabled, Next;
        FatedAfterExit(Next(s, steps[0]), steps[1..], failed);
      }
    }
  }

  lemma {:induction false} ExitInRun(s: State, steps: seq<Step>) returns (failed: bool)
    requires ValidRun(s, steps) && s.waiter == AwaitExit && HasExited(After(s, steps))
    ensures Wait(ProcessExits(failed)) in steps
    decreases |steps|
  {
    if steps[0].Wait? {
      failed := steps[0].stage.failed;
    } else {
      WaiterStands(s, steps[0]);
      failed := ExitInRun(Next(s, steps[0]), steps[1..]);
    }
  }

  /**
   * A run that reaches the close contains the exit of the process, once, and announces before the last message how the
   * process exited: with ERROR if and only if it failed, else with FINISHED.
   */
  lemma ExitIsAnnounced(outLines: seq<Line>, errLines: seq<Line>, usesShell: bool, steps: seq<Step>)
    returns (failed: bool)
    requires ValidRun(Init(outLines, errLines, usesShell), steps)
    requires IsClosed(After(Init(outLines, errLines, usesShell), steps))
    ensures forall f :: Wait(ProcessExits(f)) in steps <==> f == failed
    ensures AnnouncedBeforeLast(After(Init(outLines, errLines, usesShell), steps), failed)
  {
    var s0 := Init(outLines, errLines, usesShell);
    InitHolds(outLines, errLines, usesShell);
    RunKeepsInvariant(s0, steps);
    failed := ExitInRun(s0, steps);
    FatedAfterExit(s0, steps, failed);
    if Wait(ProcessExits(!failed)) in steps {
      ExitsDiffer(s0, steps, failed);
    }
  }

  lemma {:induction false} ExitsDiffer(s: State, steps: seq<Step>, failed: bool)
    requires ValidRun(s, steps) && s.waiter == AwaitExit && Wait(ProcessExits(failed)) in steps
    ensures Wait(ProcessExits(!failed)) !in steps
    decreases |steps|
  {
    assert steps == [steps[0]] + steps[1..];
    if steps[0].Wait? {
      NoSecondExit(Next(s, steps[0]), steps[1..], failed);
      NoSecondExit(Next(s, steps[0]), steps[1..], !failed);
    } else {
      WaiterStands(s, steps[0]);
      ExitsDiffer(Next(s, steps[0]), steps[1..], failed);
    }
  }

  /** Nothing says ERROR, nor is anybody about to say it. */
  predicate NoError(s: State) {
    && Health(ERROR) !in Sent(s) && s.health != Some(ERROR) && s.monitor != Reporting(ERROR)
    && s.waiter != Exited(true) && s.waiter != Cancelled(true) && s.waiter != Announcing(ERROR)
  }

  predicate CausesError(step: Step) {
    step == Wait(ProcessExits(true)) || step == Monitor(LockAndLook(Some(ERROR)))
  }

  lemma NoErrorStep(s: State, step: Step)
    requires ChannelSafe(s) && Enabled(s, step) && NoError(s) && !CausesError(step)
    ensures NoError(Next(s, step))
  {
    match step
    case Read(k, SendLine) =>
      assert Sent(Next(s, step)) == Sent(s) + [Output(k, ReaderOf(s, k).at.line, ReaderOf(s, k).at.status)];
    case Monitor(Report) => assert Sent(Next(s, step)) == Sent(s) + [Health(s.monitor.status)];
    case Wait(Announce) => assert Sent(Next(s, step)) == Sent(s) + [Health(s.waiter.status)];
    case Wait(SendLast) => assert Sent(Next(s, step)) == Sent(s) + [Health(FINISHED)];
    case Receive => ReceiveKeepsSent(s);
    case _ =>
  }

  lemma {:induction false} NoErrorRun(s: State, steps: seq<Step>)
    requires ChannelSafe(s) && ValidRun(s, steps) && NoError(s) && forall step <- steps :: !CausesError(step)
    ensures NoError(After(s, steps))
    decreases |steps|
  {
    if steps != [] {
      NoErrorStep(s, steps[0]);
      StepKeepsSafe(s, steps[0]);
      hide NoError, ChannelSafe, Enabled, Next;
      NoErrorRun(Next(s, steps[0]), steps[1..]);
    }
  }

  /** ERROR is announced only if the process failed or the monitor found it so. */
  lemma ErrorHasCause(outLines: seq<Line>, errLines: seq<Line>, usesShell: bool, steps: seq<Step>)
    requires ValidRun(Init(outLines, errLines, usesShell), steps) && forall step <- steps :: !CausesError(step)
    ensures Health(ERROR) !in Sent(After(Init(outLines, errLines, usesShell), steps))
  {
    InitHolds(outLines, errLines, usesShell);
    NoErrorRun(Init(outLines, errLines, usesShell), steps);
  }

  predicate Known(status: Status) {
    status == RUNNING || status == ERROR || status == FINISHED
  }

  /**
   * Statuses that are sent with a line are known ones; a status that is being reported is the one readers would see.
   */
  predicate StatusesHold(s: State) {
    && (s.health.Some? ==> Known(s.health.value))
    && (s.out.at.Ready? ==> Known(s.out.at.status)) && (s.err.at.Ready? ==> Known(s.err.at.status))
    && (s.monitor.Reporting? ==> s.health == Some(s.monitor.status))
    && (s.waiter.Announcing? ==> s.health == Some(s.waiter.status))
    && forall m <- Sent(s) :: m.Output? ==> Known(m.status)
  }

  lemma ReadKeepsStatuses(s: State, k: Stream, m: ReaderMove)
    requires ChannelSafe(s) && StatusesHold(s) && ReaderEnabled(s, k, m)
    ensures StatusesHold(ReaderNext(s, k, m))
  {
    if m == SendLine {
      assert Sent(ReaderNext(s, k, m)) == Sent(s) + [Output(k, ReaderOf(s, k).at.line, ReaderOf(s, k).at.status)];
    }
  }

  lemma StepKeepsStatuses(s: State, step: Step)
    requires ChannelSafe(s) && StatusesHold(s) && Enabled(s, step)
    ensures StatusesHold(Next(s, step))
  {
    match step
    case Read(k, m) => ReadKeepsStatuses(s, k, m);
    case Monitor(Report) => assert Sent(Next(s, step)) == Sent(s) + [Health(s.monitor.status)];
    case Wait(Announce) => assert Sent(Next(s, step)) == Sent(s) + [Health(s.waiter.status)];
    case Wait(SendLast) => assert Sent(Next(s, step)) == Sent(s) + [Health(FINISHED)];
    case Receive => ReceiveKeepsSent(s);
    case _ =>
  }

  lemma {:induction false} RunKeepsStatuses(s: State, steps: seq<Step>)
    requires ChannelSafe(s) && StatusesHold(s) && ValidRun(s, steps)
    ensures StatusesHold(After(s, steps))
    decreases |steps|
  {
    if steps != [] {
      StepKeepsStatuses(s, steps[0]);
      StepKeepsSafe(s, steps[0]);
      hide StatusesHold, ChannelSafe, Enabled, Next;
      RunKeepsStatuses(Next(s, steps[0]), steps[1..]);
    }
  }

  /** No line is ever sent with the status UNKNOWN, and whoever reports a status has just made it the current one. */
  lemma StatusesAreKnown(outLines: seq<Line>, errLines: seq<Line>, usesShell: bool, steps: seq<Step>)
    requires ValidRun(Init(outLines, errLines, usesShell), steps)
    ensures StatusesHold(After(Init(outLines, errLines, usesShell), steps))
  {
    InitHolds(outLines, errLines, usesShell);
    RunKeepsStatuses(Init(outLines, errLines, usesShell), steps);
  }

  /** A reader takes the current status along with its line, and a report or an announcement changes it. */
  lemma StatusMeaning(s: State, k: Stream, report: Status)
    requires ChannelSafe(s) && !s.locked
    ensures ReaderOf(s, k).at.Scanned? ==>
              var r := ReaderOf(Next(s, Read(k, ReadStatus)), k);
              s.health.Some? && r.at == Ready(ReaderOf(s, k).at.line, s.health.value)
    ensures s.monitor == Ticked && (report == ERROR || report == FINISHED) ==>
              && s.health.Some? && Next(s, Monitor(LockAndLook(Some(report)))).health == Some(report)
              && Next(s, Monitor(LockAndLook(None))).health == s.health
    ensures s.waiter.Cancelled? ==> Next(s, Wait(LockAndSet)).health == Some(FinalStatus(s.waiter.failed))
  {
  }

  // ----- Progress -----

  function ReaderPotential(r: Reader): int {
    var left := if r.cut then 0 else 6 * (|r.lines| - |r.seen|);
    match r.at
    case Checking => left + 3
    case Scanning => left + 2
    case Scanned(_) => left + 7
    case Ready(_, _) => left + 6
    case ReaderEnded => 0
  }

  function MonitorPotential(m: Monitor): nat {
    match m
    case Waiting => 1
    case Ticked => 5
    case Reporting(_) => 4
    case MonitorUnlocks => 2
    case MonitorEnded => 0
  }

  function WaiterPotential(w: Waiter): nat {
    match w
    case AwaitExit => 12
    case Exited(_) => 11
    case Cancelled(_) => 10
    case Announcing(_) => 9
    case WaiterUnlocks => 7
    case Joining => 6
    case Cleaning => 5
    case LastSend => 4
    case Closing => 2
    case Done => 0
  }

  function Potential(s: State): int {
    ReaderPotential(s.out) + ReaderPotential(s.err) + MonitorPotential(s.monitor) + WaiterPotential(s.waiter)
    + |s.buffer| + (if s.cancelled then 0 else 1)
  }

  predicate WithinLines(s: State) {
    |s.out.seen| <= |s.out.lines| && |s.err.seen| <= |s.err.lines|
  }

  lemma ReadUsesPotential(r: Reader, m: ReaderMove, exited: bool, cancelled: bool, health: Option<Status>)
    requires CanRead(r, m, exited, cancelled) && |r.seen| <= |r.lines|
    ensures var r' := Moved(r, m, exited, cancelled, health);
            && |r'.seen| <= |r'.lines|
            && ReaderPotential(r') < ReaderPotential(r) - (if m == SendLine then 1 else 0)
  {
  }

  lemma ReaderUsesPotential(s: State, k: Stream, m: ReaderMove)
    requires ChannelSafe(s) && WithinLines(s) && ReaderEnabled(s, k, m)
    ensures WithinLines(ReaderNext(s, k, m)) && Potential(ReaderNext(s, k, m)) < Potential(s)
  {
    ReadUsesPotential(ReaderOf(s, k), m, HasExited(s), s.cancelled, s.health);
  }

  lemma MonitorUsesPotential(s: State, m: MonitorMove)
    requires ChannelSafe(s) && MonitorEnabled(s, m)
    ensures if m == Tick then Potential(MonitorNext(s, m)) == Potential(s) + 4
            else Potential(MonitorNext(s, m)) < Potential(s)
  {
  }

  lemma WaiterUsesPotential(s: State, m: WaiterMove)
    requires ChannelSafe(s) && WaiterEnabled(s, m)
    ensures Potential(WaiterNext(s, m)) < Potential(s)
  {
  }

  /** Every step but a tick of the monitor uses up potential; a tick adds four. */
  lemma StepUsesPotential(s: State, step: Step)
    requires ChannelSafe(s) && WithinLines(s) && Enabled(s, step)
    ensures WithinLines(Next(s, step))
    ensures if step == Monitor(Tick) then Potential(Next(s, step)) == Potential(s) + 4
            else Potential(Next(s, step)) < Potential(s)
  {
    match step
    case Read(k, m) => ReaderUsesPotential(s, k, m);
    case Monitor(m) => MonitorUsesPotential(s, m);
    case Wait(m) => WaiterUsesPotential(s, m);
    case _ =>
  }

  function Ticks(steps: seq<Step>): nat {
    if steps == [] then 0 else (if steps[0] == Monitor(Tick) then 1 else 0) + Ticks(steps[1..])
  }

  /** The length of a run is bounded by the lines of the process and the number of ticks. */
  lemma {:induction false} RunIsBounded(s: State, steps: seq<Step>)
    requires ChannelSafe(s) && WithinLines(s) && ValidRun(s, steps)
    ensures |steps| + Potential(After(s, steps)) <= Potential(s) + 5 * Ticks(steps)
    decreases |steps|
  {
    if steps != [] {
      StepUsesPotential(s, steps[0]);
      StepKeepsSafe(s, steps[0]);
      RunIsBounded(Next(s, steps[0]), steps[1..]);
    }
  }

  /** The steps that need nothing from outside: the program's own, and the receiving caller's. */
  predicate Internal(s: State, step: Step) {
    && Enabled(s, step)
    && step != Monitor(Tick) && step != CallerCancels
    && !(step.Wait? && step.stage.ProcessExits?)
    && (step.Read? && (step.move.ScanLine? || step.move.ScanCut? || step.move.ScanEnd?) ==> HasExited(s))
  }

  /** Everybody waits for the process, for the clock or for nothing more to do; no lock is held, no message is left. */
  predicate WaitsForProcess(s: State) {
    && s.waiter == AwaitExit && s.buffer == [] && !s.locked
    && (s.out.at == Scanning || s.out.at == ReaderEnded)
    && (s.err.at == Scanning || s.err.at == ReaderEnded)
    && (s.monitor == MonitorEnded || (s.monitor == Waiting && !s.cancelled))
  }

  predicate Drained(s: State) {
    IsClosed(s) && s.buffer == []
  }

  function ReaderStep(r: Reader): ReaderMove {
    match r.at
    case Scanned(_) => ReadStatus
    case Ready(_, _) => SendLine
    case Scanning => ScanEnd
    case _ => Check
  }

  /** While the caller receives, only the process or the clock can be waited for: never the mutex or the channel. */
  lemma NoDeadlock(s: State) returns (step: Step)
    requires ChannelSafe(s) && !Drained(s) && !WaitsForProcess(s)
    ensures Internal(s, step)
  {
    if s.buffer != [] {
      return Receive;
    }
    if MonitorHolds(s) {
      return Monitor(if s.monitor.Reporting? then Report else Unlock);
    }
    if WaiterHolds(s) {
      return Wait(if s.waiter.Announcing? then Announce else Release);
    }
    if s.out.at != ReaderEnded && (s.out.at != Scanning || HasExited(s)) {
      return Read(Stdout, ReaderStep(s.out));
    }
    if s.err.at != ReaderEnded && (s.err.at != Scanning || HasExited(s)) {
      return Read(Stderr, ReaderStep(s.err));
    }
    if s.monitor == Ticked {
      return Monitor(LockAndLook(None));
    }
    if s.monitor == Waiting && s.cancelled {
      return Monitor(Leave);
    }
    step := Wait(match s.waiter
      case Exited(_) => Cancel
      case Cancelled(_) => LockAndSet
      case Joining => Join
      case Cleaning => Clean
      case LastSend => SendLast
      case _ => Close);
  }

  /** Once the process has exited, the program and the receiving caller alone reach the closed, drained channel. */
  lemma {:induction false} ReachesClose(s: State) returns (steps: seq<Step>)
    requires ChannelSafe(s) && WithinLines(s) && HasExited(s)
    ensures ValidRun(s, steps) && Drained(After(s, steps)) && Ticks(steps) == 0
    ensures |steps| <= Potential(s)
    decreases Potential(s)
  {
    if Drained(s) {
      steps := [];
    } else {
      var step := NoDeadlock(s);
      StepUsesPotential(s, step);
      StepKeepsSafe(s, step);
      var rest := ReachesClose(Next(s, step));
      steps := [step] + rest;
      assert steps[1..] == rest;
    }
  }

  // ----- What the protocol does not promise -----

  /** How many lines a cancelled reader can still send: the one it is scanning or holds. */
  function InHand(r: Reader): nat {
    if r.at.Scanning? || r.at.Scanned? || r.at.Ready? then 1 else 0
  }

  /** What a move of a reader adds to the lines of a stream. */
  lemma ReadSends(s: State, k: Stream, m: ReaderMove, k': Stream)
    requires ChannelSafe(s) && ReaderEnabled(s, k, m)
    ensures var more := if m == SendLine && k == k' then [ReaderOf(s, k).at.line] else [];
            LinesOf(k', Sent(ReaderNext(s, k, m))) == LinesOf(k', Sent(s)) + more
  {
    var r := ReaderOf(s, k);
    if m == SendLine {
      SendKeepsOrder(s, Output(k, r.at.line, r.at.status), k');
    }
  }

  lemma CancelledMove(r: Reader, m: ReaderMove, exited: bool, health: Option<Status>)
    requires CanRead(r, m, exited, true)
    ensures InHand(Moved(r, m, exited, true, health)) + (if m == SendLine then 1 else 0) <= InHand(r)
  {
  }

  lemma CancelledRead(s: State, k: Stream, m: ReaderMove, k': Stream)
    requires ChannelSafe(s) && s.cancelled && ReaderEnabled(s, k, m)
    ensures var s' := ReaderNext(s, k, m);
            |LinesOf(k', Sent(s'))| + InHand(ReaderOf(s', k')) <= |LinesOf(k', Sent(s))| + InHand(ReaderOf(s, k'))
  {
    ReadSends(s, k, m, k');
    CancelledMove(ReaderOf(s, k), m, HasExited(s), s.health);
    hide LinesOf, Sent, ChannelSafe, Moved, InHand, HasExited, CanRead;
  }

  lemma CancelledStep(s: State, step: Step, k: Stream)
    requires ChannelSafe(s) && s.cancelled && Enabled(s, step)
    ensures var s' := Next(s, step);
            && s'.cancelled
            && |LinesOf(k, Sent(s'))| + InHand(ReaderOf(s', k)) <= |LinesOf(k, Sent(s))| + InHand(ReaderOf(s, k))
  {
    if step.Read? {
      CancelledRead(s, step.stream, step.move, k);
    } else {
      OtherStepKeepsOrder(s, step, k);
    }
    hide LinesOf, Sent, ChannelSafe, Moved, InHand, HasExited;
  }

  /** Once the readers are cancelled, each of them sends at most one more line, however the run goes on. */
  lemma {:induction false} OneMoreLineAfterCancel(s: State, steps: seq<Step>, k: Stream)
    requires ChannelSafe(s) && s.cancelled && ValidRun(s, steps)
    ensures |LinesOf(k, Sent(After(s, steps)))| <= |LinesOf(k, Sent(s))| + InHand(ReaderOf(s, k))
    decreases |steps|
  {
    if steps != [] {
      CancelledStep(s, steps[0], k);
      StepKeepsSafe(s, steps[0]);
      OneMoreLineAfterCancel(Next(s, steps[0]), steps[1..], k);
    }
  }

  /** No step takes back a line. */
  lemma StepAddsLines(s: State, step: Step, k: Stream)
    requires ChannelSafe(s) && Enabled(s, step)
    ensures LinesOf(k, Sent(s)) <= LinesOf(k, Sent(Next(s, step)))
    ensures ReaderOf(Next(s, step), k).lines == ReaderOf(s, k).lines
  {
    if step.Read? {
      ReadSends(s, step.stream, step.move, k);
    } else {
      OtherStepKeepsOrder(s, step, k);
    }
  }

  lemma {:induction false} RunAddsLines(s: State, steps: seq<Step>, k: Stream)
    requires ChannelSafe(s) && ValidRun(s, steps)
    ensures LinesOf(k, Sent(s)) <= LinesOf(k, Sent(After(s, steps)))
    ensures ReaderOf(After(s, steps), k).lines == ReaderOf(s, k).lines
    decreases |steps|
  {
    if steps != [] {
      StepAddsLines(s, steps[0], k);
      StepKeepsSafe(s, steps[0]);
      hide *;
      RunAddsLines(Next(s, steps[0]), steps[1..], k);
    }
  }

  predicate Quiet(step: Step) {
    !step.Read? || step.move == Check || step.move == ScanEnd || step.move == ReadStatus || step.move == Quit
  }

  /** What a reader does when the process is gone and nothing more is read from it. */
  function GivingUp(r: Reader): ReaderMove {
    match r.at
    case Scanned(_) => ReadStatus
    case Ready(_, _) => Quit
    case Scanning => ScanEnd
    case _ => Check
  }

  /** The next step on the way to the close: the process exits, and then no reader scans or sends another line. */
  lemma QuietStep(s: State) returns (step: Step)
    requires ChannelSafe(s) && !Drained(s)
    ensures Enabled(s, step) && Quiet(step) && step != Monitor(Tick)
  {
    if s.buffer != [] {
      return Receive;
    }
    if s.waiter == AwaitExit {
      return Wait(ProcessExits(false));
    }
    if s.waiter.Exited? {
      return Wait(Cancel);
    }
    if MonitorHolds(s) {
      return Monitor(if s.monitor.Reporting? then Report else Unlock);
    }
    if WaiterHolds(s) {
      return Wait(if s.waiter.Announcing? then Announce else Release);
    }
    if s.out.at != ReaderEnded {
      return Read(Stdout, GivingUp(s.out));
    }
    if s.err.at != ReaderEnded {
      return Read(Stderr, GivingUp(s.err));
    }
    if s.monitor != MonitorEnded {
      return Monitor(if s.monitor == Ticked then LockAndLook(None) else Leave);
    }
    step := Wait(match s.waiter
      case Cancelled(_) => LockAndSet
      case Joining => Join
      case Cleaning => Clean
      case LastSend => SendLast
      case _ => Close);
  }

  lemma QuietStepSendsNothing(s: State, step: Step, k: Stream)
    requires ChannelSafe(s) && Enabled(s, step) && Quiet(step)
    ensures LinesOf(k, Sent(Next(s, step))) == LinesOf(k, Sent(s))
  {
    if step.Read? {
      ReadSends(s, step.stream, step.move, k);
    } else {
      OtherStepKeepsOrder(s, step, k);
    }
  }

  /**
   * From every state on, the channel can be closed without one more line: the exit of the process cancels the readers.
   */
  lemma {:induction false} QuietlyCloses(s: State) returns (steps: seq<Step>)
    requires ChannelSafe(s) && WithinLines(s)
    ensures ValidRun(s, steps) && Drained(After(s, steps))
    ensures forall k :: LinesOf(k, Sent(After(s, steps))) == LinesOf(k, Sent(s))
    decreases Potential(s)
  {
    if Drained(s) {
      steps := [];
    } else {
      var step := QuietNext(s);
      PotentialNonNegative(s);
      hide *;
      var rest := QuietlyCloses(Next(s, step));
      StepFirst(s, step, rest);
      steps := [step] + rest;
    }
  }

  lemma QuietNext(s: State) returns (step: Step)
    requires ChannelSafe(s) && WithinLines(s) && !Drained(s)
    ensures Enabled(s, step)
    ensures var s' := Next(s, step);
            && ChannelSafe(s') && WithinLines(s') && Potential(s') < Potential(s)
            && forall k :: LinesOf(k, Sent(s')) == LinesOf(k, Sent(s))
  {
    step := QuietStep(s);
    StepUsesPotential(s, step);
    StepKeepsSafe(s, step);
    hide ChannelSafe, Enabled, Next, Potential, LinesOf, Sent;
    forall k
      ensures LinesOf(k, Sent(Next(s, step))) == LinesOf(k, Sent(s))
    {
      QuietStepSendsNothing(s, step, k);
    }
  }

  lemma PotentialNonNegative(s: State)
    requires WithinLines(s)
    ensures Potential(s) >= 0
  {
  }

  /** All that the process wrote to the stream has been sent. */
  ghost predicate AllSent(s: State, k: Stream) {
    LinesOf(k, Sent(s)) == ReaderOf(s, k).lines
  }

  /**
   * At every point of every run, the caller is sure to get all lines of a stream if and only if they have all been
   * sent by then: whatever is still unsent can be lost, even if the process has written it long before it exits.
   */
  lemma OutputIsSafeOnceSent(outLines: seq<Line>, errLines: seq<Line>, usesShell: bool, before: seq<Step>, k: Stream)
    requires ValidRun(Init(outLines, errLines, usesShell), before)
    ensures var s := After(Init(outLines, errLines, usesShell), before);
            AllSent(s, k) <==> forall steps | ValidRun(s, steps) && IsClosed(After(s, steps)) ::
                AllSent(After(s, steps), k)
  {
    InitHolds(outLines, errLines, usesShell);
    RunKeepsInvariant(Init(outLines, errLines, usesShell), before);
    SafeOnceSent(After(Init(outLines, errLines, usesShell), before), k);
  }

  lemma SafeOnceSent(s: State, k: Stream)
    requires ChannelSafe(s) && StreamsInOrder(s)
    ensures AllSent(s, k) <==>
              forall steps | ValidRun(s, steps) && IsClosed(After(s, steps)) :: AllSent(After(s, steps), k)
  {
    forall steps | ValidRun(s, steps) && AllSent(s, k)
      ensures AllSent(After(s, steps), k)
    {
      RunAddsLines(s, steps, k);
      RunKeepsInvariant(s, steps);
      SentWithinLines(After(s, steps), k);
    }
    OrderIsWithinLines(s);
    var quiet := QuietlyCloses(s);
    RunAddsLines(s, quiet, k);
    assert AllSent(After(s, quiet), k) <==> AllSent(s, k);
  }

  lemma SentWithinLines(s: State, k: Stream)
    requires StreamsInOrder(s)
    ensures |LinesOf(k, Sent(s))| <= |ReaderOf(s, k).lines|
  {
    assert StreamInOrder(ReaderOf(s, k), LinesOf(k, Sent(s)));
  }

  lemma OrderIsWithinLines(s: State)
    requires StreamsInOrder(s)
    ensures WithinLines(s)
  {
    assert StreamInOrder(ReaderOf(s, Stdout), LinesOf(Stdout, Sent(s)));
    assert StreamInOrder(ReaderOf(s, Stderr), LinesOf(Stderr, Sent(s)));
  }

  /** In particular all output can be lost, whatever the process writes. */
  lemma OutputCanBeLost(outLines: seq<Line>, errLines: seq<Line>, usesShell: bool) returns (steps: seq<Step>)
    ensures ValidRun(Init(outLines, errLines, usesShell), steps)
    ensures var s := After(Init(outLines, errLines, usesShell), steps);
            IsClosed(s) && forall k :: LinesOf(k, Sent(s)) == []
  {
    hide *;
    InitHolds(outLines, errLines, usesShell);
    InitIsEmpty(outLines, errLines, usesShell);
    steps := QuietlyCloses(Init(outLines, errLines, usesShell));
    DrainedIsClosed(After(Init(outLines, errLines, usesShell), steps));
  }

  lemma InitIsEmpty(outLines: seq<Line>, errLines: seq<Line>, usesShell: bool)
    ensures WithinLines(Init(outLines, errLines, usesShell))
    ensures forall k :: LinesOf(k, Sent(Init(outLines, errLines, usesShell))) == []
  {
    forall k
      ensures LinesOf(k, Sent(Init(outLines, errLines, usesShell))) == []
    {
      NoLines(k, Sent(Init(outLines, errLines, usesShell)));
    }
  }

  lemma DrainedIsClosed(s: State)
    requires Drained(s)
    ensures IsClosed(s)
  {
  }

  /** The process exits while its first line is being scanned, and the scanner returns a part of it. */
  lemma ScanIsCut(outLines: seq<Line>, errLines: seq<Line>, usesShell: bool, n: nat) returns (steps: seq<Step>)
    requires outLines != [] && 0 < n < |outLines[0]|
    ensures var s0, line := Init(outLines, errLines, usesShell), outLines[0][..n];
            && ValidRun(s0, steps)
            && After(s0, steps) == s0.(out := Reader(outLines, Scanned(line), [line], true), waiter := Exited(false))
  {
    var s0 := Init(outLines, errLines, usesShell);
    steps := [];
    assert ValidRun(s0, steps) && After(s0, steps) == s0;
    hide ValidRun, After;
    steps := Then(s0, steps, Read(Stdout, Check));
    steps := Then(s0, steps, Wait(ProcessExits(false)));
    steps := Then(s0, steps, Read(Stdout, ScanCut(n)));
  }

  /** A line can arrive cut short, at any length but zero, when the process exits while it is being scanned. */
  lemma LineCanBeCut(outLines: seq<Line>, errLines: seq<Line>, usesShell: bool, n: nat) returns (steps: seq<Step>)
    requires outLines != [] && 0 < n < |outLines[0]|
    ensures ValidRun(Init(outLines, errLines, usesShell), steps)
    ensures LinesOf(Stdout, Sent(After(Init(outLines, errLines, usesShell), steps))) == [outLines[0][..n]]
  {
    var s0 := Init(outLines, errLines, usesShell);
    steps := ScanIsCut(outLines, errLines, usesShell, n);
    hide ValidRun, After, LinesOf;
    steps := Then(s0, steps, Read(Stdout, ReadStatus));
    var ready := After(s0, steps);
    steps := Then(s0, steps, Read(Stdout, SendLine));
    NoLines(Stdout, Sent(s0));
    assert Sent(ready) == Sent(s0);
    SendKeepsOrder(ready, Output(Stdout, outLines[0][..n], RUNNING), Stdout);
  }
}
