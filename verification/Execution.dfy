/**
 * The code of Start and of the four goroutines that it leaves behind. Between any two of their channel and lock
 * operations the others, and the caller, take steps of their own. The state that the code reaches is always one that
 * the transition system reaches.
 */
module Executions {
  import opened Options
  import opened ProcessExecutor

  datatype Goroutine = TheReader(stream: Stream) | TheMonitor | TheWaiter

  /**
   * What happens before each operation of a reader's turn, what the scanner finds, and which ready case the select
   * takes.
   */
  datatype ReaderTurn = ReaderTurn(beforeCheck: seq<Step>, beforeScan: seq<Step>, beforeStatus: seq<Step>,
                                   beforeSend: seq<Step>, scan: ReaderMove, prefersDone: bool)

  /** The same for the monitor; `report` is what it finds out about the process, if that is bad or final. */
  datatype MonitorTurn = MonitorTurn(before: seq<Step>, beforeLook: seq<Step>, beforeReport: seq<Step>,
                                     beforeUnlock: seq<Step>, ticks: bool, report: Option<Status>)

  predicate IsBy(step: Step, g: Goroutine) {
    match g
    case TheReader(k) => step.Read? && step.stream == k
    case TheMonitor => step.Monitor?
    case TheWaiter => step.Wait?
  }

  /** What stays of the goroutine's own position while others move. */
  predicate StandsStill(s: State, s': State, g: Goroutine) {
    match g
    case TheReader(k) => ReaderOf(s', k) == ReaderOf(s, k)
    case TheMonitor => s'.monitor == s.monitor
    case TheWaiter => s'.waiter == s.waiter
  }

  lemma ReadLeavesAlone(s: State, k: Stream, m: ReaderMove, g: Goroutine)
    requires ReaderEnabled(s, k, m) && g != TheReader(k)
    ensures StandsStill(s, ReaderNext(s, k, m), g)
  {
    hide Moved, CanRead;
  }

  lemma MonitorLeavesAlone(s: State, m: MonitorMove, g: Goroutine)
    requires MonitorEnabled(s, m) && g != TheMonitor
    ensures StandsStill(s, MonitorNext(s, m), g)
  {
  }

  lemma WaiterLeavesAlone(s: State, m: WaiterMove, g: Goroutine)
    requires WaiterEnabled(s, m) && g != TheWaiter
    ensures StandsStill(s, WaiterNext(s, m), g)
  {
  }

  lemma OthersLeaveAlone(s: State, step: Step, g: Goroutine)
    requires Enabled(s, step) && !IsBy(step, g)
    ensures StandsStill(s, Next(s, step), g)
  {
    hide ReaderNext, MonitorNext, WaiterNext, ReaderEnabled, MonitorEnabled, WaiterEnabled;
    match step
    case Read(k, m) => ReadLeavesAlone(s, k, m, g);
    case Monitor(m) => MonitorLeavesAlone(s, m, g);
    case Wait(m) => WaiterLeavesAlone(s, m, g);
    case _ =>
  }

  /** The code has come from `s0` to `s` by these steps of the transition system. */
  ghost predicate Runs(s0: State, s: State, steps: seq<Step>) {
    ValidRun(s0, steps) && After(s0, steps) == s && ChannelSafe(s)
  }

  lemma RunsStep(s0: State, s: State, steps: seq<Step>, step: Step)
    requires Runs(s0, s, steps) && Enabled(s, step)
    ensures Runs(s0, Next(s, step), steps + [step])
  {
    StepKeepsSafe(s, step);
    Extend(s0, steps, step);
  }

  lemma ExitWasAnnounced(s0: State, s: State, steps: seq<Step>, failed: bool)
    requires ChannelSafe(s0) && Runs(s0, s, steps) && s0.waiter == AwaitExit && s.waiter == Done
    requires steps != [] && steps[0] == Wait(ProcessExits(failed))
    ensures Sent(s) != [] && Health(if failed then ERROR else FINISHED) in Sent(s)[..|Sent(s)| - 1]
  {
    FatedAfterExit(s0, steps, failed);
  }

  lemma SafeIsNotPanicked(s: State)
    requires ChannelSafe(s)
    ensures !s.panicked
  {
  }

  ghost function CountOf(steps: seq<Step>, x: Step): nat {
    if steps == [] then 0
    else CountOf(steps[..|steps| - 1], x) + (if steps[|steps| - 1] == x then 1 else 0)
  }

  lemma CountOneMore(steps: seq<Step>, step: Step, x: Step)
    ensures CountOf(steps + [step], x) == CountOf(steps, x) + (if step == x then 1 else 0)
  {
    assert (steps + [step])[..|steps|] == steps;
  }

  lemma {:induction false} CancelStays(s: State, steps: seq<Step>)
    requires ValidRun(s, steps) && s.cancelled
    ensures After(s, steps).cancelled
    decreases |steps|
  {
    if steps != [] {
      CancelStays(Next(s, steps[0]), steps[1..]);
    }
  }

  lemma OneSendOneLine(s: State, step: Step, k: Stream)
    requires ChannelSafe(s) && Enabled(s, step)
    ensures |LinesOf(k, Sent(Next(s, step)))| == |LinesOf(k, Sent(s))| + (if step == Read(k, SendLine) then 1 else 0)
  {
    if step.Read? {
      ReadSends(s, step.stream, step.move, k);
    } else {
      OtherStepKeepsOrder(s, step, k);
    }
  }

  /** A run sends as many lines of a stream as it has sends of its reader. */
  lemma {:induction false} SendsAreLines(s0: State, s: State, steps: seq<Step>, k: Stream)
    requires ChannelSafe(s0) && ValidRun(s0, steps) && After(s0, steps) == s
    ensures |LinesOf(k, Sent(s))| == |LinesOf(k, Sent(s0))| + CountOf(steps, Read(k, SendLine))
    decreases |steps|
  {
    if steps != [] {
      var step, rest := steps[0], steps[1..];
      OneSendOneLine(s0, step, k);
      StepKeepsSafe(s0, step);
      CountFirst(step, rest, Read(k, SendLine));
      assert steps == [step] + rest;
      hide LinesOf, Sent, ChannelSafe, Next, Enabled, CountOf;
      SendsAreLines(Next(s0, step), s, rest, k);
    }
  }

  lemma {:induction false} CountFirst(step: Step, rest: seq<Step>, x: Step)
    ensures CountOf([step] + rest, x) == (if step == x then 1 else 0) + CountOf(rest, x)
  {
    if rest == [] {
      assert [step] + rest == [step] && [step][..0] == [];
    } else {
      var n := |rest| - 1;
      CountFirst(step, rest[..n], x);
      assert ([step] + rest)[..n + 1] == [step] + rest[..n];
    }
  }

  /** How many of the first `n` turns have a tick. */
  function TickTurns(turns: seq<MonitorTurn>, n: nat): nat
    requires n <= |turns|
  {
    if n == 0 then 0 else TickTurns(turns, n - 1) + (if turns[n - 1].ticks then 1 else 0)
  }

  ghost predicate AllTick(turns: seq<MonitorTurn>, n: nat)
    requires n <= |turns|
  {
    forall j :: 0 <= j < n ==> turns[j].ticks
  }

  /** The monitor has taken the first `n` turns: it has ticked in each with a tick, and passed over no cancellation. */
  ghost predicate TookTurns(s0: State, s: State, steps: seq<Step>, turns: seq<MonitorTurn>, n: nat)
    requires n <= |turns|
  {
    && Runs(s0, s, steps) && CountOf(steps, Monitor(Tick)) == TickTurns(turns, n)
    && (s0.cancelled ==> AllTick(turns, n))
  }

  /** The monitor has left turn `n`: by the cancellation instead of a tick, or it waits after its tick. */
  ghost predicate LeftOff(s0: State, s: State, steps: seq<Step>, turns: seq<MonitorTurn>, n: nat)
    requires n < |turns|
  {
    && Runs(s0, s, steps) && (s0.cancelled ==> AllTick(turns, n))
    && CountOf(steps, Monitor(Tick)) == TickTurns(turns, n) + (if s.monitor == MonitorEnded then 0 else 1)
    && (if s.monitor == MonitorEnded then s.cancelled && !turns[n].ticks else MonitorWaits(s))
  }

  lemma LeftOffMeaning(s0: State, s: State, steps: seq<Step>, turns: seq<MonitorTurn>, n: nat)
    requires n < |turns| && LeftOff(s0, s, steps, turns, n)
    ensures Runs(s0, s, steps) && (s0.cancelled ==> AllTick(turns, n))
    ensures CountOf(steps, Monitor(Tick)) == TickTurns(turns, n) + (if s.monitor == MonitorEnded then 0 else 1)
    ensures if s.monitor == MonitorEnded then s.cancelled && !turns[n].ticks else MonitorWaits(s)
  {
  }

  lemma TurnTaken(s0: State, s: State, steps: seq<Step>, turns: seq<MonitorTurn>, n: nat)
    requires n < |turns| && Runs(s0, s, steps) && (s0.cancelled ==> AllTick(turns, n) && turns[n].ticks)
    requires CountOf(steps, Monitor(Tick)) == TickTurns(turns, n) + (if turns[n].ticks then 1 else 0)
    ensures TookTurns(s0, s, steps, turns, n + 1)
  {
  }

  lemma TurnLeftOff(s0: State, s: State, steps: seq<Step>, turns: seq<MonitorTurn>, n: nat)
    requires n < |turns| && Runs(s0, s, steps) && (s0.cancelled ==> AllTick(turns, n))
    requires CountOf(steps, Monitor(Tick)) == TickTurns(turns, n) + (if s.monitor == MonitorEnded then 0 else 1)
    requires if s.monitor == MonitorEnded then s.cancelled && !turns[n].ticks else MonitorWaits(s)
    ensures LeftOff(s0, s, steps, turns, n)
  {
  }

  lemma RunStaysCancelled(s0: State, s: State, steps: seq<Step>)
    requires Runs(s0, s, steps)
    ensures s0.cancelled ==> s.cancelled
  {
    if s0.cancelled {
      CancelStays(s0, steps);
    }
  }

  lemma TurnsMeaning(s0: State, s: State, steps: seq<Step>, turns: seq<MonitorTurn>, n: nat)
    requires n <= |turns| && TookTurns(s0, s, steps, turns, n)
    ensures Runs(s0, s, steps) && CountOf(steps, Monitor(Tick)) == TickTurns(turns, n)
    ensures s0.cancelled ==> AllTick(turns, n)
  {
  }

  predicate IsScan(m: ReaderMove) {
    m == ScanLine || m.ScanCut? || m == ScanEnd
  }

  /** The reader waits: for what the scanner is to find, or without any move that it could make. */
  ghost predicate ReaderWaits(s: State, k: Stream, scan: ReaderMove) {
    if ReaderOf(s, k).at == Scanning then !IsScan(scan) || !ReaderEnabled(s, k, scan)
    else forall m :: !ReaderEnabled(s, k, m)
  }

  ghost predicate MonitorWaits(s: State) {
    forall m :: !MonitorEnabled(s, m)
  }

  ghost predicate WaiterWaits(s: State) {
    forall m :: !WaiterEnabled(s, m)
  }

  /**
   * One started process: the variables that the goroutines of Start share, and the places where they stand;
   * `delivered` is the history of what the caller has received, `trace` of the steps since a goroutine was entered.
   */
  class Execution {
    var out: Reader
    var err: Reader
    var monitor: Monitor
    var waiter: Waiter
    var outputChan: seq<Message>
    var closes: nat
    var panicked: bool
    var healthStatusMu: bool
    var cancelled: bool
    var healthStatus: Option<Status>
    var delivered: seq<Message>
    ghost var trace: seq<Step>

    function View(): State
      reads this
    {
      State(out, err, monitor, waiter, outputChan, delivered, closes, panicked, healthStatusMu, cancelled, healthStatus)
    }

    /** Start, once the process runs: its first messages fit the buffer, so none of these sends blocks. */
    constructor (outLines: seq<Line>, errLines: seq<Line>, usesShell: bool)
      ensures View() == Init(outLines, errLines, usesShell)
      ensures |outputChan| < CAPACITY
    {
      out, err := Reader(outLines, Checking, [], false), Reader(errLines, Checking, [], false);
      monitor, waiter := Waiting, AwaitExit;
      outputChan, delivered, closes := [], [], 0;
      panicked, healthStatusMu, cancelled, healthStatus := false, false, false, None;
      new;
      SendFirst(usesShell);
    }

    /** The messages that Start sends before it spawns the goroutines. */
    method SendFirst(usesShell: bool)
      requires outputChan == [] && closes == 0
      modifies this`outputChan, this`panicked, this`healthStatus
      ensures healthStatus == Some(RUNNING) && panicked == old(panicked)
      ensures outputChan == (if usesShell then [] else [Debug]) + [Setup, Setup, Setup, Info, Health(RUNNING)]
    {
      if !usesShell {
        Put(Debug);
      }
      ghost var start := outputChan;
      Put(Setup);
      assert outputChan == start + [Setup];
      Put(Setup);
      assert outputChan == start + [Setup, Setup];
      Put(Setup);
      assert outputChan == start + [Setup, Setup, Setup];
      Put(Info);
      assert outputChan == start + [Setup, Setup, Setup, Info];
      healthStatus := Some(RUNNING);
      Put(Health(RUNNING));
    }

    method Put(m: Message)
      requires closes > 0 || |outputChan| < CAPACITY
      modifies this`outputChan, this`panicked
      ensures outputChan == if closes > 0 then old(outputChan) else old(outputChan) + [m]
      ensures panicked == (old(panicked) || closes > 0)
    {
      if closes > 0 {
        panicked := true;
      } else {
        outputChan := outputChan + [m];
      }
    }

    /** One move of the reader of stdout or of stderr. */
    method MoveReader(k: Stream, m: ReaderMove)
      requires Enabled(View(), Read(k, m))
      modifies this
      ensures View() == Next(old(View()), Read(k, m)) && trace == old(trace)
    {
      var r := if k == Stdout then out else err;
      match m {
        case Check => r := r.(at := if cancelled then ReaderEnded else Scanning);
        case ScanLine => r := Keep(r, r.lines[|r.seen|], false);
        case ScanCut(n) => r := Keep(r, r.lines[|r.seen|][..n], true);
        case ReadStatus => r := r.(at := Ready(r.at.line, if healthStatus.Some? then healthStatus.value else UNKNOWN));
        case SendLine =>
          Put(Output(k, r.at.line, r.at.status));
          r := r.(at := Checking);
        case _ => r := r.(at := ReaderEnded);
      }
      if k == Stdout {
        out := r;
      } else {
        err := r;
      }
    }

    /** One move of the goroutine that waits for the process. */
    method MoveWaiter(m: WaiterMove)
      requires Enabled(View(), Wait(m))
      modifies this
      ensures View() == Next(old(View()), Wait(m)) && trace == old(trace)
    {
      match m {
        case ProcessExits(failed) => waiter := Exited(failed);
        case Cancel =>
          cancelled := true;
          waiter := Cancelled(waiter.failed);
        case LockAndSet =>
          healthStatusMu := true;
          if healthStatus.Some? {
            healthStatus := Some(if waiter.failed then ERROR else FINISHED);
            waiter := Announcing(healthStatus.value);
          } else {
            waiter := WaiterUnlocks;
          }
        case Announce =>
          Put(Health(waiter.status));
          waiter := WaiterUnlocks;
        case Release =>
          healthStatusMu := false;
          waiter := Joining;
        case Join => waiter := Cleaning;
        case Clean =>
          healthStatus := None;
          waiter := LastSend;
        case SendLast =>
          Put(Health(FINISHED));
          waiter := Closing;
        case Close =>
          panicked := panicked || closes > 0;
          closes := closes + 1;
          waiter := Done;
      }
    }

    /** One move of the health monitor. */
    method MoveMonitor(m: MonitorMove)
      requires Enabled(View(), Monitor(m))
      modifies this
      ensures View() == Next(old(View()), Monitor(m)) && trace == old(trace)
    {
      match m {
        case Tick => monitor := Ticked;
        case Leave => monitor := MonitorEnded;
        case LockAndLook(report) =>
          healthStatusMu := true;
          if healthStatus.Some? && report.Some? {
            healthStatus := report;
            monitor := Reporting(report.value);
          } else {
            monitor := MonitorUnlocks;
          }
        case Report =>
          Put(Health(monitor.status));
          monitor := MonitorUnlocks;
        case Unlock =>
          healthStatusMu := false;
          monitor := Waiting;
      }
    }

    // ----- The goroutines as they are written -----

    /** What everybody else does meanwhile: those of the scheduled steps that do not block when their turn comes. */
    method Others(ghost s0: State, schedule: seq<Step>, me: Goroutine)
      requires Runs(s0, View(), trace)
      modifies this
      ensures Runs(s0, View(), trace) && ChannelSafe(View()) && StandsStill(old(View()), View(), me)
      ensures old(trace) <= trace && forall x :: IsBy(x, me) ==> CountOf(trace, x) == CountOf(old(trace), x)
    {
      for i := 0 to |schedule|
        invariant Runs(s0, View(), trace) && StandsStill(old(View()), View(), me)
        invariant old(trace) <= trace && forall x :: IsBy(x, me) ==> CountOf(trace, x) == CountOf(old(trace), x)
      {
        if Enabled(View(), schedule[i]) && !IsBy(schedule[i], me) {
          OtherStep(s0, schedule[i], me);
        }
      }
    }

    method OtherStep(ghost s0: State, step: Step, ghost me: Goroutine)
      requires Runs(s0, View(), trace) && Enabled(View(), step) && !IsBy(step, me)
      modifies this
      ensures Runs(s0, View(), trace) && ChannelSafe(View()) && StandsStill(old(View()), View(), me)
      ensures old(trace) <= trace && forall x :: IsBy(x, me) ==> CountOf(trace, x) == CountOf(old(trace), x)
    {
      RunsStep(s0, View(), trace, step);
      OthersLeaveAlone(View(), step, me);
      forall x | IsBy(x, me)
        ensures CountOf(trace + [step], x) == CountOf(trace, x)
      {
        CountOneMore(trace, step, x);
      }
      hide CountOf;
      Become(Next(View(), step));
      trace := trace + [step];
    }

    method Become(s: State)
      modifies this
      ensures View() == s && trace == old(trace)
    {
      out, err, monitor, waiter, outputChan, delivered := s.out, s.err, s.monitor, s.waiter, s.buffer, s.delivered;
      closes, panicked := s.closes, s.panicked;
      healthStatusMu, cancelled, healthStatus := s.locked, s.cancelled, s.health;
    }

    method Move(ghost s0: State, step: Step)
      requires Runs(s0, View(), trace) && Enabled(View(), step) && (step.Read? || step.Monitor? || step.Wait?)
      modifies this
      ensures Runs(s0, View(), trace) && ChannelSafe(View()) && View() == Next(old(View()), step)
      ensures trace == old(trace) + [step]
      ensures forall x :: CountOf(trace, x) == CountOf(old(trace), x) + (if step == x then 1 else 0)
    {
      RunsStep(s0, View(), trace, step);
      forall x
        ensures CountOf(trace + [step], x) == CountOf(trace, x) + (if step == x then 1 else 0)
      {
        CountOneMore(trace, step, x);
      }
      hide CountOf, Runs;
      match step {
        case Read(k, m) => MoveReader(k, m);
        case Monitor(m) => MoveMonitor(m);
        case Wait(m) => MoveWaiter(m);
      }
      trace := trace + [step];
    }

    function Reading(k: Stream): Reader
      reads this
    {
      ReaderOf(View(), k)
    }

    /**
     * readOutput: it sends one line in each of the first `n` turns. Then it returns, because of a cancellation or at
     * the end of the stream, or it waits in turn `n`, or all turns have been taken.
     */
    method ReadOutput(k: Stream, turns: seq<ReaderTurn>) returns (returned: bool, n: nat)
      requires ChannelSafe(View()) && Reading(k).at == Checking
      modifies this
      ensures Runs(old(View()), View(), trace)
      ensures n <= |turns| && |LinesOf(k, Sent(View()))| == |LinesOf(k, Sent(old(View())))| + n
      ensures returned <==> Reading(k).at == ReaderEnded
      ensures returned ==> n < |turns| && (cancelled || turns[n].scan == ScanEnd)
      ensures !returned ==> if n == |turns| then Reading(k).at == Checking else ReaderWaits(View(), k, turns[n].scan)
    {
      trace, returned, n := [], false, 0;
      while n < |turns|
        invariant n <= |turns| && Runs(old(View()), View(), trace) && Reading(k).at == Checking
        invariant CountOf(trace, Read(k, ReaderMove.SendLine)) == n
      {
        var sent := ReadTurn(old(View()), k, turns[n]);
        if !sent {
          returned := Reading(k).at == ReaderEnded;
          break;
        }
        n := n + 1;
      }
      SendsAreLines(old(View()), View(), trace, k);
    }

    /** One turn of readOutput, from its check of the cancellation to the send. */
    method ReadTurn(ghost s0: State, k: Stream, turn: ReaderTurn) returns (sent: bool)
      requires Runs(s0, View(), trace) && Reading(k).at == Checking
      modifies this
      ensures Runs(s0, View(), trace)
      ensures CountOf(trace, Read(k, ReaderMove.SendLine))
           == CountOf(old(trace), Read(k, ReaderMove.SendLine)) + (if sent then 1 else 0)
      ensures sent ==> Reading(k).at == Checking
      ensures !sent && Reading(k).at == ReaderEnded ==> cancelled || turn.scan == ScanEnd
      ensures !sent && Reading(k).at != ReaderEnded ==> ReaderWaits(View(), k, turn.scan)
    {
      hide Runs, CountOf;
      Others(s0, turn.beforeCheck, TheReader(k));
      Move(s0, Read(k, Check));
      sent := false;
      if Reading(k).at != ReaderEnded {
        var scanned := Scan(s0, k, turn);
        if scanned {
          sent := SendLine(s0, k, turn);
        }
      }
    }

    /** scanner.Scan: false at the end of the stream, or while there is no token yet. */
    method Scan(ghost s0: State, k: Stream, turn: ReaderTurn) returns (scanned: bool)
      requires Runs(s0, View(), trace) && Reading(k).at == Scanning
      modifies this
      ensures Runs(s0, View(), trace)
      ensures CountOf(trace, Read(k, ReaderMove.SendLine)) == CountOf(old(trace), Read(k, ReaderMove.SendLine))
      ensures scanned ==> Reading(k).at.Scanned?
      ensures !scanned ==> if Reading(k).at == ReaderEnded then turn.scan == ScanEnd
                           else ReaderWaits(View(), k, turn.scan)
    {
      hide Runs, CountOf;
      Others(s0, turn.beforeScan, TheReader(k));
      scanned := false;
      if IsScan(turn.scan) && Enabled(View(), Read(k, turn.scan)) {
        scanned := turn.scan != ScanEnd;
        Move(s0, Read(k, turn.scan));
      }
    }

    /** The status is read before the select; the select takes the cancellation or the send, whichever is ready. */
    method SendLine(ghost s0: State, k: Stream, turn: ReaderTurn) returns (sent: bool)
      requires Runs(s0, View(), trace) && Reading(k).at.Scanned?
      modifies this
      ensures Runs(s0, View(), trace)
      ensures CountOf(trace, Read(k, ReaderMove.SendLine))
           == CountOf(old(trace), Read(k, ReaderMove.SendLine)) + (if sent then 1 else 0)
      ensures sent ==> Reading(k).at == Checking
      ensures !sent ==> if Reading(k).at == ReaderEnded then cancelled else ReaderWaits(View(), k, turn.scan)
    {
      hide Runs, CountOf;
      Others(s0, turn.beforeStatus, TheReader(k));
      if healthStatusMu {
        return false;
      }
      Move(s0, Read(k, ReadStatus));
      sent := SelectSend(s0, k, turn);
    }

    method SelectSend(ghost s0: State, k: Stream, turn: ReaderTurn) returns (sent: bool)
      requires Runs(s0, View(), trace) && Reading(k).at.Ready?
      modifies this
      ensures Runs(s0, View(), trace)
      ensures CountOf(trace, Read(k, ReaderMove.SendLine))
           == CountOf(old(trace), Read(k, ReaderMove.SendLine)) + (if sent then 1 else 0)
      ensures sent ==> Reading(k).at == Checking
      ensures !sent ==> if Reading(k).at == ReaderEnded then cancelled else ReaderWaits(View(), k, turn.scan)
    {
      hide Runs, CountOf;
      Others(s0, turn.beforeSend, TheReader(k));
      sent := closes > 0 || |outputChan| < CAPACITY;
      if cancelled && (turn.prefersDone || !sent) {
        sent := false;
        Move(s0, Read(k, Quit));
      } else if sent {
        Move(s0, Read(k, ReaderMove.SendLine));
      }
    }

    /**
     * The goroutine that waits for the process. When it is done, the channel has been closed once, by it, after
     * HEALTH/FINISHED as the last message; otherwise it still waits for the mutex, for room or for the others.
     */
    method AwaitProcess(failed: bool, others: nat -> seq<Step>) returns (done: bool)
      requires ChannelSafe(View()) && waiter == AwaitExit
      modifies this
      ensures Runs(old(View()), View(), trace) && !panicked
      ensures done ==> waiter == Done && closes == 1 && Sent(View()) != []
                       && Sent(View())[|Sent(View())| - 1] == Health(FINISHED)
      ensures done ==> Health(if failed then ERROR else FINISHED) in Sent(View())[..|Sent(View())| - 1]
      ensures !done ==> waiter != AwaitExit && waiter != Done && WaiterWaits(View())
    {
      ghost var s0 := View();
      trace := [];
      assert Runs(s0, s0, []);
      hide *;
      SeeExit(s0, failed, others);
      done := AfterExit(s0, others);
      if done {
        ExitWasAnnounced(s0, View(), trace, failed);
      }
      SafeIsNotPanicked(View());
    }

    /** What the goroutine does once it has cancelled the others. */
    method AfterExit(ghost s0: State, others: nat -> seq<Step>) returns (done: bool)
      requires Runs(s0, View(), trace) && waiter.Cancelled?
      modifies this
      ensures Runs(s0, View(), trace) && ChannelSafe(View()) && old(trace) <= trace
      ensures done ==> waiter == Done && closes == 1 && Sent(View()) != []
                       && Sent(View())[|Sent(View())| - 1] == Health(FINISHED)
      ensures !done ==> waiter != AwaitExit && waiter != Done && WaiterWaits(View())
    {
      hide Runs, ChannelSafe, WaiterWaits;
      done := UpdateStatus(s0, others);
      if done {
        done := JoinAndClean(s0, others);
        if done {
          CloseOutput(s0, others);
        }
      }
    }

    method SeeExit(ghost s0: State, failed: bool, others: nat -> seq<Step>)
      requires Runs(s0, View(), trace) && ChannelSafe(View()) && waiter == AwaitExit && trace == []
      modifies this
      ensures Runs(s0, View(), trace) && waiter.Cancelled?
      ensures trace != [] && trace[0] == Wait(ProcessExits(failed))
    {
      hide Runs, CountOf;
      Move(s0, Wait(ProcessExits(failed)));
      Others(s0, others(0), TheWaiter);
      Move(s0, Wait(Cancel));
    }

    method CloseOutput(ghost s0: State, others: nat -> seq<Step>)
      requires Runs(s0, View(), trace) && waiter == Closing
      modifies this
      ensures Runs(s0, View(), trace) && ChannelSafe(View()) && old(trace) <= trace
      ensures waiter == Done && closes == 1
      ensures Sent(View()) != [] && Sent(View())[|Sent(View())| - 1] == Health(FINISHED)
    {
      hide Runs, CountOf;
      Others(s0, others(6), TheWaiter);
      Move(s0, Wait(Close));
    }

    method UpdateStatus(ghost s0: State, others: nat -> seq<Step>) returns (updated: bool)
      requires Runs(s0, View(), trace) && waiter.Cancelled?
      modifies this
      ensures Runs(s0, View(), trace) && (updated ==> waiter == Joining)
      ensures old(trace) <= trace
      ensures !updated ==> waiter != AwaitExit && waiter != Done && WaiterWaits(View())
      ensures ChannelSafe(View())
    {
      hide Runs, CountOf, Sent;
      Others(s0, others(1), TheWaiter);
      if healthStatusMu {
        return false;
      }
      Move(s0, Wait(LockAndSet));
      updated := true;
      if waiter.Announcing? {
        updated := AnnounceStatus(s0, others);
      }
      if updated {
        Others(s0, others(3), TheWaiter);
        Move(s0, Wait(Release));
      }
    }

    method AnnounceStatus(ghost s0: State, others: nat -> seq<Step>) returns (sent: bool)
      requires Runs(s0, View(), trace) && waiter.Announcing?
      modifies this
      ensures Runs(s0, View(), trace) && (sent ==> waiter == WaiterUnlocks)
      ensures old(trace) <= trace
      ensures !sent ==> waiter != AwaitExit && waiter != Done && WaiterWaits(View())
      ensures ChannelSafe(View())
    {
      hide Runs, CountOf, Sent;
      Others(s0, others(2), TheWaiter);
      if closes == 0 && |outputChan| == CAPACITY {
        return false;
      }
      Move(s0, Wait(Announce));
      sent := true;
    }

    method JoinAndClean(ghost s0: State, others: nat -> seq<Step>) returns (sent: bool)
      requires Runs(s0, View(), trace) && waiter == Joining
      modifies this
      ensures Runs(s0, View(), trace) && (sent ==> waiter == Closing)
      ensures old(trace) <= trace
      ensures !sent ==> waiter != AwaitExit && waiter != Done && WaiterWaits(View())
      ensures ChannelSafe(View())
    {
      hide Runs, CountOf, Sent;
      Others(s0, others(4), TheWaiter);
      if out.at != ReaderEnded || err.at != ReaderEnded || monitor != MonitorEnded {
        return false;
      }
      Move(s0, Wait(Join));
      if healthStatusMu {
        return false;
      }
      Move(s0, Wait(Clean));
      sent := SendFinished(s0, others);
    }

    method SendFinished(ghost s0: State, others: nat -> seq<Step>) returns (sent: bool)
      requires Runs(s0, View(), trace) && waiter == LastSend
      modifies this
      ensures Runs(s0, View(), trace) && (sent ==> waiter == Closing)
      ensures old(trace) <= trace
      ensures !sent ==> waiter != AwaitExit && waiter != Done && WaiterWaits(View())
      ensures ChannelSafe(View())
    {
      hide Runs, CountOf;
      Others(s0, others(5), TheWaiter);
      if closes == 0 && |outputChan| == CAPACITY {
        return false;
      }
      Move(s0, Wait(SendLast));
      sent := true;
    }

    /**
     * The health monitor has taken `n` whole turns, with a tick in each that has one. Then it returns because of the
     * cancellation, which it does not pass over in a turn without a tick, or it waits in turn `n` after its tick, or
     * all turns have been taken.
     */
    method MonitorHealth(turns: seq<MonitorTurn>) returns (returned: bool, n: nat)
      requires ChannelSafe(View()) && monitor == Waiting
      modifies this
      ensures Runs(old(View()), View(), trace)
      ensures n <= |turns| && (returned <==> monitor == MonitorEnded)
      ensures returned ==> n < |turns| && cancelled && !turns[n].ticks
      ensures CountOf(trace, Monitor(Tick))
           == TickTurns(turns, n) + (if !returned && n < |turns| then 1 else 0)
      ensures !returned ==> if n == |turns| then monitor == Waiting else MonitorWaits(View())
      ensures old(cancelled) ==> AllTick(turns, n)
    {
      trace, returned, n := [], false, 0;
      assert TookTurns(View(), View(), [], turns, 0);
      hide *;
      var went := true;
      while n < |turns| && went
        invariant n <= |turns|
        invariant went ==> TookTurns(old(View()), View(), trace, turns, n) && monitor == Waiting
        invariant !went ==> n < |turns| && LeftOff(old(View()), View(), trace, turns, n)
        decreases |turns| - n, went
      {
        went := TakeTurn(old(View()), turns, n);
        if went {
          n := n + 1;
        }
      }
      returned := monitor == MonitorEnded;
      if went {
        TurnsMeaning(old(View()), View(), trace, turns, n);
      } else {
        LeftOffMeaning(old(View()), View(), trace, turns, n);
      }
    }

    /** One select of the monitor and what follows a tick. */
    method TakeTurn(ghost s0: State, turns: seq<MonitorTurn>, n: nat) returns (went: bool)
      requires n < |turns| && TookTurns(s0, View(), trace, turns, n) && monitor == Waiting
      modifies this
      ensures went ==> TookTurns(s0, View(), trace, turns, n + 1) && monitor == Waiting
      ensures !went ==> LeftOff(s0, View(), trace, turns, n)
    {
      TurnsMeaning(s0, View(), trace, turns, n);
      hide CountOf, Runs, ChannelSafe, AllTick, TookTurns, LeftOff;
      Others(s0, turns[n].before, TheMonitor);
      RunStaysCancelled(s0, View(), trace);
      went := true;
      if turns[n].ticks {
        Move(s0, Monitor(Tick));
        went := LookAfterTick(s0, turns[n]);
      } else if cancelled {
        Move(s0, Monitor(Leave));
        went := false;
      }
      if went {
        TurnTaken(s0, View(), trace, turns, n);
      } else {
        TurnLeftOff(s0, View(), trace, turns, n);
      }
    }

    /** The mutex is held from the look at the process until after the report has been sent. */
    method LookAfterTick(ghost s0: State, turn: MonitorTurn) returns (unlocked: bool)
      requires Runs(s0, View(), trace) && monitor == Ticked
      modifies this
      ensures Runs(s0, View(), trace) && CountOf(trace, Monitor(Tick)) == CountOf(old(trace), Monitor(Tick))
      ensures if unlocked then monitor == Waiting else monitor != MonitorEnded && MonitorWaits(View())
    {
      hide CountOf;
      Others(s0, turn.beforeLook, TheMonitor);
      if healthStatusMu {
        return false;
      }
      var bad := turn.report.Some? && turn.report.value in {ERROR, FINISHED};
      Move(s0, Monitor(LockAndLook(if bad then turn.report else None)));
      if monitor.Reporting? {
        Others(s0, turn.beforeReport, TheMonitor);
        if closes == 0 && |outputChan| == CAPACITY {
          return false;
        }
        Move(s0, Monitor(Report));
      }
      Others(s0, turn.beforeUnlock, TheMonitor);
      Move(s0, Monitor(Unlock));
      unlocked := true;
    }
  }
}
