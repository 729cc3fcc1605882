/**
 * Progress of the slot dispatcher: bounded work, no deadlock of its own, and the one way to wedge it, with the exact
 * condition under which an accepted task can still be started.
 */
module DispatcherProgress {
  import opened Options
  import opened Sequences
  import opened TaskDispatcher

  // ----- Bounded work -----

  function Rank(w: Worker): nat {
    match w.at
    case Entered => 14
    case Creating => 13
    case Registered => 12
    case Preparing => 11
    case Looping(NotReturned) => 10
    case Looping(Buffered(_)) => 9
    case Looping(Received) => 8
    case Blocked => 0
    case Exiting => |w.defers|
  }

  ghost const RANK_OF := (w: Worker) => Rank(w)

  ghost function Remaining(s: State): int {
    20 * |s.pending| + (if s.received.Some? then 19 else 0) + 18 * |s.inApp| + 17 * |s.queue|
        + (if s.dispatcher.HoldingTask? then 16 else 0)
    + 15 * |s.overflow| + Sum(RANK_OF, s.workers)
  }

  /** A productive step moves some task towards its end. */
  predicate Productive(s: State, step: Step) {
    !step.Accept? && !step.TakeSlot? && !step.Shutdown? && !(step.UseSlot? && s.overflow == [])
  }

  lemma WorkDrains(s: State, i: nat, act: Act)
    requires StacksMatch(s) && Enabled(s, Work(i, act))
    ensures Remaining(WorkNext(s, i, act)) < Remaining(s)
  {
    hide Sum;
    SumUpdate(RANK_OF, s.workers, i, Perform(s.workers[i], act));
  }

  lemma DispatchDrains(s: State, step: Step)
    requires Enabled(s, step)
    requires Dispatches(step)
    ensures Productive(s, step) ==> Remaining(DispatchNext(s, step)) < Remaining(s)
    ensures !Productive(s, step) ==> Remaining(DispatchNext(s, step)) == Remaining(s)
  {
    hide Sum;
    match step
    case StartOrPark => SumAppend(RANK_OF, s.workers, NewWorker(s.dispatcher.task));
    case UseSlot => if s.overflow != [] { SumAppend(RANK_OF, s.workers, NewWorker(s.overflow[0])); }
    case _ =>
  }

  lemma AdmissionDrains(s: State, step: Step)
    requires Enabled(s, step) && Admits(step)
    ensures Productive(s, step) ==> Remaining(AdmissionNext(s, step)) < Remaining(s)
    ensures step.Accept? ==> Remaining(AdmissionNext(s, step)) <= Remaining(s) + 20
  {
    hide Sum;
  }

  /** Productive steps use up the remaining work, taking a slot and giving it back leave it alone. */
  lemma StepDrains(s: State, step: Step)
    requires StacksMatch(s) && Enabled(s, step)
    ensures Productive(s, step) ==> Remaining(Next(s, step)) < Remaining(s)
    ensures !Productive(s, step) && !step.Accept? ==> Remaining(Next(s, step)) == Remaining(s)
    ensures step.Accept? ==> Remaining(Next(s, step)) <= Remaining(s) + 20
  {
    match step
    case Work(i, act) => WorkDrains(s, i, act);
    case Accept(_) | Drain | Spawn | Drop(_) | Enqueue(_) => AdmissionDrains(s, step);
    case _ => DispatchDrains(s, step);
  }

  function Admissions(steps: seq<Step>): nat {
    if steps == [] then 0 else (if steps[0].Accept? then 1 else 0) + Admissions(steps[1..])
  }

  function ProductiveSteps(s: State, steps: seq<Step>): nat
    requires ValidRun(s, steps)
    decreases |steps|
  {
    if steps == [] then 0
    else (if Productive(s, steps[0]) then 1 else 0) + ProductiveSteps(Next(s, steps[0]), steps[1..])
  }

  /** In any run the productive steps are bounded by the work there was and the work that was admitted. */
  lemma {:induction false} RunIsBounded(s: State, steps: seq<Step>)
    requires StacksMatch(s) && ValidRun(s, steps)
    ensures ProductiveSteps(s, steps) + Remaining(After(s, steps)) <= Remaining(s) + 20 * Admissions(steps)
    decreases |steps|
  {
    if steps != [] {
      StepDrains(s, steps[0]);
      StepKeepsStacks(s, steps[0]);
      RunIsBounded(Next(s, steps[0]), steps[1..]);
    }
  }

  // ----- No dispatcher deadlock, and the one way to wedge it -----

  /** What the dispatcher can do on its own when a task waits for it. */
  function DispatcherPlan(s: State): seq<Step> {
    match s.dispatcher
    case HoldingTask(_) => [StartOrPark]
    case HoldingSlot => if s.overflow != [] then [UseSlot] else [UseSlot, TakeTask]
    case _ => if s.queue != [] then [TakeTask] else [TakeSlot, UseSlot]
  }

  predicate TaskWaits(s: State) {
    s.queue != [] || s.overflow != [] || s.dispatcher.HoldingTask?
  }

  lemma RunOfOne(s: State, a: Step)
    requires Enabled(s, a)
    ensures ValidRun(s, [a]) && After(s, [a]) == Next(s, a)
  {
    hide Next;
    assert ValidRun(Next(s, a), [a][1..]) && After(Next(s, a), [a][1..]) == Next(s, a);
  }

  lemma RunOfTwo(s: State, a: Step, b: Step)
    requires Enabled(s, a) && Enabled(Next(s, a), b)
    ensures ValidRun(s, [a, b]) && After(s, [a, b]) == Next(Next(s, a), b)
  {
    hide Next;
    RunOfOne(Next(s, a), b);
    assert [a, b][1..] == [b];
  }

  /** Doing `a` and then `b`, of which the second is productive. */
  lemma SecondStepDrains(s: State, a: Step, b: Step)
    requires StacksMatch(s) && Enabled(s, a) && !Productive(s, a) && !a.Accept?
    requires Enabled(Next(s, a), b) && Productive(Next(s, a), b)
    ensures ValidRun(s, [a, b]) && Remaining(After(s, [a, b])) < Remaining(s)
  {
    hide *;
    StepDrains(s, a);
    StepKeepsStacks(s, a);
    StepDrains(Next(s, a), b);
    RunOfTwo(s, a, b);
  }

  lemma OneStepDrains(s: State, a: Step)
    requires StacksMatch(s) && Enabled(s, a) && Productive(s, a)
    ensures ValidRun(s, [a]) && Remaining(After(s, [a])) < Remaining(s)
  {
    hide *;
    StepDrains(s, a);
    RunOfOne(s, a);
  }

  lemma GiveBackAndTake(s: State)
    requires Invariant(s) && s.dispatcher == HoldingSlot && s.overflow == [] && s.queue != []
    ensures ValidRun(s, [UseSlot, TakeTask]) && Remaining(After(s, [UseSlot, TakeTask])) < Remaining(s)
  {
    SlotSendsNeverBlock(s);
    SecondStepDrains(s, UseSlot, TakeTask);
  }

  lemma TakeAndUse(s: State)
    requires StacksMatch(s) && s.dispatcher == Selecting && s.overflow != [] && s.slots > 0
    ensures ValidRun(s, [TakeSlot, UseSlot]) && Remaining(After(s, [TakeSlot, UseSlot])) < Remaining(s)
  {
    SecondStepDrains(s, TakeSlot, UseSlot);
  }

  /**
   * While a task waits, at most two steps of the dispatcher alone do productive work,
   * unless the waiting tasks are all parked and every slot is held by a started task.
   */
  lemma DispatcherNeverDeadlocks(s: State)
    requires Invariant(s) && s.dispatcher != Stopped && TaskWaits(s)
    ensures (s.dispatcher == Selecting && s.queue == [] && SlotsHeld(s) == s.maxConcurrent)
         || (ValidRun(s, DispatcherPlan(s)) && Remaining(After(s, DispatcherPlan(s))) < Remaining(s))
  {
    hide Remaining;
    hide ValidRun;
    hide After;
    SlotSendsNeverBlock(s);
    match s.dispatcher
    case HoldingTask(_) => OneStepDrains(s, StartOrPark);
    case HoldingSlot =>
      if s.overflow != [] {
        OneStepDrains(s, UseSlot);
      } else {
        GiveBackAndTake(s);
      }
    case Selecting =>
      if s.queue != [] {
        OneStepDrains(s, TakeTask);
      } else if s.slots > 0 {
        TakeAndUse(s);
      }
  }

  ghost const BLOCKED_OF := (w: Worker) => if w.at == Blocked then 1 else 0

  /** Every slot is held by a goroutine that waits for a result nobody will send. */
  ghost predicate Wedged(s: State) {
    Sum(BLOCKED_OF, s.workers) == s.maxConcurrent
  }

  lemma BlockedHoldSlots(s: State)
    requires StacksMatch(s)
    ensures forall w <- s.workers :: BLOCKED_OF(w) <= SLOT_OF(w)
    ensures 0 <= Sum(BLOCKED_OF, s.workers) <= SlotsHeld(s)
  {
    forall w | w in s.workers
      ensures BLOCKED_OF(w) <= SLOT_OF(w)
    {
      StackMeaning(w);
    }
    SumMonotone(BLOCKED_OF, SLOT_OF, s.workers);
    SumNonNegative(BLOCKED_OF, s.workers);
  }

  /** The steps that neither admit nor drop a task, nor stop the dispatcher, nor block a goroutine. */
  predicate Serves(step: Step) {
    !step.Accept? && !step.Drop? && !step.Shutdown? && !(step.Work? && step.act == ObserveDone)
  }

  /** A goroutine that holds a slot can act, or it is blocked. */
  lemma HolderCanAct(s: State, i: nat) returns (act: Act)
    requires Invariant(s) && i < |s.workers| && HoldsSlot(s.workers[i]) && s.workers[i].at != Blocked
    ensures Enabled(s, Work(i, act)) && Serves(Work(i, act))
  {
    SlotSendsNeverBlock(s);
    StackMeaning(s.workers[i]);
    act := match s.workers[i].at
      case Entered => Enter
      case Creating => CreateSucceeds
      case Registered => DeferStop
      case Preparing => StartRun
      case Looping(_) => Complete
      case _ => Unwind;
  }

  /** Unless the dispatcher is wedged, a waiting task means that productive work is at most two steps away. */
  lemma ProgressUnlessWedged(s: State) returns (steps: seq<Step>)
    requires Invariant(s) && s.dispatcher != Stopped && TaskWaits(s) && !Wedged(s)
    ensures |steps| <= 2 && ValidRun(s, steps) && Remaining(After(s, steps)) < Remaining(s)
    ensures forall step <- steps :: Serves(step)
  {
    DispatcherNeverDeadlocks(s);
    steps := DispatcherPlan(s);
    if !(ValidRun(s, steps) && Remaining(After(s, steps)) < Remaining(s)) {
      BlockedHoldSlots(s);
      if forall w <- s.workers :: BLOCKED_OF(w) == SLOT_OF(w) {
        SumMonotone(SLOT_OF, BLOCKED_OF, s.workers);
        assert false;
      }
      var w :| w in s.workers && BLOCKED_OF(w) != SLOT_OF(w);
      var i :| 0 <= i < |s.workers| && s.workers[i] == w;
      var act := HolderCanAct(s, i);
      steps := [Work(i, act)];
      OneStepDrains(s, Work(i, act));
    }
  }

  lemma WedgedWork(s: State, i: nat, act: Act)
    requires Invariant(s) && Wedged(s) && Enabled(s, Work(i, act))
    ensures Wedged(WorkNext(s, i, act)) && TasksOf(WorkNext(s, i, act).workers) == TasksOf(s.workers)
  {
    hide Sum;
    var w' := Perform(s.workers[i], act);
    SumUpdate(BLOCKED_OF, s.workers, i, w');
    TasksOfUpdate(s.workers, i, w');
    StepKeepsInvariant(s, Work(i, act));
    hide TasksConserved, RegistryExact, ParkedInOrder;
    BlockedHoldSlots(WorkNext(s, i, act));
  }

  lemma WedgedStep(s: State, step: Step)
    requires Invariant(s) && Wedged(s) && Enabled(s, step)
    ensures Wedged(Next(s, step)) && TasksOf(Next(s, step).workers) == TasksOf(s.workers)
  {
    hide Sum, TasksConserved, RegistryExact, ParkedInOrder, TasksOf;
    BlockedHoldSlots(s);
    if step.Work? {
      WedgedWork(s, step.index, step.act);
    }
  }

  /** Once wedged, always wedged: no task ever starts again, whatever is still queued or parked. */
  lemma {:induction false} WedgedForever(s: State, steps: seq<Step>)
    requires Invariant(s) && Wedged(s) && ValidRun(s, steps)
    ensures Wedged(After(s, steps)) && TasksOf(After(s, steps).workers) == TasksOf(s.workers)
    decreases |steps|
  {
    if steps != [] {
      WedgedStep(s, steps[0]);
      StepKeepsInvariant(s, steps[0]);
      WedgedForever(Next(s, steps[0]), steps[1..]);
    }
  }

  // ----- Which tasks can still be served -----

  /** An accepted task that has not started and has not been dropped. */
  ghost predicate Waits(s: State, t: TaskId) {
    t in s.accepted && t !in s.dropped && t !in TasksOf(s.workers)
  }

  lemma WhereItWaits(s: State, t: TaskId)
    requires Invariant(s) && Waits(s, t)
    ensures t in s.pending || s.received == Some(t) || t in s.inApp || TaskWaits(s)
  {
    assert Count(s.accepted, t) == Occurrences(s, t);
  }

  lemma WaitingTask(s: State) returns (t: TaskId)
    requires Invariant(s) && TaskWaits(s)
    ensures Waits(s, t)
  {
    t := if s.dispatcher.HoldingTask? then s.dispatcher.task else if s.queue != [] then s.queue[0] else s.overflow[0];
    assert Count(s.accepted, t) == Occurrences(s, t) <= 1;
  }

  lemma RemainingNonNegative(s: State)
    ensures Remaining(s) >= 0
  {
    SumNonNegative(RANK_OF, s.workers);
  }

  lemma ServingBlocksNobody(s: State, step: Step)
    requires s.dispatcher != Stopped && Enabled(s, step) && Serves(step)
    ensures var s' := Next(s, step);
            && Sum(BLOCKED_OF, s'.workers) == Sum(BLOCKED_OF, s.workers) && s'.maxConcurrent == s.maxConcurrent
            && s'.dispatcher != Stopped && s'.accepted == s.accepted && s'.dropped == s.dropped
  {
    hide Sum;
    match step
    case StartOrPark => SumAppend(BLOCKED_OF, s.workers, NewWorker(s.dispatcher.task));
    case UseSlot => if s.overflow != [] { SumAppend(BLOCKED_OF, s.workers, NewWorker(s.overflow[0])); }
    case Work(i, act) => SumUpdate(BLOCKED_OF, s.workers, i, Perform(s.workers[i], act));
    case _ =>
  }

  /** A serving step blocks nobody, so it does not wedge the dispatcher. */
  lemma ServingStep(s: State, step: Step)
    requires Invariant(s) && s.dispatcher != Stopped && !Wedged(s) && Enabled(s, step) && Serves(step)
    ensures var s' := Next(s, step);
            && Invariant(s') && s'.dispatcher != Stopped && !Wedged(s')
            && s'.accepted == s.accepted && s'.dropped == s.dropped
  {
    hide Sum, Invariant, Next, Enabled;
    StepKeepsInvariant(s, step);
    ServingBlocksNobody(s, step);
  }

  lemma {:induction false} ServingRun(s: State, steps: seq<Step>)
    requires Invariant(s) && s.dispatcher != Stopped && !Wedged(s)
    requires ValidRun(s, steps) && forall step <- steps :: Serves(step)
    ensures var s' := After(s, steps);
            && Invariant(s') && s'.dispatcher != Stopped && !Wedged(s')
            && s'.accepted == s.accepted && s'.dropped == s.dropped
    decreases |steps|
  {
    if steps != [] {
      ServingStep(s, steps[0]);
      hide Invariant, Wedged, Next;
      ServingRun(Next(s, steps[0]), steps[1..]);
    }
  }

  /** While a task waits and the dispatcher is not wedged, there is a way to less remaining work that blocks nobody. */
  lemma ServeSome(s: State, t: TaskId) returns (steps: seq<Step>)
    requires Invariant(s) && s.dispatcher != Stopped && !Wedged(s) && Waits(s, t)
    ensures ValidRun(s, steps) && Remaining(After(s, steps)) < Remaining(s)
    ensures forall step <- steps :: Serves(step)
  {
    WhereItWaits(s, t);
    if s.received.Some? {
      OneStepDrains(s, Spawn);
      steps := [Spawn];
    } else if t in s.pending {
      OneStepDrains(s, Drain);
      steps := [Drain];
    } else if t in s.inApp && |s.queue| < QUEUE_CAPACITY {
      OneStepDrains(s, Enqueue(t));
      steps := [Enqueue(t)];
    } else {
      steps := ProgressUnlessWedged(s);
    }
  }

  /** A run that starts the waiting task `t`. */
  lemma {:induction false} Serve(s: State, t: TaskId) returns (steps: seq<Step>)
    requires Invariant(s) && s.dispatcher != Stopped && !Wedged(s) && Waits(s, t)
    ensures ValidRun(s, steps) && t in TasksOf(After(s, steps).workers)
    decreases Remaining(s)
  {
    RemainingNonNegative(s);
    steps := ServeSome(s, t);
    ServingRun(s, steps);
    var s' := After(s, steps);
    if t !in TasksOf(s'.workers) {
      assert Waits(s', t);
      hide *;
      var rest := Serve(s', t);
      RunsCompose(s, steps, rest);
      steps := steps + rest;
    }
  }

  /** Started tasks stay in the list; new ones are added behind them. */
  lemma StartedStay(s: State, step: Step)
    requires Enabled(s, step)
    ensures TasksOf(s.workers) <= TasksOf(Next(s, step).workers)
    ensures s.dispatcher == Stopped ==> Next(s, step).dispatcher == Stopped
    ensures s.dispatcher == Stopped ==> TasksOf(Next(s, step).workers) == TasksOf(s.workers)
  {
    if step.Work? {
      TasksOfUpdate(s.workers, step.index, Perform(s.workers[step.index], step.act));
    }
  }

  lemma {:induction false} RunKeepsStarted(s: State, steps: seq<Step>)
    requires ValidRun(s, steps)
    ensures TasksOf(s.workers) <= TasksOf(After(s, steps).workers)
    ensures s.dispatcher == Stopped ==> TasksOf(After(s, steps).workers) == TasksOf(s.workers)
    decreases |steps|
  {
    if steps != [] {
      StartedStay(s, steps[0]);
      RunKeepsStarted(Next(s, steps[0]), steps[1..]);
    }
  }

  /** A waiting task can still be started if and only if the dispatcher is neither stopped nor wedged. */
  lemma ServedUnlessWedged(s: State, t: TaskId)
    requires Invariant(s) && Waits(s, t)
    ensures (exists steps :: ValidRun(s, steps) && t in TasksOf(After(s, steps).workers)) <==>
            s.dispatcher != Stopped && !Wedged(s)
  {
    if s.dispatcher != Stopped && !Wedged(s) {
      var steps := Serve(s, t);
    } else {
      forall steps | ValidRun(s, steps)
        ensures t !in TasksOf(After(s, steps).workers)
      {
        RunKeepsStarted(s, steps);
        if Wedged(s) {
          WedgedForever(s, steps);
        }
      }
    }
  }

  /** While the dispatcher has a task to start, it can start one if and only if it is neither stopped nor wedged. */
  lemma StartsUnlessWedged(s: State)
    requires Invariant(s) && TaskWaits(s)
    ensures (exists steps :: ValidRun(s, steps) && |After(s, steps).workers| > |s.workers|) <==>
            s.dispatcher != Stopped && !Wedged(s)
  {
    if s.dispatcher != Stopped && !Wedged(s) {
      var t := WaitingTask(s);
      var steps := Serve(s, t);
      RunKeepsStarted(s, steps);
      assert t in TasksOf(After(s, steps).workers) && t !in TasksOf(s.workers);
    } else {
      forall steps | ValidRun(s, steps)
        ensures |After(s, steps).workers| == |s.workers|
      {
        RunKeepsStarted(s, steps);
        if Wedged(s) {
          WedgedForever(s, steps);
        }
        assert |TasksOf(After(s, steps).workers)| == |TasksOf(s.workers)|;
      }
    }
  }

  /** Nothing waits anywhere and a slot is free. */
  predicate Quiet(s: State) {
    Idle(s) && s.slots > 0
  }

  predicate Idle(s: State) {
    && s.pending == s.queue == s.overflow == [] && s.received.None? && s.dispatcher == Selecting
  }

  /** A new task reaches a goroutine of the app, with or without a buffer in between. */
  lemma Admit(s0: State, before: seq<Step>, t: TaskId) returns (steps: seq<Step>)
    requires ValidRun(s0, before) && Idle(After(s0, before)) && t !in After(s0, before).accepted
    ensures ValidRun(s0, steps)
    ensures var s := After(s0, before);
            After(s0, steps) == s.(accepted := s.accepted + [t], inApp := s.inApp + multiset{t})
  {
    hide ValidRun, After;
    steps := Then(s0, before, Accept(t));
    if After(s0, before).pendingCapacity > 0 {
      steps := Then(s0, steps, Drain);
    }
    steps := Then(s0, steps, Spawn);
  }

  lemma AdmitAndStart(s0: State, before: seq<Step>, t: TaskId) returns (steps: seq<Step>)
    requires ValidRun(s0, before) && Quiet(After(s0, before)) && t !in After(s0, before).accepted
    ensures ValidRun(s0, steps)
    ensures var s := After(s0, before);
            After(s0, steps) == s.(accepted := s.accepted + [t], queued := s.queued + [t], slots := s.slots - 1,
                                   workers := s.workers + [NewWorker(t)])
  {
    hide ValidRun, After;
    steps := Admit(s0, before, t);
    assert After(s0, steps).inApp - multiset{t} == After(s0, before).inApp;
    steps := Then(s0, steps, Enqueue(t));
    steps := Then(s0, steps, TakeTask);
    steps := Then(s0, steps, StartOrPark);
  }

  /** One act of a goroutine that touches neither slots nor registry. */
  lemma ExtendWork(s0: State, before: seq<Step>, i: nat, act: Act) returns (steps: seq<Step>)
    requires ValidRun(s0, before) && i < |After(s0, before).workers| && CanAct(After(s0, before).workers[i], act)
    requires act != Unwind
    ensures ValidRun(s0, steps)
    ensures var s := After(s0, before);
            After(s0, steps) == s.(workers := s.workers[i := Perform(s.workers[i], act)],
                                   active := After(s0, steps).active)
  {
    steps := Then(s0, before, Work(i, act));
  }

  /** A started task whose Run returns nil can end up blocked while it keeps its slot. */
  lemma StartedTaskCanBlock(s0: State, before: seq<Step>, i: nat) returns (steps: seq<Step>)
    requires ValidRun(s0, before) && i < |After(s0, before).workers| && After(s0, before).workers[i].at == Entered
    ensures ValidRun(s0, steps)
    ensures var s, s' := After(s0, before), After(s0, steps);
            && s' == s.(workers := s'.workers, active := s'.active)
            && |s'.workers| == |s.workers| && s'.workers[i].at == Blocked
            && forall j :: 0 <= j < |s.workers| && j != i ==> s'.workers[j] == s.workers[j]
  {
    hide ValidRun, After;
    steps := ExtendWork(s0, before, i, Enter);
    steps := ExtendWork(s0, steps, i, CreateSucceeds);
    steps := ExtendWork(s0, steps, i, DeferStop);
    steps := ExtendWork(s0, steps, i, StartRun);
    steps := ExtendWork(s0, steps, i, RunReturns(false));
    steps := ExtendWork(s0, steps, i, ObserveDone);
    steps := ExtendWork(s0, steps, i, ObserveDone);
  }

  /** The body has been left, or the result it will find is an error, which makes it leave. */
  predicate MustLeave(w: Worker) {
    w.at == Exiting || w.at == Looping(Buffered(true))
  }

  /** The acts of a goroutine, none of them touching a slot, that lead it from there to its second receive. */
  lemma {:induction false} LeadToBlock(s0: State, before: seq<Step>, i: nat) returns (steps: seq<Step>)
    requires ValidRun(s0, before) && i < |After(s0, before).workers| && !MustLeave(After(s0, before).workers[i])
    ensures ValidRun(s0, steps)
    ensures i < |After(s0, steps).workers| && After(s0, steps).workers[i].at == Blocked
    decreases Rank(After(s0, before).workers[i])
  {
    var w := After(s0, before).workers[i];
    if w.at == Blocked {
      steps := before;
    } else {
      var act := match w.at
        case Entered => Enter
        case Creating => CreateSucceeds
        case Registered => DeferStop
        case Preparing => StartRun
        case Looping(NotReturned) => RunReturns(false)
        case _ => ObserveDone;
      hide ValidRun, After;
      steps := ExtendWork(s0, before, i, act);
      assert After(s0, steps).workers[i] == Perform(w, act);
      steps := LeadToBlock(s0, steps, i);
    }
  }

  lemma LeavingStays(s: State, step: Step, i: nat)
    requires Enabled(s, step) && i < |s.workers| && MustLeave(s.workers[i])
    ensures i < |Next(s, step).workers| && MustLeave(Next(s, step).workers[i])
  {
  }

  lemma {:induction false} LeavingRun(s: State, steps: seq<Step>, i: nat)
    requires ValidRun(s, steps) && i < |s.workers| && MustLeave(s.workers[i])
    ensures i < |After(s, steps).workers| && MustLeave(After(s, steps).workers[i])
    decreases |steps|
  {
    if steps != [] {
      LeavingStays(s, steps[0], i);
      hide MustLeave, Next, Enabled;
      LeavingRun(Next(s, steps[0]), steps[1..], i);
    }
  }

  ghost predicate Blocks(s: State, steps: seq<Step>, i: nat) {
    ValidRun(s, steps) && i < |After(s, steps).workers| && After(s, steps).workers[i].at == Blocked
  }

  /** A goroutine can block with its slot unless it has left its body or the error that makes it leave has arrived. */
  lemma CanBlockUnlessLeaving(s: State, i: nat)
    requires i < |s.workers|
    ensures (exists steps :: Blocks(s, steps, i)) <==> !MustLeave(s.workers[i])
  {
    if MustLeave(s.workers[i]) {
      forall steps | ValidRun(s, steps)
        ensures !Blocks(s, steps, i)
      {
        LeavingRun(s, steps, i);
      }
    } else {
      assert ValidRun(s, []) && After(s, []) == s;
      var steps := LeadToBlock(s, [], i);
      assert Blocks(s, steps, i);
    }
  }

  /** `n` tasks were admitted and are all blocked; nothing else is going on. */
  ghost predicate OnlyBlocked(s: State, n: nat) {
    && s.slots == s.maxConcurrent - n && Idle(s)
    && (forall t <- s.accepted :: t < n)
    && Sum(BLOCKED_OF, s.workers) == n
  }

  lemma BlockOneMore(s0: State, before: seq<Step>, n: nat) returns (steps: seq<Step>)
    requires ValidRun(s0, before) && OnlyBlocked(After(s0, before), n) && n < After(s0, before).maxConcurrent
    ensures ValidRun(s0, steps) && OnlyBlocked(After(s0, steps), n + 1)
  {
    var workers := After(s0, before).workers;
    var started := AdmitAndStart(s0, before, n);
    steps := StartedTaskCanBlock(s0, started, |workers|);
    var w := After(s0, steps).workers[|workers|];
    assert After(s0, steps).workers == workers + [w];
    SumAppend(BLOCKED_OF, workers, w);
  }

  lemma {:induction false} BlockMany(maxConcurrent: nat, pendingCapacity: nat, n: nat) returns (steps: seq<Step>)
    requires n <= maxConcurrent
    ensures ValidRun(Init(maxConcurrent, pendingCapacity), steps)
    ensures OnlyBlocked(After(Init(maxConcurrent, pendingCapacity), steps), n)
  {
    if n == 0 {
      steps := [];
    } else {
      var before := BlockMany(maxConcurrent, pendingCapacity, n - 1);
      RunKeepsParameters(Init(maxConcurrent, pendingCapacity), before);
      steps := BlockOneMore(Init(maxConcurrent, pendingCapacity), before, n - 1);
    }
  }

  /** The wedge is reachable for every number of slots and every pending channel. */
  lemma WedgeReachable(maxConcurrent: nat, pendingCapacity: nat) returns (steps: seq<Step>)
    ensures ValidRun(Init(maxConcurrent, pendingCapacity), steps)
    ensures Wedged(After(Init(maxConcurrent, pendingCapacity), steps))
  {
    steps := BlockMany(maxConcurrent, pendingCapacity, maxConcurrent);
    RunKeepsParameters(Init(maxConcurrent, pendingCapacity), steps);
  }
}
