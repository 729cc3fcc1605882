/**
 Task admission and the slot dispatcher: the bounded pending channel of HodeiApp, the bounded
 task queue, the overflow list and the counting semaphore of WorkerInstanceManagerImpl, and one
 goroutine per started task with its stack of deferred calls.

 Every channel operation is one atomic step. A task is named by its execution identifier.
 */
module TaskDispatcher {
  import opened Options
  import opened Sequences

  type TaskId = nat

  const QUEUE_CAPACITY: nat := 100

  /** The calls that processTask defers, in the order in which it defers them. */
  datatype Deferred = CloseDone | CancelContext | ReleaseSlot | CancelInstance | Unregister | StopWorker | CancelRun

  const DEFER_ORDER := [CloseDone, CancelContext, ReleaseSlot, CancelInstance, Unregister, StopWorker, CancelRun]

  /** What has become of the result that the Run goroutine sends once on a channel of capacity one. */
  datatype RunResult = NotReturned | Buffered(failed: bool) | Received

  /** Where the body of processTask stands; Blocked waits for a second result that nobody sends. */
  datatype Position = Entered | Creating | Registered | Preparing | Looping(result: RunResult) | Blocked | Exiting

  datatype Worker = Worker(task: TaskId, at: Position, defers: seq<Deferred>)

  datatype Dispatcher = Selecting | HoldingTask(task: TaskId) | HoldingSlot | Stopped

  /**
   * `received` is the task that ProcessTasks has received and not yet given to a goroutine; while there is none, it
   * waits in its receive. `accepted`, `dropped`, `queued` and `parked` are histories: they only grow.
   */
  datatype State = State(
    maxConcurrent: nat,
    pendingCapacity: nat,
    accepted: seq<TaskId>,
    pending: seq<TaskId>,
    received: Option<TaskId>,
    inApp: multiset<TaskId>,
    dropped: multiset<TaskId>,
    queue: seq<TaskId>,
    slots: nat,
    overflow: seq<TaskId>,
    dispatcher: Dispatcher,
    workers: seq<Worker>,
    active: set<TaskId>,
    queued: seq<TaskId>,
    parked: seq<TaskId>)

  datatype Step =
    | Accept(task: TaskId)       // AddTask of HodeiApp sends on the pending channel
    | Drain                      // ProcessTasks receives from the buffer
    | Spawn                      // ... and starts a goroutine for the task
    | Drop(task: TaskId)         // no pool can be selected
    | Enqueue(task: TaskId)      // AddTask of the manager sends on the task queue
    | TakeTask                   // the dispatcher receives a task
    | StartOrPark                // ... and starts it if a slot is free, else parks it
    | TakeSlot                   // the dispatcher receives a slot
    | UseSlot                    // ... and starts a parked task, else gives the slot back
    | Shutdown                   // the dispatcher returns
    | Work(index: nat, act: Act) // goroutine `index` moves

  datatype Act =
    | Enter
    | CreateFails
    | CreateSucceeds
    | DeferStop
    | PreparationFails
    | StartRun
    | RunReturns(failed: bool)
    | ObserveDone
    | Complete
    | Unwind

  function Init(maxConcurrent: nat, pendingCapacity: nat): State {
    State(maxConcurrent, pendingCapacity, [], [], None, multiset{}, multiset{}, [], maxConcurrent, [], Selecting,
          [], {}, [], [])
  }

  // ----- The goroutine of one task -----

  function NewWorker(t: TaskId): Worker {
    Worker(t, Entered, [])
  }

  predicate CanAct(w: Worker, act: Act) {
    match act
    case Enter => w.at == Entered
    case CreateFails => w.at == Creating
    case CreateSucceeds => w.at == Creating
    case DeferStop => w.at == Registered
    case PreparationFails => w.at == Preparing
    case StartRun => w.at == Preparing
    case RunReturns(_) => w.at == Looping(NotReturned)
    case ObserveDone => w.at.Looping? && w.at.result != NotReturned
    case Complete => w.at.Looping?
    case Unwind => w.at == Exiting && w.defers != []
  }

  function Perform(w: Worker, act: Act): Worker
    requires CanAct(w, act)
  {
    match act
    case Enter => w.(at := Creating, defers := [CloseDone, CancelContext, ReleaseSlot, CancelInstance])
    case CreateFails => w.(at := Exiting)
    case CreateSucceeds => w.(at := Registered, defers := w.defers + [Unregister])
    case DeferStop => w.(at := Preparing, defers := w.defers + [StopWorker])
    case PreparationFails => w.(at := Exiting)
    case StartRun => w.(at := Looping(NotReturned), defers := w.defers + [CancelRun])
    case RunReturns(failed) => w.(at := Looping(Buffered(failed)))
    case ObserveDone =>
      (match w.at.result
       case Buffered(true) => w.(at := Exiting)
       case Buffered(false) => w.(at := Looping(Received))
       case _ => w.(at := Blocked))
    case Complete => w.(at := Exiting)
    case Unwind => w.(defers := w.defers[..|w.defers| - 1])
  }

  /** The deferred call that an Unwind runs. */
  function Top(w: Worker): Deferred
    requires w.defers != []
  {
    w.defers[|w.defers| - 1]
  }

  predicate Releases(w: Worker, act: Act) {
    act == Unwind && w.defers != [] && Top(w) == ReleaseSlot
  }

  predicate Unregisters(w: Worker, act: Act) {
    act == Unwind && w.defers != [] && Top(w) == Unregister
  }

  predicate HoldsSlot(w: Worker) {
    w.at == Entered || ReleaseSlot in w.defers
  }

  predicate IsRegistered(w: Worker) {
    Unregister in w.defers
  }


  // ----- The whole system -----

  /** A step is enabled when none of its channel operations would block. */
  predicate Enabled(s: State, step: Step) {
    match step
    // Without a buffer a send succeeds only while ProcessTasks waits in its receive.
    case Accept(t) =>
      t !in s.accepted && (if s.pendingCapacity == 0 then s.received.None? else |s.pending| < s.pendingCapacity)
    case Drain => s.pending != [] && s.received.None?
    case Spawn => s.received.Some?
    case Drop(t) => t in s.inApp
    case Enqueue(t) => t in s.inApp && |s.queue| < QUEUE_CAPACITY
    case TakeTask => s.dispatcher == Selecting && s.queue != []
    case StartOrPark => s.dispatcher.HoldingTask?
    case TakeSlot => s.dispatcher == Selecting && s.slots > 0
    case UseSlot => s.dispatcher == HoldingSlot && (s.overflow == [] ==> s.slots < s.maxConcurrent)
    case Shutdown => s.dispatcher == Selecting
    case Work(i, act) =>
      i < |s.workers| && CanAct(s.workers[i], act) &&
      (Releases(s.workers[i], act) ==> s.slots < s.maxConcurrent)
  }

  predicate Admits(step: Step) {
    step.Accept? || step.Drain? || step.Spawn? || step.Drop? || step.Enqueue?
  }

  predicate Dispatches(step: Step) {
    step.TakeTask? || step.StartOrPark? || step.TakeSlot? || step.UseSlot? || step.Shutdown?
  }

  function AdmissionNext(s: State, step: Step): State
    requires Enabled(s, step) && Admits(step)
  {
    match step
    case Accept(t) =>
      if s.pendingCapacity == 0 then s.(accepted := s.accepted + [t], received := Some(t))
      else s.(accepted := s.accepted + [t], pending := s.pending + [t])
    case Drain => s.(pending := s.pending[1..], received := Some(s.pending[0]))
    case Spawn => s.(received := None, inApp := s.inApp + multiset{s.received.value})
    case Drop(t) => s.(inApp := s.inApp - multiset{t}, dropped := s.dropped + multiset{t})
    case Enqueue(t) => s.(inApp := s.inApp - multiset{t}, queue := s.queue + [t], queued := s.queued + [t])
  }

  function DispatchNext(s: State, step: Step): State
    requires Enabled(s, step)
    requires Dispatches(step)
  {
    match step
    case TakeTask => s.(queue := s.queue[1..], dispatcher := HoldingTask(s.queue[0]))
    case StartOrPark =>
      var t := s.dispatcher.task;
      if s.slots > 0 then
        s.(slots := s.slots - 1, dispatcher := Selecting, workers := s.workers + [NewWorker(t)])
      else
        s.(overflow := s.overflow + [t], dispatcher := Selecting, parked := s.parked + [t])
    case TakeSlot => s.(slots := s.slots - 1, dispatcher := HoldingSlot)
    case UseSlot =>
      if s.overflow != [] then
        var t := s.overflow[0];
        s.(overflow := s.overflow[1..], dispatcher := Selecting, workers := s.workers + [NewWorker(t)])
      else
        s.(slots := s.slots + 1, dispatcher := Selecting)
    case Shutdown => s.(dispatcher := Stopped)
  }

  function WorkNext(s: State, i: nat, act: Act): State
    requires Enabled(s, Work(i, act))
  {
    var w := s.workers[i];
    s.(workers := s.workers[i := Perform(w, act)],
       active := if act == CreateSucceeds then s.active + {w.task}
                 else if Unregisters(w, act) then s.active - {w.task}
                 else s.active,
       slots := if Releases(w, act) then s.slots + 1 else s.slots)
  }

  function Next(s: State, step: Step): State
    requires Enabled(s, step)
  {
    match step
    case Work(i, act) => WorkNext(s, i, act)
    case Accept(_) | Drain | Spawn | Drop(_) | Enqueue(_) => AdmissionNext(s, step)
    case _ => DispatchNext(s, step)
  }

  predicate ValidRun(s: State, steps: seq<Step>)
    decreases |steps|
  {
    steps == [] || (Enabled(s, steps[0]) && ValidRun(Next(s, steps[0]), steps[1..]))
  }

  function After(s: State, steps: seq<Step>): State
    requires ValidRun(s, steps)
    decreases |steps|
  {
    if steps == [] then s else After(Next(s, steps[0]), steps[1..])
  }

  lemma {:induction false} Extend(s: State, steps: seq<Step>, step: Step)
    requires ValidRun(s, steps) && Enabled(After(s, steps), step)
    ensures ValidRun(s, steps + [step]) && After(s, steps + [step]) == Next(After(s, steps), step)
    decreases |steps|
  {
    if steps == [] {
      assert steps + [step] == [step];
      assert After(Next(s, step), [step][1..]) == Next(s, step);
    } else {
      Extend(Next(s, steps[0]), steps[1..], step);
      assert (steps + [step])[1..] == steps[1..] + [step];
    }
  }

  /** Extends a run by an enabled step. */
  lemma Then(s0: State, before: seq<Step>, step: Step) returns (steps: seq<Step>)
    requires ValidRun(s0, before) && Enabled(After(s0, before), step)
    ensures ValidRun(s0, steps) && After(s0, steps) == Next(After(s0, before), step)
  {
    Extend(s0, before, step);
    steps := before + [step];
  }

  lemma {:induction false} RunsCompose(s: State, a: seq<Step>, b: seq<Step>)
    requires ValidRun(s, a) && ValidRun(After(s, a), b)
    ensures ValidRun(s, a + b) && After(s, a + b) == After(After(s, a), b)
    decreases |a|
  {
    hide Next, Enabled;
    if a == [] {
      assert a + b == b;
    } else {
      var run := a + b;
      RunsCompose(Next(s, a[0]), a[1..], b);
      assert run[0] == a[0] && run[1..] == a[1..] + b;
    }
  }

  ghost predicate Reaches(s: State, s': State) {
    exists steps :: ValidRun(s, steps) && After(s, steps) == s'
  }

  lemma ReachesItself(s: State)
    ensures Reaches(s, s)
  {
    assert ValidRun(s, []) && After(s, []) == s;
  }

  lemma ReachesNext(s: State, s': State, step: Step)
    requires Reaches(s, s') && Enabled(s', step)
    ensures Reaches(s, Next(s', step))
  {
    hide Next, Enabled;
    var before :| ValidRun(s, before) && After(s, before) == s';
    var steps := Then(s, before, step);
  }

  lemma ReachesFurther(s: State, s': State, s'': State)
    requires Reaches(s, s') && Reaches(s', s'')
    ensures Reaches(s, s'')
  {
    var a :| ValidRun(s, a) && After(s, a) == s';
    var b :| ValidRun(s', b) && After(s', b) == s'';
    RunsCompose(s, a, b);
  }

  // ----- The invariant -----

  ghost const SLOT_OF := (w: Worker) => if HoldsSlot(w) then 1 else 0

  ghost function SlotsHeld(s: State): int {
    Sum(SLOT_OF, s.workers)
  }

  ghost function TasksOf(workers: seq<Worker>): seq<TaskId> {
    seq(|workers|, i requires 0 <= i < |workers| => workers[i].task)
  }

  ghost function HeldTask(d: Dispatcher): multiset<TaskId> {
    if d.HoldingTask? then multiset{d.task} else multiset{}
  }

  ghost function InHand(o: Option<TaskId>): multiset<TaskId> {
    if o.Some? then multiset{o.value} else multiset{}
  }

  ghost function Count(q: seq<TaskId>, t: TaskId): nat {
    multiset(q)[t]
  }

  /** How often `t` occurs over all the places where an accepted task can be. */
  ghost function Occurrences(s: State, t: TaskId): nat {
    Count(s.pending, t) + InHand(s.received)[t] + s.inApp[t] + s.dropped[t] + Count(s.queue, t)
        + HeldTask(s.dispatcher)[t]
    + Count(s.overflow, t) + Count(TasksOf(s.workers), t)
  }

  ghost predicate SlotsConserved(s: State) {
    s.slots + (if s.dispatcher == HoldingSlot then 1 else 0) + SlotsHeld(s) == s.maxConcurrent
  }

  /** Every accepted task is in exactly one place, and nothing else is anywhere. */
  ghost predicate TasksConserved(s: State) {
    forall t :: Count(s.accepted, t) == Occurrences(s, t) <= 1
  }

  predicate StackMatches(w: Worker) {
    && |w.defers| <= |DEFER_ORDER|
    && w.defers == DEFER_ORDER[..|w.defers|]
    && match w.at
       case Entered => |w.defers| == 0
       case Creating => |w.defers| == 4
       case Registered => |w.defers| == 5
       case Preparing => |w.defers| == 6
       case Looping(_) => |w.defers| == 7
       case Blocked => |w.defers| == 7
       case Exiting => true
  }

  ghost predicate StacksMatch(s: State) {
    forall i :: 0 <= i < |s.workers| ==> StackMatches(s.workers[i])
  }

  /** The registry holds exactly the tasks whose goroutine still has to unregister. */
  ghost predicate Registry(workers: seq<Worker>, active: set<TaskId>) {
    && (forall i :: 0 <= i < |workers| && IsRegistered(workers[i]) ==> workers[i].task in active)
    && (forall t :: t in active ==>
          exists i :: 0 <= i < |workers| && workers[i].task == t && IsRegistered(workers[i]))
  }

  ghost predicate RegistryExact(s: State) {
    Registry(s.workers, s.active)
  }

  /** The elements of `q` that occur in `m`, in the order of `q`. */
  ghost function Only(q: seq<TaskId>, m: seq<TaskId>): seq<TaskId> {
    if q == [] then []
    else Only(q[..|q| - 1], m) + (if q[|q| - 1] in m then [q[|q| - 1]] else [])
  }

  /** The parked tasks that have started, in the order in which they started, and then the overflow list. */
  ghost predicate ParkedInOrder(s: State) {
    Only(TasksOf(s.workers), s.parked) + s.overflow == s.parked
  }

  /** What waits are the latest of those that came; whoever has just been received is the one that came before them. */
  predicate Latest(waiting: seq<TaskId>, all: seq<TaskId>, received: seq<TaskId>) {
    && |received| + |waiting| <= |all|
    && waiting == all[|all| - |waiting|..]
    && received == all[|all| - |waiting| - |received|..|all| - |waiting|]
  }

  function ReceivedTask(s: State): seq<TaskId> {
    if s.received.Some? then [s.received.value] else []
  }

  function TaskInHand(s: State): seq<TaskId> {
    if s.dispatcher.HoldingTask? then [s.dispatcher.task] else []
  }

  /** Tasks leave the pending channel and the task queue in the order in which they entered. */
  predicate ArrivalsInOrder(s: State) {
    && Latest(s.pending, s.accepted, ReceivedTask(s))
    && Latest(s.queue, s.queued, TaskInHand(s))
  }

  ghost predicate Invariant(s: State) {
    && SlotsConserved(s)
    && TasksConserved(s)
    && StacksMatch(s)
    && RegistryExact(s)
    && ParkedInOrder(s)
    && |s.queue| <= QUEUE_CAPACITY
    && |s.pending| <= s.pendingCapacity
  }

  // ----- Facts about the list of goroutines -----

  lemma TasksOfAppend(workers: seq<Worker>, w: Worker)
    ensures TasksOf(workers + [w]) == TasksOf(workers) + [w.task]
  {
  }

  lemma TasksOfUpdate(workers: seq<Worker>, i: nat, w: Worker)
    requires i < |workers| && w.task == workers[i].task
    ensures TasksOf(workers[i := w]) == TasksOf(workers)
  {
  }

  /** No two goroutines run the same task. */
  lemma WorkersDistinct(s: State, i: nat, j: nat)
    requires TasksConserved(s) && i < j < |s.workers|
    ensures s.workers[i].task != s.workers[j].task
  {
    var ts := TasksOf(s.workers);
    assert Count(ts, ts[i]) <= Occurrences(s, ts[i]) <= 1;
    if ts[i] == ts[j] {
      RepeatedTwice(ts, i, j);
    }
  }

  lemma CountPush(q: seq<TaskId>, x: TaskId, t: TaskId)
    ensures Count(q + [x], t) == Count(q, t) + (if t == x then 1 else 0)
  {
  }

  lemma NotCounted(q: seq<TaskId>, t: TaskId)
    requires t !in q
    ensures Count(q, t) == 0
  {
  }

  lemma CountPop(q: seq<TaskId>, t: TaskId)
    requires q != []
    ensures Count(q, t) == Count(q[1..], t) + (if t == q[0] then 1 else 0)
  {
    assert q == [q[0]] + q[1..];
  }

  // ----- Every step keeps the invariant -----

  lemma BagAdd(m: multiset<TaskId>, x: TaskId, t: TaskId)
    ensures (m + multiset{x})[t] == m[t] + (if t == x then 1 else 0)
  {
  }

  lemma BagRemove(m: multiset<TaskId>, x: TaskId, t: TaskId)
    requires x in m
    ensures m[t] == (m - multiset{x})[t] + (if t == x then 1 else 0)
  {
  }

  lemma AcceptMoves(s: State, x: TaskId, t: TaskId)
    requires Enabled(s, Accept(x))
    ensures Occurrences(AdmissionNext(s, Accept(x)), t) == Occurrences(s, t) + (if x == t then 1 else 0)
  {
    hide Count;
    CountPush(s.pending, x, t);
  }

  lemma DrainMoves(s: State, t: TaskId)
    requires Enabled(s, Drain)
    ensures Occurrences(AdmissionNext(s, Drain), t) == Occurrences(s, t)
  {
    hide Count;
    CountPop(s.pending, t);
  }

  lemma SpawnMoves(s: State, t: TaskId)
    requires Enabled(s, Spawn)
    ensures Occurrences(AdmissionNext(s, Spawn), t) == Occurrences(s, t)
  {
    hide Count;
    BagAdd(s.inApp, s.received.value, t);
  }

  lemma DropMoves(s: State, x: TaskId, t: TaskId)
    requires Enabled(s, Drop(x))
    ensures Occurrences(AdmissionNext(s, Drop(x)), t) == Occurrences(s, t)
  {
    hide Count;
    BagRemove(s.inApp, x, t);
    BagAdd(s.dropped, x, t);
  }

  lemma EnqueueMoves(s: State, x: TaskId, t: TaskId)
    requires Enabled(s, Enqueue(x))
    ensures Occurrences(AdmissionNext(s, Enqueue(x)), t) == Occurrences(s, t)
  {
    hide Count;
    BagRemove(s.inApp, x, t);
    CountPush(s.queue, x, t);
  }

  lemma SpawnCounts(workers: seq<Worker>, x: TaskId, t: TaskId)
    ensures Count(TasksOf(workers + [NewWorker(x)]), t) == Count(TasksOf(workers), t) + (if t == x then 1 else 0)
  {
    TasksOfAppend(workers, NewWorker(x));
    CountPush(TasksOf(workers), x, t);
  }

  lemma StartOrParkMoves(s: State, t: TaskId)
    requires Enabled(s, StartOrPark)
    ensures Occurrences(DispatchNext(s, StartOrPark), t) == Occurrences(s, t)
  {
    hide Count;
    var x := s.dispatcher.task;
    if s.slots > 0 {
      SpawnCounts(s.workers, x, t);
    } else {
      CountPush(s.overflow, x, t);
    }
  }

  /** Moving a task from the overflow list to the goroutines. */
  lemma SameInTotal(s: State, s': State, t: TaskId)
    requires s'.pending == s.pending && s'.received == s.received && s'.inApp == s.inApp && s'.dropped == s.dropped
    requires s'.queue == s.queue && HeldTask(s'.dispatcher) == HeldTask(s.dispatcher)
    requires Count(s'.overflow, t) + Count(TasksOf(s'.workers), t)
          == Count(s.overflow, t) + Count(TasksOf(s.workers), t)
    ensures Occurrences(s', t) == Occurrences(s, t)
  {
    hide Count, TasksOf, HeldTask, InHand;
  }

  lemma UseSlotMoves(s: State, t: TaskId)
    requires Enabled(s, UseSlot)
    ensures Occurrences(DispatchNext(s, UseSlot), t) == Occurrences(s, t)
  {
    if s.overflow != [] {
      var s', x := DispatchNext(s, UseSlot), s.overflow[0];
      hide Count, TasksOf, Occurrences;
      CountPop(s.overflow, t);
      SpawnCounts(s.workers, x, t);
      SameInTotal(s, s', t);
    }
  }

  lemma TakeTaskMoves(s: State, t: TaskId)
    requires Enabled(s, TakeTask)
    ensures Occurrences(DispatchNext(s, TakeTask), t) == Occurrences(s, t)
  {
    hide Count;
    CountPop(s.queue, t);
  }

  lemma WorkMoves(s: State, i: nat, act: Act, t: TaskId)
    requires Enabled(s, Work(i, act))
    ensures Occurrences(WorkNext(s, i, act), t) == Occurrences(s, t)
  {
    hide Count;
    TasksOfUpdate(s.workers, i, Perform(s.workers[i], act));
  }

  lemma TakeSlotMoves(s: State, t: TaskId)
    requires Enabled(s, TakeSlot)
    ensures Occurrences(DispatchNext(s, TakeSlot), t) == Occurrences(s, t)
  {
  }

  lemma ShutdownMoves(s: State, t: TaskId)
    requires Enabled(s, Shutdown)
    ensures Occurrences(DispatchNext(s, Shutdown), t) == Occurrences(s, t)
  {
  }

  /** Only an admission changes how often a task occurs, and only for the admitted task. */
  lemma StepMovesTasks(s: State, step: Step, t: TaskId)
    requires Enabled(s, step)
    ensures Occurrences(Next(s, step), t) == Occurrences(s, t) + (if step == Accept(t) then 1 else 0)
  {
    hide Occurrences, Count, Enabled, AdmissionNext, DispatchNext, WorkNext;
    match step
    case Accept(x) => AcceptMoves(s, x, t);
    case Drain => DrainMoves(s, t);
    case Spawn => SpawnMoves(s, t);
    case Drop(x) => DropMoves(s, x, t);
    case Enqueue(x) => EnqueueMoves(s, x, t);
    case TakeTask => TakeTaskMoves(s, t);
    case StartOrPark => StartOrParkMoves(s, t);
    case UseSlot => UseSlotMoves(s, t);
    case Work(i, act) => WorkMoves(s, i, act, t);
    case TakeSlot => TakeSlotMoves(s, t);
    case Shutdown => ShutdownMoves(s, t);
  }

  lemma AcceptedStep(s: State, step: Step)
    requires Enabled(s, step)
    ensures Next(s, step).accepted == if step.Accept? then s.accepted + [step.task] else s.accepted
    ensures step.Accept? ==> step.task !in s.accepted
  {
  }

  lemma StepKeepsTasks(s: State, step: Step)
    requires TasksConserved(s) && Enabled(s, step)
    ensures TasksConserved(Next(s, step))
  {
    hide Count;
    var s' := Next(s, step);
    AcceptedStep(s, step);
    forall t
      ensures Count(s'.accepted, t) == Occurrences(s', t) <= 1
    {
      StepMovesTasks(s, step, t);
      assert Count(s.accepted, t) == Occurrences(s, t) <= 1;
      if step.Accept? {
        CountPush(s.accepted, step.task, t);
        NotCounted(s.accepted, step.task);
      }
    }
  }

  /** What an act does to the stack of deferred calls of its goroutine. */
  lemma ActKeepsStack(w: Worker, act: Act)
    requires StackMatches(w) && CanAct(w, act)
    ensures StackMatches(Perform(w, act))
  {
    if act == Unwind {
      assert Perform(w, act).defers == DEFER_ORDER[..|w.defers| - 1];
    }
  }

  lemma StackMeaning(w: Worker)
    requires StackMatches(w)
    ensures HoldsSlot(w) <==> w.at == Entered || |w.defers| >= 3
    ensures IsRegistered(w) <==> |w.defers| >= 5
    ensures w.defers != [] ==> (Top(w) == ReleaseSlot <==> |w.defers| == 3)
    ensures w.defers != [] ==> (Top(w) == Unregister <==> |w.defers| == 5)
  {
    if |w.defers| >= 3 { assert w.defers[2] == ReleaseSlot; }
    if |w.defers| >= 5 { assert w.defers[4] == Unregister; }
  }

  /** A goroutine stops holding its slot, or its registration, only by running the deferred call for it. */
  lemma ActMeaning(w: Worker, act: Act)
    requires StackMatches(w) && CanAct(w, act)
    ensures HoldsSlot(Perform(w, act)) <==> HoldsSlot(w) && !Releases(w, act)
    ensures Releases(w, act) ==> HoldsSlot(w)
    ensures IsRegistered(Perform(w, act)) <==> act == CreateSucceeds || (IsRegistered(w) && !Unregisters(w, act))
  {
    ActKeepsStack(w, act);
    StackMeaning(w);
    StackMeaning(Perform(w, act));
  }

  lemma DispatchKeepsSlots(s: State, step: Step)
    requires SlotsConserved(s) && Enabled(s, step)
    requires Dispatches(step)
    ensures SlotsConserved(DispatchNext(s, step))
  {
    hide Sum;
    match step
    case StartOrPark => SumAppend(SLOT_OF, s.workers, NewWorker(s.dispatcher.task));
    case UseSlot => if s.overflow != [] { SumAppend(SLOT_OF, s.workers, NewWorker(s.overflow[0])); }
    case _ =>
  }

  lemma WorkKeepsSlots(s: State, i: nat, act: Act)
    requires SlotsConserved(s) && StacksMatch(s) && Enabled(s, Work(i, act))
    ensures SlotsConserved(WorkNext(s, i, act))
  {
    hide Sum;
    ActMeaning(s.workers[i], act);
    SumUpdate(SLOT_OF, s.workers, i, Perform(s.workers[i], act));
  }

  lemma StepKeepsSlots(s: State, step: Step)
    requires SlotsConserved(s) && StacksMatch(s) && Enabled(s, step)
    ensures SlotsConserved(Next(s, step))
  {
    match step
    case Work(i, act) => WorkKeepsSlots(s, i, act);
    case Accept(_) | Drain | Spawn | Drop(_) | Enqueue(_) =>
    case _ => DispatchKeepsSlots(s, step);
  }

  lemma StepKeepsStacks(s: State, step: Step)
    requires StacksMatch(s) && Enabled(s, step)
    ensures StacksMatch(Next(s, step))
  {
    if step.Work? {
      ActKeepsStack(s.workers[step.index], step.act);
    }
  }

  lemma WorkKeepsRegistry(s: State, i: nat, act: Act)
    requires RegistryExact(s) && StacksMatch(s) && TasksConserved(s) && Enabled(s, Work(i, act))
    ensures RegistryExact(WorkNext(s, i, act))
  {
    var w := s.workers[i];
    ActMeaning(w, act);
    forall j | 0 <= j < |s.workers| && j != i
      ensures s.workers[j].task != w.task
    {
      WorkersDistinct(s, if i < j then i else j, if i < j then j else i);
    }
    UpdateKeepsRegistry(s.workers, s.active, i, Perform(w, act), WorkNext(s, i, act).active);
  }

  lemma UpdateKeepsRegistry(ws: seq<Worker>, active: set<TaskId>, i: nat, w': Worker, active': set<TaskId>)
    requires Registry(ws, active) && i < |ws| && w'.task == ws[i].task
    requires forall j :: 0 <= j < |ws| && j != i ==> ws[j].task != w'.task
    requires active' == if IsRegistered(w') then active + {w'.task} else active - {w'.task}
    ensures Registry(ws[i := w'], active')
  {
    var ws' := ws[i := w'];
    forall t | t in active'
      ensures exists j :: 0 <= j < |ws'| && ws'[j].task == t && IsRegistered(ws'[j])
    {
      if t == w'.task {
        assert ws'[i] == w';
      } else {
        var j :| 0 <= j < |ws| && ws[j].task == t && IsRegistered(ws[j]);
        assert ws'[j] == ws[j];
      }
    }
  }

  lemma SpawnKeepsRegistry(s: State, s': State, t: TaskId)
    requires RegistryExact(s) && s'.workers == s.workers + [NewWorker(t)] && s'.active == s.active
    ensures RegistryExact(s')
  {
    forall x | x in s'.active
      ensures exists i :: 0 <= i < |s'.workers| && s'.workers[i].task == x && IsRegistered(s'.workers[i])
    {
      var i :| 0 <= i < |s.workers| && s.workers[i].task == x && IsRegistered(s.workers[i]);
      assert s'.workers[i] == s.workers[i];
    }
  }

  lemma StepKeepsRegistry(s: State, step: Step)
    requires RegistryExact(s) && StacksMatch(s) && TasksConserved(s) && Enabled(s, step)
    ensures RegistryExact(Next(s, step))
  {
    match step
    case StartOrPark => if s.slots > 0 { SpawnKeepsRegistry(s, Next(s, step), s.dispatcher.task); }
    case UseSlot => if s.overflow != [] { SpawnKeepsRegistry(s, Next(s, step), s.overflow[0]); }
    case Work(i, act) => WorkKeepsRegistry(s, i, act);
    case _ =>
  }

  lemma OnlyAppend(q: seq<TaskId>, x: TaskId, m: seq<TaskId>)
    ensures Only(q + [x], m) == Only(q, m) + (if x in m then [x] else [])
  {
    assert (q + [x])[..|q|] == q;
  }

  lemma {:induction false} OnlyIgnores(q: seq<TaskId>, x: TaskId, m: seq<TaskId>)
    requires x !in q
    ensures Only(q, m + [x]) == Only(q, m) && x !in Only(q, m)
  {
    if q != [] {
      OnlyIgnores(q[..|q| - 1], x, m);
    }
  }

  /** A task in the dispatcher's hand has neither started nor been parked. */
  lemma HeldIsNew(s: State)
    requires TasksConserved(s) && ParkedInOrder(s) && s.dispatcher.HoldingTask?
    ensures s.dispatcher.task !in TasksOf(s.workers) && s.dispatcher.task !in s.parked
  {
    var t := s.dispatcher.task;
    assert Occurrences(s, t) <= 1;
    OnlyIgnores(TasksOf(s.workers), t, s.parked);
  }

  lemma StartOrParkKeepsOrder(s: State)
    requires TasksConserved(s) && ParkedInOrder(s) && Enabled(s, StartOrPark)
    ensures ParkedInOrder(DispatchNext(s, StartOrPark))
  {
    var ts, t := TasksOf(s.workers), s.dispatcher.task;
    HeldIsNew(s);
    hide Only, TasksConserved;
    if s.slots > 0 {
      TasksOfAppend(s.workers, NewWorker(t));
      OnlyAppend(ts, t, s.parked);
      assert Only(ts, s.parked) + [] == Only(ts, s.parked);
    } else {
      OnlyIgnores(ts, t, s.parked);
      assert Only(ts, s.parked) + s.overflow + [t] == Only(ts, s.parked) + (s.overflow + [t]);
    }
  }

  lemma MoveOver(a: seq<TaskId>, b: seq<TaskId>, m: seq<TaskId>)
    requires b != [] && a + b == m
    ensures a + [b[0]] + b[1..] == m && b[0] in m
  {
    assert m[|a|] == b[0];
  }

  lemma UseSlotKeepsOrder(s: State)
    requires ParkedInOrder(s) && Enabled(s, UseSlot)
    ensures ParkedInOrder(DispatchNext(s, UseSlot))
  {
    if s.overflow != [] {
      var ts, t := TasksOf(s.workers), s.overflow[0];
      hide Only, TasksOf;
      MoveOver(Only(ts, s.parked), s.overflow, s.parked);
      TasksOfAppend(s.workers, NewWorker(t));
      OnlyAppend(ts, t, s.parked);
    }
  }

  lemma StepKeepsOrder(s: State, step: Step)
    requires TasksConserved(s) && ParkedInOrder(s) && Enabled(s, step)
    ensures ParkedInOrder(Next(s, step))
  {
    hide Only, TasksConserved;
    match step
    case StartOrPark => StartOrParkKeepsOrder(s);
    case UseSlot => UseSlotKeepsOrder(s);
    case Work(i, act) => TasksOfUpdate(s.workers, i, Perform(s.workers[i], act));
    case _ =>
  }

  lemma StepKeepsInvariant(s: State, step: Step)
    requires Invariant(s) && Enabled(s, step)
    ensures Invariant(Next(s, step))
  {
    StepKeepsSlots(s, step);
    StepKeepsTasks(s, step);
    StepKeepsStacks(s, step);
    StepKeepsRegistry(s, step);
    StepKeepsOrder(s, step);
  }

  lemma {:induction false} RunKeepsInvariant(s: State, steps: seq<Step>)
    requires Invariant(s) && ValidRun(s, steps)
    ensures Invariant(After(s, steps))
    decreases |steps|
  {
    if steps != [] {
      StepKeepsInvariant(s, steps[0]);
      RunKeepsInvariant(Next(s, steps[0]), steps[1..]);
    }
  }

  lemma ReachableInvariant(maxConcurrent: nat, pendingCapacity: nat, steps: seq<Step>)
    requires ValidRun(Init(maxConcurrent, pendingCapacity), steps)
    ensures Invariant(After(Init(maxConcurrent, pendingCapacity), steps))
  {
    RunKeepsInvariant(Init(maxConcurrent, pendingCapacity), steps);
  }

  // ----- What every reachable state satisfies -----

  /** At most maxConcurrent tasks hold a slot; with the free and the dispatcher's slots they are exactly that many. */
  lemma SlotConservation(maxConcurrent: nat, pendingCapacity: nat, steps: seq<Step>)
    requires ValidRun(Init(maxConcurrent, pendingCapacity), steps)
    ensures var s := After(Init(maxConcurrent, pendingCapacity), steps);
            && s.slots + (if s.dispatcher == HoldingSlot then 1 else 0) + SlotsHeld(s) == maxConcurrent
            && 0 <= SlotsHeld(s) <= maxConcurrent
  {
    RunKeepsInvariant(Init(maxConcurrent, pendingCapacity), steps);
    SumNonNegative(SLOT_OF, After(Init(maxConcurrent, pendingCapacity), steps).workers);
    RunKeepsParameters(Init(maxConcurrent, pendingCapacity), steps);
  }

  lemma {:induction false} RunKeepsParameters(s: State, steps: seq<Step>)
    requires ValidRun(s, steps)
    ensures After(s, steps).maxConcurrent == s.maxConcurrent && After(s, steps).pendingCapacity == s.pendingCapacity
    decreases |steps|
  {
    if steps != [] {
      RunKeepsParameters(Next(s, steps[0]), steps[1..]);
    }
  }

  /** The two sends on the slot channel never block: giving a slot back, and the deferred release. */
  lemma SlotSendsNeverBlock(s: State)
    requires Invariant(s)
    ensures s.dispatcher == HoldingSlot ==> Enabled(s, UseSlot)
    ensures forall i :: 0 <= i < |s.workers| && CanAct(s.workers[i], Unwind) ==> Enabled(s, Work(i, Unwind))
  {
    hide Sum;
    SumNonNegative(SLOT_OF, s.workers);
    forall i | 0 <= i < |s.workers| && Releases(s.workers[i], Unwind)
      ensures s.slots < s.maxConcurrent
    {
      SumAtLeast(SLOT_OF, s.workers, i);
    }
  }

  /** No accepted task is lost or duplicated. */
  lemma NoTaskLost(maxConcurrent: nat, pendingCapacity: nat, steps: seq<Step>)
    requires ValidRun(Init(maxConcurrent, pendingCapacity), steps)
    ensures var s := After(Init(maxConcurrent, pendingCapacity), steps);
            multiset(s.accepted) ==
              multiset(s.pending) + InHand(s.received) + s.inApp + s.dropped + multiset(s.queue)
              + HeldTask(s.dispatcher) + multiset(s.overflow) + multiset(TasksOf(s.workers))
  {
    ReachableInvariant(maxConcurrent, pendingCapacity, steps);
    var s := After(Init(maxConcurrent, pendingCapacity), steps);
    var places := multiset(s.pending) + InHand(s.received) + s.inApp + s.dropped + multiset(s.queue)
                  + HeldTask(s.dispatcher) + multiset(s.overflow) + multiset(TasksOf(s.workers));
    forall t: TaskId
      ensures multiset(s.accepted)[t] == places[t]
    {
      assert Count(s.accepted, t) == Occurrences(s, t);
    }
  }

  /** The task queue holds a hundred tasks: a goroutine of the app waits exactly while it is full. */
  lemma QueueHoldsHundred(s: State, t: TaskId)
    requires Invariant(s)
    ensures |s.queue| <= 100
    ensures Enabled(s, Enqueue(t)) <==> t in s.inApp && |s.queue| != 100
  {
  }

  /** Parked tasks start in the order in which they were parked, whatever overtakes them in between. */
  lemma OverflowIsFifo(maxConcurrent: nat, pendingCapacity: nat, steps: seq<Step>)
    requires ValidRun(Init(maxConcurrent, pendingCapacity), steps)
    ensures var s := After(Init(maxConcurrent, pendingCapacity), steps);
            Only(TasksOf(s.workers), s.parked) + s.overflow == s.parked
  {
    ReachableInvariant(maxConcurrent, pendingCapacity, steps);
  }

  lemma LatestPush(waiting: seq<TaskId>, all: seq<TaskId>, received: seq<TaskId>, t: TaskId)
    requires Latest(waiting, all, received)
    ensures Latest(waiting + [t], all + [t], received)
    ensures waiting == [] ==> Latest([], all + [t], [t])
  {
  }

  lemma LatestPop(waiting: seq<TaskId>, all: seq<TaskId>, received: seq<TaskId>)
    requires Latest(waiting, all, received)
    ensures waiting != [] ==> Latest(waiting[1..], all, [waiting[0]])
    ensures Latest(waiting, all, [])
  {
  }

  lemma AdmissionKeepsArrivals(s: State, step: Step)
    requires ArrivalsInOrder(s) && |s.pending| <= s.pendingCapacity && Enabled(s, step) && Admits(step)
    ensures ArrivalsInOrder(AdmissionNext(s, step))
  {
    LatestPop(s.pending, s.accepted, ReceivedTask(s));
    hide Latest;
    match step
    case Accept(t) => LatestPush(s.pending, s.accepted, ReceivedTask(s), t);
    case Enqueue(t) => LatestPush(s.queue, s.queued, TaskInHand(s), t);
    case _ =>
  }

  lemma DispatchKeepsArrivals(s: State, step: Step)
    requires ArrivalsInOrder(s) && Enabled(s, step) && Dispatches(step)
    ensures ArrivalsInOrder(DispatchNext(s, step))
  {
    LatestPop(s.queue, s.queued, TaskInHand(s));
    hide Latest;
  }

  lemma StepKeepsArrivals(s: State, step: Step)
    requires ArrivalsInOrder(s) && |s.pending| <= s.pendingCapacity && Enabled(s, step)
    ensures ArrivalsInOrder(Next(s, step)) && |Next(s, step).pending| <= Next(s, step).pendingCapacity
  {
    hide Latest;
    if Admits(step) {
      AdmissionKeepsArrivals(s, step);
    } else if Dispatches(step) {
      DispatchKeepsArrivals(s, step);
    }
    hide ArrivalsInOrder;
  }

  lemma {:induction false} RunKeepsArrivals(s: State, steps: seq<Step>)
    requires ArrivalsInOrder(s) && |s.pending| <= s.pendingCapacity && ValidRun(s, steps)
    ensures ArrivalsInOrder(After(s, steps))
    decreases |steps|
  {
    if steps != [] {
      StepKeepsArrivals(s, steps[0]);
      hide ArrivalsInOrder, Next, Enabled;
      RunKeepsArrivals(Next(s, steps[0]), steps[1..]);
    }
  }

  /**
   * The pending channel and the task queue are first in, first out: what waits are the latest arrivals in their order,
   * and the task in the receiver's hand is the one that arrived just before them.
   */
  lemma ChannelsAreFifo(maxConcurrent: nat, pendingCapacity: nat, steps: seq<Step>)
    requires ValidRun(Init(maxConcurrent, pendingCapacity), steps)
    ensures var s := After(Init(maxConcurrent, pendingCapacity), steps);
            && EndsWith(s.accepted, ReceivedTask(s) + s.pending)
            && EndsWith(s.queued, TaskInHand(s) + s.queue)
  {
    RunKeepsArrivals(Init(maxConcurrent, pendingCapacity), steps);
    var s := After(Init(maxConcurrent, pendingCapacity), steps);
    LatestMeaning(s.pending, s.accepted, ReceivedTask(s));
    LatestMeaning(s.queue, s.queued, TaskInHand(s));
  }

  lemma LatestMeaning(waiting: seq<TaskId>, all: seq<TaskId>, received: seq<TaskId>)
    requires Latest(waiting, all, received)
    ensures EndsWith(all, received + waiting)
  {
  }

  predicate EndsWith(all: seq<TaskId>, latest: seq<TaskId>) {
    |latest| <= |all| && all[|all| - |latest|..] == latest
  }

  /** Every key of the registry belongs to a task that still holds a slot. */
  lemma RegistrySafety(maxConcurrent: nat, pendingCapacity: nat, steps: seq<Step>, t: TaskId)
    requires ValidRun(Init(maxConcurrent, pendingCapacity), steps)
    requires t in After(Init(maxConcurrent, pendingCapacity), steps).active
    ensures var s := After(Init(maxConcurrent, pendingCapacity), steps);
            exists i :: 0 <= i < |s.workers| && s.workers[i].task == t && HoldsSlot(s.workers[i])
  {
    ReachableInvariant(maxConcurrent, pendingCapacity, steps);
    var s := After(Init(maxConcurrent, pendingCapacity), steps);
    var i :| 0 <= i < |s.workers| && s.workers[i].task == t && IsRegistered(s.workers[i]);
    StackMeaning(s.workers[i]);
  }

  /** The deferred calls that a goroutine runs from here to its end. */
  function UnwindOrder(w: Worker): (calls: seq<Deferred>)
    requires w.at == Exiting
    decreases |w.defers|
  {
    if w.defers == [] then [] else [Top(w)] + UnwindOrder(Perform(w, Unwind))
  }

  lemma {:induction false} UnwindIsReversedPrefix(w: Worker)
    requires w.at == Exiting && StackMatches(w)
    ensures |UnwindOrder(w)| == |w.defers|
    ensures forall k :: 0 <= k < |w.defers| ==> UnwindOrder(w)[k] == DEFER_ORDER[|w.defers| - 1 - k]
    decreases |w.defers|
  {
    if w.defers != [] {
      ActKeepsStack(w, Unwind);
      UnwindIsReversedPrefix(Perform(w, Unwind));
    }
  }

  /**
   * Whichever way the body exits, the slot is released exactly once; a registered task is
   * unregistered before that, and a prepared worker is stopped before it is unregistered.
   */
  lemma EveryExitReleasesOnce(w: Worker, act: Act)
    requires StackMatches(w) && CanAct(w, act) && w.at != Exiting && Perform(w, act).at == Exiting
    ensures var calls, n := UnwindOrder(Perform(w, act)), |w.defers|;
            && |calls| == n >= 4
            && (forall k :: 0 <= k < n ==> (calls[k] == ReleaseSlot <==> k == n - 3))
            && (IsRegistered(w) ==> n >= 5 && calls[n - 5] == Unregister)
            && (w.at == Preparing || w.at.Looping? ==> n >= 6 && calls[n - 6] == StopWorker)
  {
    ActKeepsStack(w, act);
    StackMeaning(w);
    UnwindIsReversedPrefix(Perform(w, act));
  }
}
