/**
 * The code around the slot dispatcher: HodeiApp's AddTask, the loop of taskDispatcher and the body of processTask.
 * Between any two channel operations other goroutines take steps of their own. The state that the code reaches is
 * always one that the transition system reaches.
 */
module TaskManagers {
  import opened Options
  import opened TaskDispatcher

  /** Which case the dispatcher's select takes, if it is ready, and what happens before the select and after it. */
  datatype Turn = Turn(before: seq<Step>, ready: Ready, between: seq<Step>)
  datatype Ready = ShutdownClosed | TaskQueued | SlotFree

  /** Which case the select of processTask's loop takes; an output message can end the loop. */
  datatype Output = Output(before: seq<Step>, ready: Case)
  datatype Case = RunDone | Message(ends: bool)

  datatype Goroutine = TheDispatcher | TaskBody(index: nat)

  /** The result of Run arrives from a goroutine of its own. */
  predicate IsBy(step: Step, g: Goroutine) {
    match g
    case TheDispatcher => Dispatches(step)
    case TaskBody(i) => step.Work? && step.index == i && !step.act.RunReturns?
  }

  /** What stays of the goroutine's own position while others move. */
  predicate StandsStill(s: State, s': State, g: Goroutine) {
    match g
    case TheDispatcher => s'.dispatcher == s.dispatcher
    case TaskBody(i) =>
      i < |s.workers| ==>
        && i < |s'.workers| && s'.workers[i].task == s.workers[i].task && s'.workers[i].defers == s.workers[i].defers
        && (|| s'.workers[i].at == s.workers[i].at
            || (s.workers[i].at == Looping(NotReturned) && s'.workers[i].at.Looping?))
  }

  lemma OthersLeaveAlone(s: State, step: Step, g: Goroutine)
    requires Enabled(s, step) && !IsBy(step, g)
    ensures StandsStill(s, Next(s, step), g)
  {
  }

  lemma StillStands(s: State, s': State, s'': State, g: Goroutine)
    requires StandsStill(s, s', g) && StandsStill(s', s'', g)
    ensures StandsStill(s, s'', g)
  {
  }

  /** The code has come from `s0` to `s` by steps of the transition system. */
  ghost predicate Runs(s0: State, s: State) {
    Reaches(s0, s) && Invariant(s)
  }

  lemma RunsStep(s0: State, s: State, step: Step)
    requires Runs(s0, s) && Enabled(s, step)
    ensures Runs(s0, Next(s, step))
  {
    StepKeepsInvariant(s, step);
    ReachesNext(s0, s, step);
  }

  lemma RunsMeaning(s0: State, s: State)
    requires Runs(s0, s)
    ensures Reaches(s0, s) && Invariant(s)
  {
  }

  lemma RunsFurther(s0: State, s: State, s': State)
    requires Reaches(s0, s) && Runs(s, s')
    ensures Runs(s0, s')
  {
    ReachesFurther(s0, s, s');
  }

  lemma NothingDeferred(s: State, i: nat)
    requires Invariant(s) && i < |s.workers| && s.workers[i].at == Entered
    ensures s.workers[i].defers == []
  {
    assert StackMatches(s.workers[i]);
  }

  // ----- What the loops amount to -----

  function Try(s: State, step: Step): State {
    if Enabled(s, step) then Next(s, step) else s
  }

  /** What the others do while this goroutine is between two operations. */
  function Meanwhile(s: State, schedule: seq<Step>, me: Goroutine): State {
    if schedule == [] then s
    else
      var before, step := Meanwhile(s, schedule[..|schedule| - 1], me), schedule[|schedule| - 1];
      if IsBy(step, me) then before else Try(before, step)
  }

  lemma MeanwhileOneMore(s: State, schedule: seq<Step>, i: nat, me: Goroutine)
    requires i < |schedule|
    ensures var before := Meanwhile(s, schedule[..i], me);
            Meanwhile(s, schedule[..i + 1], me) == if IsBy(schedule[i], me) then before else Try(before, schedule[i])
  {
    assert schedule[..i + 1][..i] == schedule[..i];
  }

  /** Receiving, what happens in between, and the reaction to what was received. */
  function Reacting(s: State, receive: Step, between: seq<Step>, reaction: Step): State {
    if Enabled(s, receive) then Try(Meanwhile(Next(s, receive), between, TheDispatcher), reaction) else s
  }

  function AfterTurn(s: State, turn: Turn): State {
    var ready := Meanwhile(s, turn.before, TheDispatcher);
    match turn.ready
    case ShutdownClosed => Try(ready, Shutdown)
    case TaskQueued => Reacting(ready, TakeTask, turn.between, StartOrPark)
    case SlotFree => Reacting(ready, TakeSlot, turn.between, UseSlot)
  }

  /** One of the first `n` turns takes the shutdown. */
  predicate ShutsDown(turns: seq<Turn>, n: nat)
    requires n <= |turns|
  {
    exists i :: 0 <= i < n && turns[i].ready == ShutdownClosed
  }

  lemma OneMoreTurn(turns: seq<Turn>, n: nat)
    requires n < |turns|
    ensures ShutsDown(turns, n + 1) <==> ShutsDown(turns, n) || turns[n].ready == ShutdownClosed
    ensures ShutsDown(turns, n + 1) ==> ShutsDown(turns, |turns|)
  {
  }

  function AfterTurns(s: State, turns: seq<Turn>): State
    decreases |turns|
  {
    if turns == [] || s.dispatcher == Stopped then s else AfterTurns(AfterTurn(s, turns[0]), turns[1..])
  }

  lemma TurnsStep(s: State, turns: seq<Turn>, i: nat)
    requires i < |turns| && s.dispatcher != Stopped
    ensures AfterTurns(s, turns[i..]) == AfterTurns(AfterTurn(s, turns[i]), turns[i + 1..])
  {
    hide AfterTurn;
    assert turns[i..][0] == turns[i] && turns[i..][1..] == turns[i + 1..];
  }

  lemma TurnsEnd(s: State, turns: seq<Turn>)
    requires turns == [] || s.dispatcher == Stopped
    ensures AfterTurns(s, turns) == s
  {
  }

  function AfterOutput(s: State, i: nat, output: Output): State {
    var ready := Meanwhile(s, output.before, TaskBody(i));
    match output.ready
    case RunDone => Try(ready, Work(i, ObserveDone))
    case Message(ends) => if ends then Try(ready, Work(i, Complete)) else ready
  }

  function AfterOutputs(s: State, i: nat, outputs: seq<Output>): State
    decreases |outputs|
  {
    if outputs == [] || i >= |s.workers| || !s.workers[i].at.Looping? then s
    else AfterOutputs(AfterOutput(s, i, outputs[0]), i, outputs[1..])
  }

  /** A goroutine that has run its last deferred call holds no slot, and its task is not registered. */
  lemma EndedIsReleased(s: State, i: nat)
    requires Invariant(s) && i < |s.workers| && s.workers[i].at == Exiting && s.workers[i].defers == []
    ensures !HoldsSlot(s.workers[i]) && s.workers[i].task !in s.active
  {
    if s.workers[i].task in s.active {
      var j :| 0 <= j < |s.workers| && s.workers[j].task == s.workers[i].task && IsRegistered(s.workers[j]);
      if j != i {
        WorkersDistinct(s, if i < j then i else j, if i < j then j else i);
      }
    }
  }

  /** HodeiApp with its WorkerInstanceManagerImpl; `accepted`, `dropped`, `queued` and `parked` are histories. */
  class TaskManager {
    const maxConcurrent: nat
    const pendingCapacity: nat
    var pendingTasksChan: seq<TaskId>
    var received: Option<TaskId>
    var taskQueue: seq<TaskId>
    var workerSlots: nat
    var pendingTasks: seq<TaskId>
    var dispatcher: Dispatcher
    var goroutines: seq<Worker>
    var activeWorkers: set<TaskId>
    var accepted: seq<TaskId>
    var inApp: multiset<TaskId>
    var dropped: multiset<TaskId>
    var queued: seq<TaskId>
    var parked: seq<TaskId>

    function View(): State
      reads this
    {
      State(maxConcurrent, pendingCapacity, accepted, pendingTasksChan, received, inApp, dropped, taskQueue,
            workerSlots, pendingTasks, dispatcher, goroutines, activeWorkers, queued, parked)
    }

    constructor (initialMaxConcurrent: nat, sizePendingTasks: nat)
      ensures View() == Init(initialMaxConcurrent, sizePendingTasks)
    {
      maxConcurrent, pendingCapacity := initialMaxConcurrent, sizePendingTasks;
      pendingTasksChan, received, taskQueue, workerSlots, pendingTasks := [], None, [], 0, [];
      dispatcher, goroutines, activeWorkers := Selecting, [], {};
      accepted, inApp, dropped, queued, parked := [], multiset{}, multiset{}, [], [];
      new;
      for i := 0 to initialMaxConcurrent
        invariant View() == Init(initialMaxConcurrent, sizePendingTasks).(slots := i)
      {
        workerSlots := workerSlots + 1;
      }
    }

    /** AddTask of HodeiApp: refuses a task exactly when the send on the pending channel would block. */
    method AddTask(t: TaskId) returns (full: bool)
      requires t !in accepted
      modifies this
      ensures full <==> !old(Enabled(View(), Accept(t)))
      ensures View() == if full then old(View()) else Next(old(View()), Accept(t))
    {
      full := if pendingCapacity == 0 then received.Some? else |pendingTasksChan| >= pendingCapacity;
      if !full {
        accepted := accepted + [t];
        if pendingCapacity == 0 {
          received := Some(t);
        } else {
          pendingTasksChan := pendingTasksChan + [t];
        }
      }
    }

    /** What other goroutines do meanwhile: those of the scheduled steps that do not block when their turn comes. */
    method Others(schedule: seq<Step>, me: Goroutine)
      requires Invariant(View())
      modifies this
      ensures Runs(old(View()), View()) && StandsStill(old(View()), View(), me)
      ensures View() == Meanwhile(old(View()), schedule, me)
    {
      ReachesItself(View());
      for i := 0 to |schedule|
        invariant Runs(old(View()), View()) && StandsStill(old(View()), View(), me)
        invariant View() == Meanwhile(old(View()), schedule[..i], me)
      {
        MeanwhileOneMore(old(View()), schedule, i, me);
        if Enabled(View(), schedule[i]) && !IsBy(schedule[i], me) {
          RunsStep(old(View()), View(), schedule[i]);
          OthersLeaveAlone(View(), schedule[i], me);
          StillStands(old(View()), View(), Next(View(), schedule[i]), me);
          Become(Next(View(), schedule[i]));
        }
      }
      assert schedule[..|schedule|] == schedule;
    }

    method Become(s: State)
      requires s.maxConcurrent == maxConcurrent && s.pendingCapacity == pendingCapacity
      modifies this
      ensures View() == s
    {
      accepted, inApp, dropped, queued, parked := s.accepted, s.inApp, s.dropped, s.queued, s.parked;
      BecomeManager(s);
      pendingTasksChan, received := s.pending, s.received;
    }

    method BecomeManager(s: State)
      modifies this`taskQueue, this`workerSlots, this`pendingTasks, this`dispatcher, this`goroutines, this`activeWorkers
      ensures taskQueue == s.queue && workerSlots == s.slots && pendingTasks == s.overflow
      ensures dispatcher == s.dispatcher && goroutines == s.workers && activeWorkers == s.active
    {
      taskQueue, workerSlots, pendingTasks := s.queue, s.slots, s.overflow;
      dispatcher, goroutines, activeWorkers := s.dispatcher, s.workers, s.active;
    }

    // ----- taskDispatcher -----

    /** The dispatcher's loop. No send of its own ever blocks, and it goes on until the shutdown. */
    method DispatchTasks(turns: seq<Turn>)
      requires Invariant(View()) && dispatcher == Selecting
      modifies this
      ensures Runs(old(View()), View()) && View() == AfterTurns(old(View()), turns)
      ensures dispatcher == if ShutsDown(turns, |turns|) then Stopped else Selecting
    {
      ReachesItself(View());
      assert Runs(View(), View()) && turns[0..] == turns;
      assert !ShutsDown(turns, 0);
      hide *;
      for i := 0 to |turns|
        invariant Runs(old(View()), View()) && dispatcher == Selecting
        invariant AfterTurns(View(), turns[i..]) == AfterTurns(old(View()), turns)
        invariant !ShutsDown(turns, i)
      {
        ghost var start := View();
        OneMoreTurn(turns, i);
        TurnsStep(start, turns, i);
        RunsMeaning(old(View()), start);
        var stopped := SelectOnce(turns[i]);
        RunsFurther(old(View()), start, View());
        if stopped {
          TurnsEnd(View(), turns[i + 1..]);
          return;
        }
      }
      TurnsEnd(View(), turns[|turns|..]);
    }

    /** One select of the loop and what follows it; a case that is not ready leaves the dispatcher waiting. */
    method SelectOnce(turn: Turn) returns (stopped: bool)
      requires Invariant(View()) && dispatcher == Selecting
      modifies this
      ensures Runs(old(View()), View()) && View() == AfterTurn(old(View()), turn)
      ensures stopped <==> turn.ready == ShutdownClosed
      ensures dispatcher == if stopped then Stopped else Selecting
    {
      stopped := turn.ready == ShutdownClosed;
      Others(turn.before, TheDispatcher);
      if stopped {
        RunsStep(old(View()), View(), Shutdown);
        dispatcher := Stopped;
      } else if turn.ready == TaskQueued && |taskQueue| > 0 {
        TakeTask(old(View()), turn.between);
      } else if turn.ready == SlotFree && workerSlots > 0 {
        TakeSlot(old(View()), turn.between);
      }
    }

    method TakeTask(ghost s0: State, between: seq<Step>)
      requires Runs(s0, View()) && dispatcher == Selecting && taskQueue != []
      modifies this
      ensures Runs(s0, View()) && dispatcher == Selecting
      ensures View() == Reacting(old(View()), Step.TakeTask, between, StartOrPark)
    {
      RunsStep(s0, View(), Step.TakeTask);
      dispatcher := HoldingTask(taskQueue[0]);
      taskQueue := taskQueue[1..];
      assert View() == Next(old(View()), Step.TakeTask);
      Pause(s0, between);
      RunsStep(s0, View(), StartOrPark);
      StartTaskOrPark();
    }

    /** By the invariant, giving the slot back never blocks. */
    method TakeSlot(ghost s0: State, between: seq<Step>)
      requires Runs(s0, View()) && dispatcher == Selecting && workerSlots > 0
      modifies this
      ensures Runs(s0, View()) && dispatcher == Selecting
      ensures View() == Reacting(old(View()), Step.TakeSlot, between, UseSlot)
    {
      RunsStep(s0, View(), Step.TakeSlot);
      dispatcher := HoldingSlot;
      workerSlots := workerSlots - 1;
      assert View() == Next(old(View()), Step.TakeSlot);
      Pause(s0, between);
      SlotSendsNeverBlock(View());
      RunsStep(s0, View(), UseSlot);
      UseOrReturnSlot();
    }

    /** As Others, in the middle of the dispatcher's code. */
    method Pause(ghost s0: State, schedule: seq<Step>)
      requires Runs(s0, View())
      modifies this
      ensures Runs(s0, View()) && dispatcher == old(dispatcher)
      ensures View() == Meanwhile(old(View()), schedule, TheDispatcher)
    {
      Others(schedule, TheDispatcher);
      RunsFurther(s0, old(View()), View());
    }

    /** The dispatcher's reaction to a task that it has received from the queue. */
    method StartTaskOrPark()
      requires Enabled(View(), StartOrPark)
      modifies this
      ensures View() == Next(old(View()), StartOrPark)
    {
      var task := dispatcher.task;
      if workerSlots > 0 {
        workerSlots := workerSlots - 1;
        goroutines := goroutines + [NewWorker(task)];
      } else {
        pendingTasks := pendingTasks + [task];
        parked := parked + [task];
      }
      dispatcher := Selecting;
    }

    /** The dispatcher's reaction to a slot that it has received. */
    method UseOrReturnSlot()
      requires Enabled(View(), UseSlot)
      modifies this
      ensures View() == Next(old(View()), UseSlot)
    {
      if |pendingTasks| > 0 {
        var task := pendingTasks[0];
        pendingTasks := pendingTasks[1..];
        goroutines := goroutines + [NewWorker(task)];
      } else {
        workerSlots := workerSlots + 1;
      }
      dispatcher := Selecting;
    }

    // ----- processTask -----

    /**
     * The body of processTask in goroutine `i`: it ends with its slot released, its worker stopped and unregistered,
     * or it stays in its loop because no message ends it or the second receive blocks it.
     */
    method ProcessTask(i: nat, others: nat -> seq<Step>, created: bool, prepared: bool, outputs: seq<Output>)
      returns (ended: bool)
      requires Invariant(View()) && i < |goroutines| && goroutines[i].at == Entered
      modifies this
      ensures Runs(old(View()), View())
      ensures i < |goroutines| && goroutines[i].task == old(goroutines[i].task)
      ensures ended ==> goroutines[i].at == Exiting && goroutines[i].defers == []
      ensures ended ==> !HoldsSlot(goroutines[i]) && goroutines[i].task !in activeWorkers
      ensures !ended ==> goroutines[i].at == Blocked || goroutines[i].at.Looping?
    {
      ghost var s0 := View();
      StartWorker(i, others, created, prepared);
      if goroutines[i].at.Looping? {
        ghost var s := View();
        MonitorTask(i, outputs);
        RunsFurther(s0, s, View());
      }
      ended := goroutines[i].at == Exiting;
      if ended {
        ghost var s := View();
        RunDeferredCalls(i, others);
        RunsFurther(s0, s, View());
        EndedIsReleased(View(), i);
      }
    }

    /** Goroutine `i` moves on to `at` and defers `more`; `act` is the step that this is. */
    method MoveTo(i: nat, ghost s0: State, ghost act: Act, at: Position, more: seq<Deferred>)
      requires Runs(s0, View()) && i < |goroutines|
      requires CanAct(goroutines[i], act) && act != Unwind && act != CreateSucceeds
      requires Perform(goroutines[i], act) == goroutines[i].(at := at, defers := goroutines[i].defers + more)
      modifies this`goroutines
      ensures Runs(s0, View()) && |goroutines| == old(|goroutines|)
      ensures goroutines[i] == old(goroutines[i].(at := at, defers := goroutines[i].defers + more))
      ensures View() == Next(old(View()), Work(i, act))
    {
      var w := goroutines[i];
      RunsStep(s0, View(), Work(i, act));
      goroutines := goroutines[i := w.(at := at, defers := w.defers + more)];
      assert View() == Next(old(View()), Work(i, act));
    }

    /** As Others, in the middle of the code of goroutine `i`. */
    method Yield(i: nat, ghost s0: State, schedule: seq<Step>)
      requires Runs(s0, View()) && i < |goroutines|
      modifies this
      ensures Runs(s0, View()) && StandsStill(old(View()), View(), TaskBody(i))
      ensures View() == Meanwhile(old(View()), schedule, TaskBody(i))
    {
      Others(schedule, TaskBody(i));
      RunsFurther(s0, old(View()), View());
    }

    /** Everything up to the start of Run, with an exit after a failed creation and one after a failed preparation. */
    method StartWorker(i: nat, others: nat -> seq<Step>, created: bool, prepared: bool)
      requires Invariant(View()) && i < |goroutines| && goroutines[i].at == Entered
      modifies this
      ensures Runs(old(View()), View())
      ensures i < |goroutines| && goroutines[i].task == old(goroutines[i].task)
      ensures goroutines[i].at == if created && prepared then Looping(NotReturned) else Exiting
    {
      ghost var s0 := View();
      ReachesItself(s0);
      NothingDeferred(s0, i);
      MoveTo(i, s0, Enter, Creating, [CloseDone, CancelContext, ReleaseSlot, CancelInstance]);
      Yield(i, s0, others(0));
      RunsStep(s0, View(), Work(i, if created then CreateSucceeds else CreateFails));
      CreateWorker(i, created);
      if created {
        Yield(i, s0, others(1));
        PrepareWorker(i, s0, others, prepared);
      }
    }

    method PrepareWorker(i: nat, ghost s0: State, others: nat -> seq<Step>, prepared: bool)
      requires Runs(s0, View()) && i < |goroutines| && goroutines[i].at == Registered
      modifies this
      ensures Runs(s0, View()) && i < |goroutines| && goroutines[i].task == old(goroutines[i].task)
      ensures goroutines[i].at == if prepared then Looping(NotReturned) else Exiting
    {
      hide Runs;
      MoveTo(i, s0, DeferStop, Preparing, [StopWorker]);
      Yield(i, s0, others(2));
      if prepared {
        MoveTo(i, s0, StartRun, Looping(NotReturned), [CancelRun]);
      } else {
        assert goroutines[i].defers + [] == goroutines[i].defers;
        MoveTo(i, s0, PreparationFails, Exiting, []);
      }
    }

    /** Creation of the worker instance of goroutine `i`, which registers it on success. */
    method CreateWorker(i: nat, created: bool)
      requires i < |goroutines| && goroutines[i].at == Creating
      modifies this
      ensures View() == Next(old(View()), Work(i, if created then CreateSucceeds else CreateFails))
    {
      var w := goroutines[i];
      if created {
        activeWorkers := activeWorkers + {w.task};
        goroutines := goroutines[i := w.(at := Registered, defers := w.defers + [Unregister])];
      } else {
        goroutines := goroutines[i := w.(at := Exiting)];
      }
    }

    /**
     * The loop: only an error of Run or a final message ends it; the second receive of the result never returns. If it
     * is still going on after these messages, none of them was final, and a result seen before was not seen again.
     */
    method MonitorTask(i: nat, outputs: seq<Output>)
      requires Invariant(View()) && i < |goroutines| && goroutines[i].at.Looping?
      modifies this
      ensures Runs(old(View()), View()) && View() == AfterOutputs(old(View()), i, outputs)
      ensures i < |goroutines| && goroutines[i].task == old(goroutines[i].task)
      ensures goroutines[i].at == Exiting || goroutines[i].at == Blocked || goroutines[i].at.Looping?
      ensures goroutines[i].at.Looping? ==> forall k :: 0 <= k < |outputs| ==> outputs[k].ready != Message(true)
      ensures goroutines[i].at.Looping? && old(goroutines[i].at) == Looping(Received) ==>
                forall k :: 0 <= k < |outputs| ==> outputs[k].ready != RunDone
    {
      ReachesItself(View());
      assert Runs(View(), View());
      for k := 0 to |outputs|
        invariant Runs(old(View()), View()) && i < |goroutines| && goroutines[i].task == old(goroutines[i].task)
        invariant goroutines[i].at.Looping?
        invariant AfterOutputs(View(), i, outputs[k..]) == AfterOutputs(old(View()), i, outputs)
        invariant forall j :: 0 <= j < k ==> outputs[j].ready != Message(true)
        invariant old(goroutines[i].at) == Looping(Received) ==>
                    goroutines[i].at == Looping(Received) && forall j :: 0 <= j < k ==> outputs[j].ready != RunDone
      {
        hide Runs, AfterOutput;
        assert outputs[k..][1..] == outputs[k + 1..];
        HandleOutput(i, old(View()), outputs[k]);
        if !goroutines[i].at.Looping? {
          return;
        }
      }
    }

    /** One turn of the loop; a case that is not ready leaves the goroutine waiting. */
    method HandleOutput(i: nat, ghost s0: State, output: Output)
      requires Runs(s0, View()) && i < |goroutines| && goroutines[i].at.Looping?
      modifies this
      ensures Runs(s0, View()) && View() == AfterOutput(old(View()), i, output)
      ensures i < |goroutines| && goroutines[i].task == old(goroutines[i].task)
      ensures goroutines[i].at == Exiting || goroutines[i].at == Blocked || goroutines[i].at.Looping?
      ensures output.ready == Message(true) ==> goroutines[i].at == Exiting
      ensures old(goroutines[i].at) == Looping(Received) && output.ready != Message(true) ==>
                goroutines[i].at == if output.ready == RunDone then Blocked else Looping(Received)
    {
      hide Runs, Invariant, Meanwhile;
      Yield(i, s0, output.before);
      assert goroutines[i].defers + [] == goroutines[i].defers;
      match output.ready {
        case RunDone =>
          if goroutines[i].at.result != NotReturned {
            ReceiveResult(i, s0);
          }
        case Message(ends) =>
          if ends {
            MoveTo(i, s0, Complete, Exiting, []);
          }
      }
    }

    /** The receive from runErrChan once runDoneChan is closed. */
    method ReceiveResult(i: nat, ghost s0: State)
      requires Runs(s0, View()) && i < |goroutines| && CanAct(goroutines[i], ObserveDone)
      modifies this`goroutines
      ensures Runs(s0, View()) && View() == Next(old(View()), Work(i, ObserveDone))
    {
      var result := goroutines[i].at.result;
      assert goroutines[i].defers + [] == goroutines[i].defers;
      if result == Received {
        MoveTo(i, s0, ObserveDone, Blocked, []);
      } else if result.failed {
        MoveTo(i, s0, ObserveDone, Exiting, []);
      } else {
        MoveTo(i, s0, ObserveDone, Looping(Received), []);
      }
    }

    /** The deferred calls, last one first. */
    method RunDeferredCalls(i: nat, others: nat -> seq<Step>)
      requires Invariant(View()) && i < |goroutines| && goroutines[i].at == Exiting
      modifies this
      ensures Runs(old(View()), View()) && i < |goroutines| && goroutines[i].task == old(goroutines[i].task)
      ensures goroutines[i].at == Exiting && goroutines[i].defers == []
    {
      ReachesItself(View());
      while goroutines[i].defers != []
        invariant Runs(old(View()), View()) && i < |goroutines| && goroutines[i].task == old(goroutines[i].task)
        invariant goroutines[i].at == Exiting
        decreases |goroutines[i].defers|
      {
        Yield(i, old(View()), others(3 + |goroutines[i].defers|));
        SlotSendsNeverBlock(View());
        RunsStep(old(View()), View(), Work(i, Unwind));
        RunDeferred(i);
      }
    }

    /** One deferred call of goroutine `i`. */
    method RunDeferred(i: nat)
      requires Enabled(View(), Work(i, Unwind))
      modifies this
      ensures View() == Next(old(View()), Work(i, Unwind))
    {
      var w := goroutines[i];
      var call := w.defers[|w.defers| - 1];
      goroutines := goroutines[i := w.(defers := w.defers[..|w.defers| - 1])];
      match call
      case ReleaseSlot => workerSlots := workerSlots + 1;
      case Unregister => activeWorkers := activeWorkers - {w.task};
      case _ =>
    }
  }
}
