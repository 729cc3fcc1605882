/**
 * The state machine of one worker and its capacity-one channel of the latest state. SetState runs
 * under a lock, while the consumer of the channel may receive between any two of its channel operations.
 */
module WorkerStates {
  import opened Options

  datatype Status = UNKNOWN | RUNNING | HEALTHY | ERROR | STOPPED | FINISHED | PENDING | DONE

  datatype Outcome = Unchanged | Moved | NotAllowed | ActionFailed

  /** A permitted transition; `stops` says that its action stops the worker first, which can fail. */
  datatype Transition = Transition(to: Status, stops: bool)

  type Table = map<Status, seq<Transition>>

  function Targets(table: Table, from: Status): seq<Transition> {
    if from in table then table[from] else []
  }

  /** The first transition to `to` in the list. */
  function Find(ts: seq<Transition>, to: Status): Option<Transition> {
    if ts == [] then None else if ts[0].to == to then Some(ts[0]) else Find(ts[1..], to)
  }

  function Add(table: Table, from: Status, to: Status, stops: bool): Table {
    table[from := Targets(table, from) + [Transition(to, stops)]]
  }

  /** The table built by NewWorkerState. */
  function WorkerTable(): Table {
    var t := Add(map[], UNKNOWN, RUNNING, false);
    var t := Add(t, RUNNING, HEALTHY, false);
    var t := Add(t, RUNNING, ERROR, false);
    var t := Add(t, HEALTHY, ERROR, false);
    var t := Add(t, HEALTHY, STOPPED, false);
    var t := Add(t, RUNNING, FINISHED, true);
    Add(t, HEALTHY, FINISHED, true)
  }

  /** `history` is every state entered so far, `received` every value the consumer has read. */
  datatype View = View(current: Status, channel: Option<Status>, history: seq<Status>, received: seq<Status>)

  const START := View(UNKNOWN, None, [], [])

  function Receive(v: View): View {
    if v.channel.None? then v else v.(channel := None, received := v.received + [v.channel.value])
  }

  /** Entering `to`; `taken` says that the consumer read the channel's old value during the call. */
  function MoveTo(v: View, to: Status, taken: bool): View {
    var seen := if taken then Receive(v) else v;
    seen.(current := to, channel := Some(to), history := v.history + [to])
  }

  /** What a SetState call amounts to. */
  function SetTo(table: Table, v: View, to: Status, actionOk: bool, taken: bool): View {
    var t := Find(Targets(table, v.current), to);
    if v.current == to || t.None? || (t.value.stops && !actionOk) then v else MoveTo(v, to, taken)
  }

  datatype Event = Set(to: Status, actionOk: bool, taken: bool) | Take

  function Apply(v: View, e: Event): View {
    match e
    case Set(to, ok, taken) => SetTo(WorkerTable(), v, to, ok, taken)
    case Take => Receive(v)
  }

  function Run(v: View, es: seq<Event>): View {
    if es == [] then v else Apply(Run(v, es[..|es| - 1]), es[|es| - 1])
  }

  // ----- The object -----

  class WorkerState {
    var currentState: Status
    var transitions: Table
    var stateChanged: Option<Status>
    ghost var history: seq<Status>
    ghost var received: seq<Status>

    ghost function Abstract(): View
      reads this
    {
      View(currentState, stateChanged, history, received)
    }

    constructor ()
      ensures Abstract() == START && transitions == WorkerTable()
    {
      currentState, transitions, stateChanged := UNKNOWN, map[], None;
      history, received := [], [];
      new;
      AddTransition(UNKNOWN, RUNNING, false);
      AddTransition(RUNNING, HEALTHY, false);
      AddTransition(RUNNING, ERROR, false);
      AddTransition(HEALTHY, ERROR, false);
      AddTransition(HEALTHY, STOPPED, false);
      AddTransition(RUNNING, FINISHED, true);
      AddTransition(HEALTHY, FINISHED, true);
    }

    method AddTransition(from: Status, to: Status, stops: bool)
      modifies this`transitions
      ensures transitions == Add(old(transitions), from, to, stops)
    {
      if from !in transitions {
        transitions := transitions[from := []];
      }
      transitions := transitions[from := transitions[from] + [Transition(to, stops)]];
    }

    /** The consumer receives, if there is something to receive. */
    method Consume()
      modifies this`stateChanged, this`received
      ensures Abstract() == Receive(old(Abstract()))
    {
      if stateChanged.Some? {
        received := received + [stateChanged.value];
        stateChanged := None;
      }
    }

    /**
     * The two selects and the last send. `before`, `between` and `after` say whether the consumer runs before the
     * first select, between the two and just before the send, which always finds the channel empty.
     */
    method Publish(newState: Status, before: bool, between: bool, after: bool)
      modifies this`stateChanged, this`received
      ensures stateChanged == Some(newState)
      ensures received == (if before || between then Receive(old(Abstract())) else old(Abstract())).received
    {
      if before {
        Consume();
      }
      if stateChanged.Some? {
        if between {
          Consume();
        }
        if stateChanged.Some? {
          stateChanged := None;
        }
        if after {
          Consume();
        }
        assert stateChanged.None?;  // the send goes through
      }
      stateChanged := Some(newState);
    }

    method Enter(newState: Status, before: bool, between: bool, after: bool)
      modifies this`currentState, this`history, this`stateChanged, this`received
      ensures Abstract() == MoveTo(old(Abstract()), newState, before || between)
    {
      currentState := newState;
      history := history + [newState];
      Publish(newState, before, between, after);
    }

    /** Moves to `newState` if the table permits it and the action of the transition succeeds. */
    method SetState(newState: Status, actionOk: bool, before: bool, between: bool, after: bool)
      returns (outcome: Outcome)
      modifies this
      ensures transitions == old(transitions)
      ensures Abstract() == SetTo(transitions, old(Abstract()), newState, actionOk, before || between)
      ensures outcome == Moved <==> history == old(history) + [newState]
      ensures outcome == Unchanged <==> old(currentState) == newState
      ensures outcome == NotAllowed <==>
              old(currentState) != newState && Find(Targets(transitions, old(currentState)), newState).None?
      ensures var t := Find(Targets(transitions, old(currentState)), newState);
              outcome == ActionFailed <==>
                old(currentState) != newState && t.Some? && t.value.stops && !actionOk
      ensures outcome != Moved ==> Abstract() == old(Abstract())
    {
      if currentState == newState {
        return Unchanged;
      }
      var ts := if currentState in transitions then transitions[currentState] else [];
      var i := 0;
      while i < |ts|
        invariant 0 <= i <= |ts|
        invariant Find(ts, newState) == Find(ts[i..], newState)
        invariant unchanged(this)
      {
        if ts[i].to == newState {
          if ts[i].stops && !actionOk {
            return ActionFailed;
          }
          Enter(newState, before, between, after);
          return Moved;
        }
        assert ts[i..][1..] == ts[i + 1..];
        i := i + 1;
      }
      return NotAllowed;
    }
  }

  // ----- What the consumer sees -----

  ghost predicate Subsequence<T>(a: seq<T>, b: seq<T>) {
    if a == [] then true
    else if b == [] then false
    else Subsequence(a, b[..|b| - 1]) || (a[|a| - 1] == b[|b| - 1] && Subsequence(a[..|a| - 1], b[..|b| - 1]))
  }

  lemma SubsequenceGrow<T>(a: seq<T>, b: seq<T>, x: T)
    requires Subsequence(a, b)
    ensures Subsequence(a, b + [x]) && Subsequence(a + [x], b + [x])
  {
    assert (b + [x])[..|b|] == b && (a + [x])[..|a|] == a;
  }

  lemma {:induction false} SubsequenceShrink<T>(a: seq<T>, x: T, b: seq<T>)
    requires Subsequence(a + [x], b)
    ensures Subsequence(a, b)
  {
    assert (a + [x])[..|a|] == a;
    if a != [] && Subsequence(a + [x], b[..|b| - 1]) {
      SubsequenceShrink(a, x, b[..|b| - 1]);
    }
  }

  function Waiting(v: View): seq<Status> {
    if v.channel.Some? then [v.channel.value] else []
  }

  ghost predicate Consistent(v: View) {
    && Subsequence(v.received + Waiting(v), v.history)
    && v.current == (if v.history == [] then UNKNOWN else v.history[|v.history| - 1])
    && (v.history != [] ==>
          || v.channel == Some(v.current)
          || (v.channel == None && v.received != [] && v.received[|v.received| - 1] == v.current))
  }

  lemma ReceiveKeepsConsistent(v: View)
    requires Consistent(v)
    ensures Consistent(Receive(v))
  {
    assert Receive(v).received + Waiting(Receive(v)) == v.received + Waiting(v);
  }

  lemma MoveKeepsConsistent(v: View, to: Status, taken: bool)
    requires Consistent(v)
    ensures Consistent(MoveTo(v, to, taken))
  {
    if v.channel.Some? && !taken {
      SubsequenceShrink(v.received, v.channel.value, v.history);
      SubsequenceGrow(v.received, v.history, to);
    } else {
      SubsequenceGrow(v.received + Waiting(v), v.history, to);
      assert v.received + [] == v.received;
    }
  }

  lemma ApplyKeepsConsistent(v: View, e: Event)
    requires Consistent(v)
    ensures Consistent(Apply(v, e))
  {
    ReceiveKeepsConsistent(v);
    if e.Set? {
      MoveKeepsConsistent(v, e.to, e.taken);
    }
  }

  /**
   * In every run the consumer reads a subsequence of the states entered, in order, and whenever no call is
   * in progress the newest state is in the channel or was the last one read.
   */
  lemma {:induction false} ConsumerSeesLatest(es: seq<Event>)
    ensures var v := Run(START, es);
            && Subsequence(v.received, v.history)
            && (v.history != [] ==>
                  var newest := v.history[|v.history| - 1];
                  v.channel == Some(newest)
                  || (v.channel == None && v.received != [] && v.received[|v.received| - 1] == newest))
  {
    RunConsistent(es);
    var v := Run(START, es);
    assert v.received + [] == v.received;
    if v.channel.Some? {
      SubsequenceShrink(v.received, v.channel.value, v.history);
    }
  }

  lemma {:induction false} RunConsistent(es: seq<Event>)
    ensures Consistent(Run(START, es))
  {
    if es != [] {
      RunConsistent(es[..|es| - 1]);
      ApplyKeepsConsistent(Run(START, es[..|es| - 1]), es[|es| - 1]);
    }
  }

  // ----- Which states a worker goes through -----

  predicate Terminal(s: Status) {
    s == ERROR || s == STOPPED || s == FINISHED
  }

  /** The complete list of histories a worker can have. */
  predicate LegalHistory(h: seq<Status>) {
    || h == []
    || h == [RUNNING]
    || (|h| == 2 && h[0] == RUNNING && (h[1] == HEALTHY || h[1] == ERROR || h[1] == FINISHED))
    || (|h| == 3 && h[0] == RUNNING && h[1] == HEALTHY && Terminal(h[2]))
  }

  lemma TableTargets()
    ensures var t := WorkerTable();
            && Targets(t, UNKNOWN) == [Transition(RUNNING, false)]
            && Targets(t, RUNNING) == [Transition(HEALTHY, false), Transition(ERROR, false), Transition(FINISHED, true)]
            && Targets(t, HEALTHY) == [Transition(ERROR, false), Transition(STOPPED, false), Transition(FINISHED, true)]
            && forall s :: s != UNKNOWN && s != RUNNING && s != HEALTHY ==> Targets(t, s) == []
  {
  }

  lemma FindAmong(ts: seq<Transition>, to: Status)
    requires |ts| == 0 || |ts| == 1 || |ts| == 3
    ensures Find(ts, to) == if |ts| > 0 && ts[0].to == to then Some(ts[0])
                            else if |ts| > 1 && ts[1].to == to then Some(ts[1])
                            else if |ts| > 2 && ts[2].to == to then Some(ts[2])
                            else None
  {
    if |ts| == 3 {
      var last := ts[1..][1..];
      assert ts[1..][0] == ts[1] && last == [ts[2]] && last[1..] == [];
      assert Find(last, to) == if ts[2].to == to then Some(ts[2]) else None;
    }
  }

  lemma AllowedMoves(from: Status, to: Status)
    ensures Find(Targets(WorkerTable(), from), to).Some? <==>
            || (from == UNKNOWN && to == RUNNING)
            || (from == RUNNING && (to == HEALTHY || to == ERROR || to == FINISHED))
            || (from == HEALTHY && Terminal(to))
  {
    TableTargets();
    hide WorkerTable, Targets, Find;
    FindAmong(Targets(WorkerTable(), from), to);
  }

  /** The permitted transitions that stop the worker are those to FINISHED. */
  lemma StoppingMoves(from: Status, to: Status)
    ensures var t := Find(Targets(WorkerTable(), from), to); t.Some? ==> (t.value.stops <==> to == FINISHED)
  {
    TableTargets();
    hide WorkerTable, Targets, Find;
    FindAmong(Targets(WorkerTable(), from), to);
  }

  /**
   * A call moves the worker exactly if it asks for another, permitted state and, for FINISHED, the worker could be
   * stopped; otherwise it leaves everything as it was.
   */
  lemma MovesExactlyWhen(v: View, to: Status, actionOk: bool, taken: bool)
    ensures var v' := SetTo(WorkerTable(), v, to, actionOk, taken);
            if (to == FINISHED ==> actionOk)
               && (|| (v.current == UNKNOWN && to == RUNNING)
                   || (v.current == RUNNING && (to == HEALTHY || to == ERROR || to == FINISHED))
                   || (v.current == HEALTHY && (to == ERROR || to == STOPPED || to == FINISHED)))
            then v'.current == to && v'.channel == Some(to) && v'.history == v.history + [to]
            else v' == v
  {
    hide WorkerTable, Targets, Find;
    AllowedMoves(v.current, to);
    StoppingMoves(v.current, to);
  }

  /**
   * A worker enters at most three states; a terminal state is final. In particular a RUNNING worker that has
   * not been HEALTHY can never become STOPPED.
   */
  lemma {:induction false} HistoriesAreLegal(es: seq<Event>)
    ensures LegalHistory(Run(START, es).history)
  {
    if es != [] {
      var before, e := es[..|es| - 1], es[|es| - 1];
      HistoriesAreLegal(before);
      RunConsistent(before);
      if e.Set? {
        AllowedMoves(Run(START, before).current, e.to);
      }
    }
  }

  lemma EnterOne(es: seq<Event>, to: Status)
    requires var v := Run(START, es); v.current != to && Find(Targets(WorkerTable(), v.current), to).Some?
    ensures Run(START, es + [Set(to, true, false)]).history == Run(START, es).history + [to]
  {
    hide WorkerTable, Find, Targets;
    assert (es + [Set(to, true, false)])[..|es|] == es;
  }

  lemma NextIsAllowed(es: seq<Event>, h: seq<Status>, to: Status)
    requires Run(START, es).history == h && LegalHistory(h + [to])
    ensures var v := Run(START, es); v.current != to && Find(Targets(WorkerTable(), v.current), to).Some?
  {
    RunConsistent(es);
    AllowedMoves(Run(START, es).current, to);
    hide Run, WorkerTable, Find, Targets, Subsequence;
    var next := h + [to];
    assert next[|h|] == to && (h != [] ==> next[|h| - 1] == h[|h| - 1]);
  }

  /** Each of these histories occurs. */
  lemma {:induction false} LegalHistoryOccurs(h: seq<Status>) returns (es: seq<Event>)
    requires LegalHistory(h)
    ensures Run(START, es).history == h
  {
    if h == [] {
      es := [];
    } else {
      var before, to := h[..|h| - 1], h[|h| - 1];
      assert h == before + [to] && LegalHistory(before);
      hide *;
      es := LegalHistoryOccurs(before);
      NextIsAllowed(es, before, to);
      EnterOne(es, to);
      es := es + [Set(to, true, false)];
    }
  }
}
