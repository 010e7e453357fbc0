/**
 The idle monitor: streams and the request handler register, queue activity changes, and a thread folds the queue
 into one composite state and notifies the client of its changes.
 */
module CameraMonitor {

  datatype Activity = Idle | Active

  datatype Transition = Transition(id: int, state: Activity)

  datatype Monitor = Monitor(
    states: map<nat, Activity>, queue: seq<Transition>, nextId: nat, composite: Activity, notified: seq<Activity>)

  const NEW_MONITOR := Monitor(map[], [], 0, Idle, [])

  /** Active as soon as one registered state is. */
  function Composite(states: map<nat, Activity>): (c: Activity)
    ensures c == Active <==> exists id | id in states :: states[id] == Active
  {
    if exists id | id in states :: states[id] == Active then Active else Idle
  }

  function Acquire(m: Monitor): Monitor {
    m.(states := m.states[m.nextId := Idle], nextId := m.nextId + 1)
  }

  function Release(m: Monitor, id: int): Monitor { m.(states := m.states - {id}) }

  function Change(m: Monitor, id: int, state: Activity): Monitor { m.(queue := m.queue + [Transition(id, state)]) }

  /** One queued transition; a transition of an id that is not registered is ignored. */
  function Settle(states: map<nat, Activity>, t: Transition): map<nat, Activity> {
    if t.id in states then states[t.id := t.state] else states
  }

  function SettleAll(states: map<nat, Activity>, queue: seq<Transition>): map<nat, Activity> {
    if queue == [] then states else Settle(SettleAll(states, queue[..|queue| - 1]), queue[|queue| - 1])
  }

  /**
   The composite states seen while the queue is drained: the one found at the start, then one per effective transition.
   */
  function Computed(states: map<nat, Activity>, queue: seq<Transition>): (c: seq<Activity>)
    ensures c != []
  {
    if queue == [] then [Composite(states)]
    else
      var before := SettleAll(states, queue[..|queue| - 1]);
      Computed(states, queue[..|queue| - 1])
      + if queue[|queue| - 1].id in before then [Composite(SettleAll(states, queue))] else []
  }

  /** The elements of `s` that differ from their predecessor, the first one's being `prev`. */
  function Changes(prev: Activity, s: seq<Activity>): seq<Activity> {
    if s == [] then []
    else
      Changes(prev, s[..|s| - 1])
      + if s[|s| - 1] != Last(prev, s[..|s| - 1]) then [s[|s| - 1]] else []
  }

  function Last(prev: Activity, s: seq<Activity>): Activity { if s == [] then prev else s[|s| - 1] }

  /** One round of the monitor thread. */
  function Loop(m: Monitor): Monitor {
    var computed := Computed(m.states, m.queue);
    Monitor(SettleAll(m.states, m.queue), [], m.nextId, Last(m.composite, computed),
            m.notified + Changes(m.composite, computed))
  }

  // ---------------------------------------------------------------- runs

  datatype Op = AcquireOp | ReleaseOp(id: int) | ChangeOp(id: int, state: Activity) | LoopOp

  function Apply(m: Monitor, op: Op): Monitor {
    match op
    case AcquireOp => Acquire(m)
    case ReleaseOp(id) => Release(m, id)
    case ChangeOp(id, state) => Change(m, id, state)
    case LoopOp => Loop(m)
  }

  function Run(ops: seq<Op>): Monitor {
    if ops == [] then NEW_MONITOR else Apply(Run(ops[..|ops| - 1]), ops[|ops| - 1])
  }

  /** Every composite state computed in the rounds of a run, in order. */
  function AllComputed(ops: seq<Op>): seq<Activity> {
    if ops == [] then []
    else
      AllComputed(ops[..|ops| - 1])
      + if ops[|ops| - 1].LoopOp? then var m := Run(ops[..|ops| - 1]); Computed(m.states, m.queue) else []
  }

  /** Starts with the opposite of `prev`, and no element repeats the one before it. */
  predicate Alternates(prev: Activity, s: seq<Activity>) {
    && (s != [] ==> s[0] != prev)
    && forall i | 0 < i < |s| :: s[i - 1] != s[i]
  }

  lemma {:induction false} ChangesConcat(prev: Activity, a: seq<Activity>, b: seq<Activity>)
    ensures Changes(prev, a + b) == Changes(prev, a) + Changes(Last(prev, a), b)
  {
    if b == [] {
      assert a + b == a;
    } else {
      var init := b[..|b| - 1];
      assert (a + b)[..|a + b| - 1] == a + init;
      ChangesConcat(prev, a, init);
      assert Last(prev, a + init) == Last(Last(prev, a), init);
    }
  }

  /** The changes alternate and end with the last state. */
  lemma {:induction false} ChangesAlternate(prev: Activity, s: seq<Activity>)
    ensures Alternates(prev, Changes(prev, s))
    ensures Last(prev, Changes(prev, s)) == Last(prev, s)
  {
    if s != [] {
      var init := s[..|s| - 1];
      ChangesAlternate(prev, init);
      assert Changes(prev, s) == Changes(prev, init) || Changes(prev, s) == Changes(prev, init) + [s[|s| - 1]];
    }
  }

  /** The last composite computed is that of the states the queue leaves behind. */
  lemma {:induction false} ComputedEnds(states: map<nat, Activity>, queue: seq<Transition>)
    ensures Last(Idle, Computed(states, queue)) == Composite(SettleAll(states, queue))
  {
    if queue != [] { ComputedEnds(states, queue[..|queue| - 1]); }
  }

  /**
   Over a whole run, whatever is acquired, released and changed: the notifications are the composite states computed
   with repetitions left out, so they strictly alternate, the first one being Active; and the last of them, or Idle,
   is the state the monitor remembers.
   */
  lemma {:induction false} NotificationsAlternate(ops: seq<Op>)
    ensures Run(ops).notified == Changes(Idle, AllComputed(ops))
    ensures Alternates(Idle, Run(ops).notified)
    ensures Last(Idle, Run(ops).notified) == Run(ops).composite == Last(Idle, AllComputed(ops))
  {
    if ops != [] {
      var init, op := ops[..|ops| - 1], ops[|ops| - 1];
      NotificationsAlternate(init);
      if op.LoopOp? {
        var m := Run(init);
        ChangesConcat(Idle, AllComputed(init), Computed(m.states, m.queue));
      } else {
        assert AllComputed(ops) == AllComputed(init);
      }
    }
    ChangesAlternate(Idle, AllComputed(ops));
  }

  /** After each round the client has been told the true composite of the registered states. */
  lemma {:induction false} LoopEndsTrue(ops: seq<Op>)
    ensures var m := Run(ops + [LoopOp]);
            m.queue == [] && Last(Idle, m.notified) == m.composite == Composite(m.states)
  {
    assert (ops + [LoopOp])[..|ops|] == ops;
    NotificationsAlternate(ops + [LoopOp]);
    ComputedEnds(Run(ops).states, Run(ops).queue);
  }

  // ---------------------------------------------------------------- the monitor object

  class MonitorThread {
    var inputQueue: seq<Transition>
    var nextMonitor: nat
    var monitorStates: map<nat, Activity>
    var compositeState: Activity
    var updatedStates: seq<Activity>

    /** The notifications made so far. */
    var notified: seq<Activity>

    ghost function View(): Monitor
      reads this
    {
      Monitor(monitorStates, inputQueue, nextMonitor, compositeState, notified)
    }

    constructor ()
      ensures View() == NEW_MONITOR && updatedStates == []
    {
      inputQueue, nextMonitor, monitorStates, compositeState, updatedStates, notified := [], 0, map[], Idle, [], [];
    }

    method AcquireMonitor() returns (id: int)
      modifies this`nextMonitor, this`monitorStates
      ensures View() == Acquire(old(View())) && id == old(nextMonitor)
    {
      id := nextMonitor;
      nextMonitor := nextMonitor + 1;
      monitorStates := monitorStates[id := Idle];
    }

    method ReleaseMonitor(id: int)
      modifies this`monitorStates
      ensures View() == Release(old(View()), id)
    {
      monitorStates := monitorStates - {id};
    }

    method ChangeState(id: int, state: Activity)
      modifies this`inputQueue
      ensures View() == Change(old(View()), id, state)
    {
      inputQueue := inputQueue + [Transition(id, state)];
    }

    method BuildCompositeState() returns (state: Activity)
      ensures state == Composite(monitorStates)
    {
      var rest := monitorStates.Keys;
      while rest != {}
        invariant rest <= monitorStates.Keys
        invariant forall id | id in monitorStates && id !in rest :: monitorStates[id] == Idle
        decreases |rest|
      {
        var id :| id in rest;
        if monitorStates[id] == Active {
          return Active;
        }
        rest := rest - {id};
      }
      return Idle;
    }

    /** Folds the queued transitions into the states, collecting the composite's changes. */
    method DrainQueue() returns (state: Activity)
      requires updatedStates == []
      modifies this`monitorStates, this`updatedStates
      ensures monitorStates == SettleAll(old(monitorStates), inputQueue)
      ensures state == Last(compositeState, Computed(old(monitorStates), inputQueue))
      ensures updatedStates == Changes(compositeState, Computed(old(monitorStates), inputQueue))
    {
      state := BuildCompositeState();
      if state != compositeState {
        updatedStates := updatedStates + [state];
      }
      for i := 0 to |inputQueue|
        invariant monitorStates == SettleAll(old(monitorStates), inputQueue[..i])
        invariant state == Last(compositeState, Computed(old(monitorStates), inputQueue[..i]))
        invariant updatedStates == Changes(compositeState, Computed(old(monitorStates), inputQueue[..i]))
      {
        assert inputQueue[..i + 1][..i] == inputQueue[..i];
        ghost var computed := Computed(old(monitorStates), inputQueue[..i]);
        var transition := inputQueue[i];
        if transition.id in monitorStates {
          monitorStates := monitorStates[transition.id := transition.state];
          var newState := BuildCompositeState();
          assert Computed(old(monitorStates), inputQueue[..i + 1]) == computed + [newState];
          assert (computed + [newState])[..|computed|] == computed;
          if newState != state {
            updatedStates := updatedStates + [newState];
          }
          state := newState;
        } else {
          assert Computed(old(monitorStates), inputQueue[..i + 1]) == computed;
        }
      }
      assert inputQueue[..|inputQueue|] == inputQueue;
    }

    method ThreadLoop()
      requires updatedStates == []
      modifies this
      ensures View() == Loop(old(View())) && updatedStates == []
    {
      compositeState := DrainQueue();
      inputQueue := [];
      for i := 0 to |updatedStates|
        modifies this`notified
        invariant notified == old(notified) + updatedStates[..i]
      {
        notified := notified + [updatedStates[i]];
      }
      updatedStates := [];
    }
  }
}
