/**
 What the client and the owners of monitor ids rely on, over every run: each change of what is true of the registered
 states is notified, and each id settles in the state last asked for.
 */
module MonitorLaws {
  import opened CameraMonitor

  /** What is true of the states after each of the queued transitions, beginning with none of them. */
  function Truth(states: map<nat, Activity>, queue: seq<Transition>): seq<Activity> {
    seq(|queue| + 1, i requires 0 <= i <= |queue| => Composite(SettleAll(states, queue[..i])))
  }

  /** All of that in the rounds of a run, in order. */
  function AllTruth(ops: seq<Op>): seq<Activity> {
    if ops == [] then []
    else
      AllTruth(ops[..|ops| - 1])
      + if ops[|ops| - 1].LoopOp? then var m := Run(ops[..|ops| - 1]); Truth(m.states, m.queue) else []
  }

  lemma {:induction false} TruthGrows(states: map<nat, Activity>, queue: seq<Transition>, t: Transition)
    ensures Truth(states, queue + [t]) == Truth(states, queue) + [Composite(SettleAll(states, queue + [t]))]
    ensures Truth(states, queue)[|queue|] == Composite(SettleAll(states, queue))
  {
    assert queue[..|queue|] == queue && (queue + [t])[..|queue| + 1] == queue + [t];
    assert forall i | 0 <= i <= |queue| :: (queue + [t])[..i] == queue[..i];
  }

  /** Two sequences with the same changes and the same end still have them after one more state. */
  lemma {:induction false} OneMore(prev: Activity, s: seq<Activity>, t: seq<Activity>, a: Activity)
    requires Changes(prev, s) == Changes(prev, t) && Last(prev, s) == Last(prev, t)
    ensures Changes(prev, s + [a]) == Changes(prev, t + [a])
    ensures Last(prev, t) == a ==> Changes(prev, s) == Changes(prev, t + [a])
  {
    assert (s + [a])[..|s|] == s && (t + [a])[..|t|] == t;
  }

  lemma {:induction false} ComputedIsTruth(prev: Activity, states: map<nat, Activity>, queue: seq<Transition>)
    ensures Changes(prev, Computed(states, queue)) == Changes(prev, Truth(states, queue))
    ensures Last(prev, Computed(states, queue)) == Last(prev, Truth(states, queue))
  {
    if queue == [] {
      assert Truth(states, queue) == [Composite(states)];
    } else {
      var init, t := queue[..|queue| - 1], queue[|queue| - 1];
      assert queue == init + [t];
      ComputedIsTruth(prev, states, init);
      TruthGrows(states, init, t);
      OneMore(prev, Computed(states, init), Truth(states, init), Composite(SettleAll(states, queue)));
      assert SettleAll(states, queue) == Settle(SettleAll(states, init), t);
      if t.id in SettleAll(states, init) {
        assert Computed(states, queue) == Computed(states, init) + [Composite(SettleAll(states, queue))];
      } else {
        assert Computed(states, queue) == Computed(states, init);
        assert Last(prev, Truth(states, init)) == Composite(SettleAll(states, queue));
      }
    }
  }

  lemma {:induction false} RoundTold(before: seq<Activity>, truth: seq<Activity>, m: Monitor)
    requires m.notified == Changes(Idle, before) && m.composite == Last(Idle, before) && truth != []
    requires Changes(m.composite, Computed(m.states, m.queue)) == Changes(m.composite, truth)
    requires Last(m.composite, Computed(m.states, m.queue)) == Last(m.composite, truth)
    ensures Loop(m).notified == Changes(Idle, before + truth) && Loop(m).composite == Last(Idle, before + truth)
  {
    ChangesConcat(Idle, before, truth);
  }

  /**
   No state between two transitions is missed, and none is made up: over a whole run the client is told every change of
   what is true of the registered states.
   */
  lemma {:induction false} NoneMissed(ops: seq<Op>)
    ensures Run(ops).notified == Changes(Idle, AllTruth(ops))
    ensures Last(Idle, AllTruth(ops)) == Run(ops).composite
  {
    NotificationsAlternate(ops);
    if ops != [] {
      var init, op := ops[..|ops| - 1], ops[|ops| - 1];
      NoneMissed(init);
      NotificationsAlternate(init);
      if op.LoopOp? {
        var m := Run(init);
        ComputedIsTruth(m.composite, m.states, m.queue);
        RoundTold(AllTruth(init), Truth(m.states, m.queue), m);
      } else {
        assert AllTruth(ops) == AllTruth(init);
      }
    }
  }

  /** The state of an id after a round: that of its last transition, or the one before; none comes or goes. */
  lemma {:induction false} LastWins(states: map<nat, Activity>, queue: seq<Transition>, id: nat, last: int)
    requires id in states && -1 <= last < |queue|
    requires last >= 0 ==> queue[last].id == id
    requires forall i | last < i < |queue| :: queue[i].id != id
    ensures SettleAll(states, queue).Keys == states.Keys
    ensures SettleAll(states, queue)[id] == if last >= 0 then queue[last].state else states[id]
  {
    if queue != [] {
      var init := queue[..|queue| - 1];
      if last == |init| {
        SameKeys(states, init);
      } else {
        LastWins(states, init, id, last);
      }
    }
  }

  lemma {:induction false} SameKeys(states: map<nat, Activity>, queue: seq<Transition>)
    ensures SettleAll(states, queue).Keys == states.Keys
  {
    if queue != [] { SameKeys(states, queue[..|queue| - 1]); }
  }

  function Acquired(ops: seq<Op>): nat {
    if ops == [] then 0 else Acquired(ops[..|ops| - 1]) + if ops[|ops| - 1].AcquireOp? then 1 else 0
  }

  /** Ids are 0, 1, 2, ... in the order they are acquired, and registered from then on until they are released. */
  lemma {:induction false} IdsInOrder(ops: seq<Op>)
    ensures var m := Run(ops); m.nextId == Acquired(ops) && forall id | id in m.states :: id < m.nextId
    ensures Run(ops + [AcquireOp]).states == Run(ops).states[Acquired(ops) := Idle]
    ensures forall id: nat :: Run(ops + [ReleaseOp(id)]).states.Keys == Run(ops).states.Keys - {id}
  {
    if ops != [] {
      var init := ops[..|ops| - 1];
      IdsInOrder(init);
      SameKeys(Run(init).states, Run(init).queue);
    }
    assert (ops + [AcquireOp])[..|ops|] == ops;
    forall id: nat
      ensures Run(ops + [ReleaseOp(id)]).states.Keys == Run(ops).states.Keys - {id}
    {
      assert (ops + [ReleaseOp(id)])[..|ops|] == ops;
    }
  }

  /** The state last asked for by the owner of an id; a new id is idle. */
  function Wanted(ops: seq<Op>, id: nat): Activity {
    if ops == [] then Idle
    else
      match ops[|ops| - 1]
      case AcquireOp => if Acquired(ops[..|ops| - 1]) == id then Idle else Wanted(ops[..|ops| - 1], id)
      case ChangeOp(other, state) => if other == id then state else Wanted(ops[..|ops| - 1], id)
      case _ => Wanted(ops[..|ops| - 1], id)
  }

  /** Ids are used only after they were acquired. */
  predicate Acquainted(ops: seq<Op>) {
    ops != [] ==>
      && Acquainted(ops[..|ops| - 1])
      && (ops[|ops| - 1].ChangeOp? ==> ops[|ops| - 1].id < Acquired(ops[..|ops| - 1]))
  }

  predicate IdsBelow(queue: seq<Transition>, n: nat) { forall i | 0 <= i < |queue| :: queue[i].id < n }

  lemma {:induction false} SettleNew(states: map<nat, Activity>, queue: seq<Transition>, id: nat)
    requires IdsBelow(queue, id)
    ensures SettleAll(states[id := Idle], queue) == SettleAll(states, queue)[id := Idle]
  {
    if queue != [] { SettleNew(states, queue[..|queue| - 1], id); }
  }

  lemma {:induction false} SettleWithout(states: map<nat, Activity>, queue: seq<Transition>, id: int)
    ensures SettleAll(states - {id}, queue) == SettleAll(states, queue) - {id}
  {
    if queue != [] { SettleWithout(states, queue[..|queue| - 1], id); }
  }

  lemma {:induction false} QueueGrows(states: map<nat, Activity>, queue: seq<Transition>, t: Transition)
    ensures SettleAll(states, queue + [t]) == Settle(SettleAll(states, queue), t)
  {
    assert (queue + [t])[..|queue|] == queue;
  }

  /** Once the queue is drained each id registered has the state last asked for. */
  predicate Settled(m: Monitor, ops: seq<Op>) {
    var after := SettleAll(m.states, m.queue);
    after.Keys == m.states.Keys && forall id | id in after :: after[id] == Wanted(ops, id)
  }

  lemma {:induction false} AcquireSettles(m: Monitor, ops: seq<Op>)
    requires Settled(m, ops) && m.nextId == Acquired(ops) && IdsBelow(m.queue, m.nextId)
    ensures Settled(Acquire(m), ops + [AcquireOp])
  {
    assert (ops + [AcquireOp])[..|ops|] == ops;
    SettleNew(m.states, m.queue, m.nextId);
  }

  lemma {:induction false} ReleaseSettles(m: Monitor, ops: seq<Op>, id: int)
    requires Settled(m, ops)
    ensures Settled(Release(m, id), ops + [ReleaseOp(id)])
  {
    assert (ops + [ReleaseOp(id)])[..|ops|] == ops;
    SettleWithout(m.states, m.queue, id);
  }

  lemma {:induction false} ChangeSettles(m: Monitor, ops: seq<Op>, id: int, state: Activity)
    requires Settled(m, ops)
    ensures Settled(Change(m, id, state), ops + [ChangeOp(id, state)])
  {
    assert (ops + [ChangeOp(id, state)])[..|ops|] == ops;
    QueueGrows(m.states, m.queue, Transition(id, state));
  }

  lemma {:induction false} StepSettles(m: Monitor, ops: seq<Op>, op: Op)
    requires Settled(m, ops) && m.nextId == Acquired(ops) && IdsBelow(m.queue, m.nextId)
    requires op.ChangeOp? ==> op.id < m.nextId
    ensures Settled(Apply(m, op), ops + [op]) && IdsBelow(Apply(m, op).queue, Acquired(ops + [op]))
  {
    assert (ops + [op])[..|ops|] == ops;
    match op
    case AcquireOp => AcquireSettles(m, ops);
    case ReleaseOp(id) => ReleaseSettles(m, ops, id);
    case ChangeOp(id, state) => ChangeSettles(m, ops, id, state);
    case LoopOp =>
  }

  lemma {:induction false} RunSettles(ops: seq<Op>)
    requires Acquainted(ops)
    ensures Settled(Run(ops), ops) && IdsBelow(Run(ops).queue, Acquired(ops))
  {
    if ops != [] {
      var init, op := ops[..|ops| - 1], ops[|ops| - 1];
      RunSettles(init);
      IdsInOrder(init);
      StepSettles(Run(init), init, op);
      assert ops == init + [op];
    }
  }

  /** In every run, a round brings every id registered to the state last asked for. */
  lemma {:induction false} RequestsSettle(ops: seq<Op>)
    requires Acquainted(ops)
    ensures forall id | id in Run(ops + [LoopOp]).states :: Run(ops + [LoopOp]).states[id] == Wanted(ops, id)
    ensures Run(ops + [LoopOp]).states.Keys == Run(ops).states.Keys
  {
    RunSettles(ops);
    assert (ops + [LoopOp])[..|ops|] == ops;
  }
}
