/**
 Streams and the idle monitor together: what the monitor will believe of a stream once its queue is drained is
 whether the stream has a buffer out.
 */
module StreamActivity {
  import opened Common
  import opened StreamPool
  import StreamRuns
  import opened CameraMonitor

  /** The streams of a device, by number, and the monitor they share. */
  datatype System = System(monitor: Monitor, streams: map<nat, Stream>)

  /** The state of an id after the queued transitions: the last one for it, or else the stored one. */
  function LastQueued(queue: seq<Transition>, id: nat, stored: Activity): Activity {
    if queue == [] then stored
    else if queue[|queue| - 1].id == id then queue[|queue| - 1].state
    else LastQueued(queue[..|queue| - 1], id, stored)
  }

  function Belief(m: Monitor, id: nat): Activity
    requires id in m.states
  {
    LastQueued(m.queue, id, m.states[id])
  }

  // ---------------------------------------------------------------- steps

  datatype Step =
    | OnStream(k: nat, op: StreamPool.Op)
    | Round
    | OtherAcquires
    | OtherReleases(id: nat)
    | OtherChanges(id: nat, state: Activity)

  function Forward(m: Monitor, c: Call): Monitor {
    match c
    case Release(id) => CameraMonitor.Release(m, id)
    case ToIdle(id) => Change(m, id, Idle)
    case ToActive(id) => Change(m, id, Active)
  }

  /** An operation of one stream: it may register with the monitor, and makes at most one request of it. */
  function MonitorAfter(m: Monitor, s: Stream, op: StreamPool.Op): Monitor {
    var m1 := if op.EndConfigureOp? && s.Configuring() && op.id >= 0 then Acquire(m) else m;
    var calls := StreamPool.Apply(s, op).calls;
    if calls == [] then m1 else Forward(m1, calls[0])
  }

  function Next(sys: System, step: Step): System {
    match step
    case OnStream(k, op) =>
      if k !in sys.streams then sys
      else System(MonitorAfter(sys.monitor, sys.streams[k], op),
                  sys.streams[k := StreamPool.Apply(sys.streams[k], op).stream])
    case Round => sys.(monitor := Loop(sys.monitor))
    case OtherAcquires => sys.(monitor := Acquire(sys.monitor))
    case OtherReleases(id) => sys.(monitor := CameraMonitor.Release(sys.monitor, id))
    case OtherChanges(id, state) => sys.(monitor := Change(sys.monitor, id, state))
  }

  predicate Owned(sys: System, id: nat) { exists k | k in sys.streams :: sys.streams[k].monitorId == id }

  /**
   A configuration gets the monitor's next id or fails, and ends only with no buffer out; others keep to their ids.
   */
  predicate Fair(sys: System, step: Step) {
    match step
    case OnStream(k, EndConfigureOp(id, _)) =>
      k in sys.streams && sys.streams[k].Configuring() && id >= 0 ==>
        id == sys.monitor.nextId && sys.streams[k].pool.pending == 0
    case OtherReleases(id) => !Owned(sys, id)
    case OtherChanges(id, _) => !Owned(sys, id) && id < sys.monitor.nextId
    case _ => true
  }

  // ---------------------------------------------------------------- the link

  predicate Linked(m: Monitor, s: Stream) {
    && (s.Configuring() ==> s.monitorId < 0)
    && (s.monitorId >= 0 ==>
          && s.monitorId in m.states
          && (Belief(m, s.monitorId) == Active <==> s.pool.pending > 0))
  }

  predicate Sound(sys: System) {
    && (forall id | id in sys.monitor.states :: id < sys.monitor.nextId)
    && (forall t | t in sys.monitor.queue :: t.id < sys.monitor.nextId)
    && (forall k | k in sys.streams :: Linked(sys.monitor, sys.streams[k]))
    && (forall j, k | j in sys.streams && k in sys.streams && j != k ::
          sys.streams[j].monitorId >= 0 ==> sys.streams[j].monitorId != sys.streams[k].monitorId)
  }

  lemma {:induction false} UnqueuedKeeps(queue: seq<Transition>, id: nat, stored: Activity)
    requires forall t | t in queue :: t.id != id
    ensures LastQueued(queue, id, stored) == stored
  {
    if queue != [] { UnqueuedKeeps(queue[..|queue| - 1], id, stored); }
  }

  /** Draining the queue makes every belief the stored state. */
  lemma {:induction false} DrainSettles(states: map<nat, Activity>, queue: seq<Transition>, id: nat)
    requires id in states
    ensures id in SettleAll(states, queue) && SettleAll(states, queue)[id] == LastQueued(queue, id, states[id])
    ensures SettleAll(states, queue).Keys == states.Keys
  {
    if queue != [] { DrainSettles(states, queue[..|queue| - 1], id); }
  }

  lemma {:induction false} DrainKeys(states: map<nat, Activity>, queue: seq<Transition>)
    ensures SettleAll(states, queue).Keys == states.Keys
  {
    if queue != [] { DrainKeys(states, queue[..|queue| - 1]); }
  }

  /** What one stream operation asks of the monitor, by the change of its pending count. */
  lemma {:induction false} CallsMatch(s: Stream, op: StreamPool.Op)
    requires !op.EndConfigureOp?
    ensures var d := StreamPool.Apply(s, op); var p, p' := s.pool.pending, d.stream.pool.pending;
            && |d.calls| <= 1
            && (d.stream.monitorId == s.monitorId ==>
                  d.calls == if s.Configuring() || (p > 0) == (p' > 0) then []
                             else if p' > 0 then [ToActive(s.monitorId)] else [ToIdle(s.monitorId)])
            && (d.stream.monitorId != s.monitorId ==>
                  d.calls == [Release(s.monitorId)] && d.stream.monitorId == INVALID_ID)
            && (d.stream.Configuring() && !s.Configuring() ==> d.stream.monitorId == INVALID_ID)
  {
  }

  /** The stream an operation is about stays linked. */
  lemma {:induction false} OwnLink(m: Monitor, s: Stream, op: StreamPool.Op)
    requires Linked(m, s) && !op.EndConfigureOp?
    ensures Linked(MonitorAfter(m, s, op), StreamPool.Apply(s, op).stream)
  {
  }

  /** A configuration that ends with no buffer out links the stream to its new id. */
  lemma {:induction false} EndLink(m: Monitor, s: Stream, id: int, unset: seq<Handle>)
    requires Linked(m, s) && (s.Configuring() && id >= 0 ==> id == m.nextId && s.pool.pending == 0)
    requires forall t | t in m.queue :: t.id < m.nextId
    ensures Linked(MonitorAfter(m, s, EndConfigureOp(id, unset)), EndConfigure(s, id, unset).stream)
    ensures EndConfigure(s, id, unset).calls == []
  {
    if s.Configuring() && id >= 0 {
      UnqueuedKeeps(m.queue, id, Idle);
    }
  }

  /** Other streams' beliefs are untouched by an operation. */
  lemma {:induction false} OtherLink(m: Monitor, s: Stream, op: StreamPool.Op, other: Stream)
    requires Linked(m, other) && (other.monitorId >= 0 ==> other.monitorId != s.monitorId && other.monitorId < m.nextId)
    requires op.EndConfigureOp? ==> EndConfigure(s, op.id, op.unset).calls == []
    ensures Linked(MonitorAfter(m, s, op), other)
  {
  }

  /** The ids known to the monitor stay below its counter, and the requests too. */
  lemma {:induction false} IdsBounded(m: Monitor, s: Stream, op: StreamPool.Op)
    requires (forall id | id in m.states :: id < m.nextId) && (forall t | t in m.queue :: t.id < m.nextId)
    requires s.monitorId < m.nextId
    requires op.EndConfigureOp? ==> EndConfigure(s, op.id, op.unset).calls == []
    ensures var m' := MonitorAfter(m, s, op);
            && m.nextId <= m'.nextId
            && (forall id | id in m'.states :: id < m'.nextId) && (forall t | t in m'.queue :: t.id < m'.nextId)
  {
  }

  lemma {:induction false} StreamStepSound(sys: System, k: nat, op: StreamPool.Op)
    requires Sound(sys) && k in sys.streams && Fair(sys, OnStream(k, op))
    ensures Sound(Next(sys, OnStream(k, op)))
  {
    var m, s := sys.monitor, sys.streams[k];
    var sys' := Next(sys, OnStream(k, op));
    var s' := sys'.streams[k];
    if op.EndConfigureOp? {
      EndLink(m, s, op.id, op.unset);
      assert s'.monitorId == s.monitorId || s'.monitorId < 0 || s'.monitorId == m.nextId;
    } else {
      OwnLink(m, s, op);
      CallsMatch(s, op);
    }
    IdsBounded(m, s, op);
    forall j | j in sys'.streams
      ensures Linked(sys'.monitor, sys'.streams[j])
    {
      if j != k { OtherLink(m, s, op, sys.streams[j]); }
    }
  }

  lemma {:induction false} RoundSound(sys: System)
    requires Sound(sys)
    ensures Sound(Next(sys, Round))
  {
    var m := sys.monitor;
    DrainKeys(m.states, m.queue);
    forall k | k in sys.streams
      ensures Linked(Loop(m), sys.streams[k])
    {
      if sys.streams[k].monitorId >= 0 { DrainSettles(m.states, m.queue, sys.streams[k].monitorId); }
    }
  }

  lemma {:induction false} OtherSound(sys: System, step: Step)
    requires Sound(sys) && Fair(sys, step) && !step.OnStream? && !step.Round?
    ensures Sound(Next(sys, step))
  {
  }

  lemma {:induction false} NextSound(sys: System, step: Step)
    requires Sound(sys) && Fair(sys, step)
    ensures Sound(Next(sys, step))
  {
    match step
    case OnStream(k, op) => if k in sys.streams { StreamStepSound(sys, k, op); }
    case Round => RoundSound(sys);
    case _ => OtherSound(sys, step);
  }

  function Run(asks: map<nat, Ask>, steps: seq<Step>): System {
    if steps == [] then System(NEW_MONITOR, map k | k in asks :: NewStream(asks[k]))
    else Next(Run(asks, steps[..|steps| - 1]), steps[|steps| - 1])
  }

  predicate FairRun(asks: map<nat, Ask>, steps: seq<Step>) {
    steps == [] || (FairRun(asks, steps[..|steps| - 1])
                    && Fair(Run(asks, steps[..|steps| - 1]), steps[|steps| - 1]))
  }

  /**
   Over whole runs of any number of streams on one monitor: a registered stream's last queued transition, or its stored
   state when none is queued, is Active exactly when the stream has a buffer out.
   */
  lemma {:induction false} RunSound(asks: map<nat, Ask>, steps: seq<Step>)
    requires FairRun(asks, steps)
    ensures Sound(Run(asks, steps))
  {
    if steps != [] {
      RunSound(asks, steps[..|steps| - 1]);
      NextSound(Run(asks, steps[..|steps| - 1]), steps[|steps| - 1]);
    }
  }

  /** So when the monitor has nothing queued and its composite is Idle, no registered stream has a buffer out. */
  lemma {:induction false} IdleMeansNoneOut(asks: map<nat, Ask>, steps: seq<Step>, k: nat)
    requires FairRun(asks, steps)
    requires var sys := Run(asks, steps);
             && sys.monitor.queue == [] && Composite(sys.monitor.states) == Idle
             && k in sys.streams && sys.streams[k].monitorId >= 0
    ensures Run(asks, steps).streams[k].pool.pending == 0
  {
    RunSound(asks, steps);
    var sys := Run(asks, steps);
    assert Linked(sys.monitor, sys.streams[k]);
    assert sys.monitor.states[sys.streams[k].monitorId] == Idle;
  }

  /**
   The condition on ending a configuration is exact: a consistent stream that registers anew is linked to its id
   if and only if it has no buffer out.
   */
  lemma {:induction false} EndLinkIff(m: Monitor, s: Stream, unset: seq<Handle>)
    requires Linked(m, s) && s.Configuring() && StreamRuns.Consistent(s)
    requires forall t | t in m.queue :: t.id < m.nextId
    ensures var op := EndConfigureOp(m.nextId, unset);
            Linked(MonitorAfter(m, s, op), StreamPool.Apply(s, op).stream) <==> s.pool.pending == 0
  {
    UnqueuedKeeps(m.queue, m.nextId, Idle);
  }

  lemma {:induction false} RunAdds(asks: map<nat, Ask>, steps: seq<Step>, step: Step)
    ensures Run(asks, steps + [step]) == Next(Run(asks, steps), step)
  {
    assert (steps + [step])[..|steps|] == steps;
  }

  /** A stream of one buffer that is configured, hands out its buffer and is configured again with the same demands. */
  const ONE_BUFFER := Ask(0, 1)
  const CONFIGURED_TWICE: seq<Step> :=
    [OnStream(0, BeginConfigureOp)] + [OnStream(0, EndConfigureOp(0, [0]))] + [OnStream(0, GetBufferOp(Some(5)))]
    + [OnStream(0, BeginConfigureOp)] + [OnStream(0, EndConfigureOp(1, [0]))] + [Round]

  function Lone(status: Status, pool: Pool, out: nat, id: int): Stream {
    Stream(status, pool, out, 0, id, false, 0, ONE_BUFFER, if status.ConfigActive? then Ask(0, 0) else ONE_BUFFER,
           ONE_BUFFER, 0)
  }

  /** In the middle of that run its buffer is out, and its first id is active once the queue is drained. */
  lemma {:induction false} FirstConfiguration(asks: map<nat, Ask>)
    requires asks == map[0 := ONE_BUFFER]
    ensures Run(asks, [OnStream(0, BeginConfigureOp)] + [OnStream(0, EndConfigureOp(0, [0]))]
                      + [OnStream(0, GetBufferOp(Some(5)))])
         == System(Monitor(map[0 := Idle], [Transition(0, Active)], 1, Idle, []),
                   map[0 := Lone(Configured, Pool(1, [5], 1, map[5 := false], 1), 1, 0)])
  {
    var s1, s2 := [OnStream(0, BeginConfigureOp)], [OnStream(0, EndConfigureOp(0, [0]))];
    RunAdds(asks, [], OnStream(0, BeginConfigureOp));
    assert [] + s1 == s1;
    RunAdds(asks, s1, OnStream(0, EndConfigureOp(0, [0])));
    RunAdds(asks, s1 + s2, OnStream(0, GetBufferOp(Some(5))));
    assert Run(asks, []) == System(NEW_MONITOR, map[0 := NewStream(ONE_BUFFER)]);
    assert Run(asks, s1) == System(NEW_MONITOR, map[0 := Lone(ConfigActive, Pool(0, [], 0, map[], 0), 0, INVALID_ID)]);
    assert Run(asks, s1 + s2)
        == System(Monitor(map[0 := Idle], [], 1, Idle, []),
                  map[0 := Lone(Configured, Pool(1, [0], 0, map[], 0), 0, 0)]);
    assert [0][0 := 5] == [5];
  }

  /** Where it goes wrong: after a round of the monitor everything is idle although the buffer is still out. */
  lemma {:induction false} IdleWithBufferOut()
    ensures var sys := Run(map[0 := ONE_BUFFER], CONFIGURED_TWICE);
            && sys.monitor.queue == [] && Composite(sys.monitor.states) == Idle
            && 0 in sys.streams && sys.streams[0].monitorId == 1 && sys.streams[0].pool.pending == 1
  {
    var asks := map[0 := ONE_BUFFER];
    var s3 := [OnStream(0, BeginConfigureOp)] + [OnStream(0, EndConfigureOp(0, [0]))]
              + [OnStream(0, GetBufferOp(Some(5)))];
    var s4 := s3 + [OnStream(0, BeginConfigureOp)];
    var s5 := s4 + [OnStream(0, EndConfigureOp(1, [0]))];
    FirstConfiguration(asks);
    RunAdds(asks, s3, OnStream(0, BeginConfigureOp));
    RunAdds(asks, s4, OnStream(0, EndConfigureOp(1, [0])));
    RunAdds(asks, s5, Round);
    var p, q := Pool(1, [5], 1, map[5 := false], 1), [Transition(0, Active)];
    assert Run(asks, s4) == System(Monitor(map[], q, 1, Idle, []), map[0 := Lone(ReconfigActive, p, 1, INVALID_ID)]);
    assert Run(asks, s5) == System(Monitor(map[1 := Idle], q, 2, Idle, []), map[0 := Lone(Configured, p, 1, 1)]);
    assert SettleAll(map[1 := Idle], q) == map[1 := Idle] by {
      assert q[..0] == [];
      assert SettleAll(map[1 := Idle], []) == map[1 := Idle];
    }
  }
}
