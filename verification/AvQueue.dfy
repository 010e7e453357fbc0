/**
 The packet queue between producers and consumers of encoded data, as values and as the ring of heap nodes that
 implements it. A bounded (real-time) queue drops its oldest packet when full, and the next pop catches up by dropping
 all but the newest `delay` packets.
 */
module AvQueue {
  import opened Common

  /** Packets by address; 0 is the null pointer. */
  type Packet = nat

  /** Oldest packet first. An unbounded queue has no use for `maxSize` and `delay`. */
  datatype Queue = Queue(items: seq<Packet>, realtime: bool, maxSize: int, delay: int, overflow: bool)

  predicate Limits(q: Queue) { q.realtime ==> 1 <= q.delay <= q.maxSize }

  /** Packets dropped to make place for a new one: none, or the oldest. */
  function PushDrops(q: Queue): nat { if q.realtime && |q.items| >= q.maxSize && q.items != [] then 1 else 0 }

  function Push(q: Queue, x: Packet): Queue {
    q.(items := q.items[PushDrops(q)..] + [x], overflow := q.overflow || PushDrops(q) == 1)
  }

  /** Packets dropped to catch up before a pop. */
  function PopDrops(q: Queue): nat {
    if q.items != [] && q.overflow && 1 <= q.delay < |q.items| then |q.items| - q.delay else 0
  }

  function Pop(q: Queue): (Queue, Option<Packet>)
    requires q.overflow ==> 1 <= q.delay
  {
    if q.items == [] then (q, None)
    else (q.(items := q.items[PopDrops(q) + 1..], overflow := false), Some(q.items[PopDrops(q)]))
  }

  function Abort(q: Queue): Queue { q.(items := []) }

  // ---------------------------------------------------------------- runs

  datatype Op = PushOp(packet: Packet) | PopOp | AbortOp

  /** What became of a packet that left the queue. */
  datatype Fate = Popped | Dropped | Aborted

  /** A queue with everything pushed so far and the fates of those that left, both in order of pushing. */
  datatype History = History(queue: Queue, pushed: seq<Packet>, fates: seq<Fate>, returned: seq<Packet>)

  function Times(n: nat, f: Fate): seq<Fate> { seq(n, i => f) }

  function Advance(h: History, op: Op): History
    requires h.queue.overflow ==> 1 <= h.queue.delay
  {
    var q := h.queue;
    match op
    case PushOp(x) => History(Push(q, x), h.pushed + [x], h.fates + Times(PushDrops(q), Dropped), h.returned)
    case PopOp =>
      if q.items == [] then h
      else History(Pop(q).0, h.pushed, h.fates + Times(PopDrops(q), Dropped) + [Popped], h.returned + [Pop(q).1.value])
    case AbortOp => History(Abort(q), h.pushed, h.fates + Times(|q.items|, Aborted), h.returned)
  }

  /** The packets with fate Popped, in order of pushing. */
  function PoppedOf(pushed: seq<Packet>, fates: seq<Fate>): seq<Packet>
    requires |fates| <= |pushed|
  {
    if fates == [] then []
    else
      var n := |fates| - 1;
      PoppedOf(pushed, fates[..n]) + if fates[n] == Popped then [pushed[n]] else []
  }

  /**
   Packets leave in the order they were pushed, each with one fate; the rest is queued; pops return packets in that
   order.
   */
  predicate Sound(h: History) {
    && Limits(h.queue)
    && (h.queue.overflow ==> h.queue.realtime)
    && (h.queue.realtime ==> |h.queue.items| <= h.queue.maxSize)
    && |h.fates| + |h.queue.items| == |h.pushed|
    && h.pushed[|h.fates|..] == h.queue.items
    && h.returned == PoppedOf(h.pushed, h.fates)
  }

  lemma {:induction false} PoppedPrefix(pushed: seq<Packet>, more: seq<Packet>, fates: seq<Fate>)
    requires |fates| <= |pushed|
    ensures PoppedOf(pushed + more, fates) == PoppedOf(pushed, fates)
  {
    if fates != [] { PoppedPrefix(pushed, more, fates[..|fates| - 1]); }
  }

  lemma {:induction false} PoppedSkips(pushed: seq<Packet>, fates: seq<Fate>, n: nat, f: Fate)
    requires f != Popped && |fates| + n <= |pushed|
    ensures PoppedOf(pushed, fates + Times(n, f)) == PoppedOf(pushed, fates)
  {
    var all := fates + Times(n, f);
    if n == 0 {
      assert all == fates;
    } else {
      PoppedSkips(pushed, fates, n - 1, f);
      assert all[..|all| - 1] == fates + Times(n - 1, f);
    }
  }

  lemma {:induction false} PushSound(h: History, x: Packet)
    requires Sound(h)
    ensures Sound(Advance(h, PushOp(x)))
  {
    var n := PushDrops(h.queue);
    var h' := Advance(h, PushOp(x));
    PoppedPrefix(h.pushed, [x], h.fates);
    PoppedSkips(h.pushed + [x], h.fates, n, Dropped);
    assert h'.pushed[|h'.fates|..] == h.pushed[|h.fates|..][n..] + [x];
  }

  lemma {:induction false} PopSound(h: History)
    requires Sound(h) && h.queue.items != []
    ensures Sound(Advance(h, PopOp))
  {
    var n := PopDrops(h.queue);
    var h' := Advance(h, PopOp);
    PoppedSkips(h.pushed, h.fates, n, Dropped);
    assert h'.fates[..|h'.fates| - 1] == h.fates + Times(n, Dropped);
    assert h.pushed[|h.fates| + n] == h.queue.items[n];
    assert h'.pushed[|h'.fates|..] == h.pushed[|h.fates|..][n + 1..];
  }

  lemma {:induction false} AbortSound(h: History)
    requires Sound(h)
    ensures Sound(Advance(h, AbortOp))
  {
    PoppedSkips(h.pushed, h.fates, |h.queue.items|, Aborted);
  }

  function Run(start: Queue, ops: seq<Op>): (h: History)
    requires start.items == [] && !start.overflow && Limits(start)
    ensures Sound(h)
  {
    if ops == [] then History(start, [], [], [])
    else
      var h := Run(start, ops[..|ops| - 1]);
      var op := ops[|ops| - 1];
      (match op
       case PushOp(x) => PushSound(h, x); Advance(h, op)
       case PopOp => if h.queue.items == [] then h else PopSound(h); Advance(h, op)
       case AbortOp => AbortSound(h); Advance(h, op))
  }

  /**
   Catching up: the first pop after an overflow returns the oldest of the newest min(size, delay) packets and
   leaves the others of them queued.
   */
  lemma {:induction false} CatchUp(q: Queue)
    requires Limits(q) && q.realtime && q.overflow && q.items != []
    ensures var m := if |q.items| < q.delay then |q.items| else q.delay;
            && Pop(q).1 == Some(q.items[|q.items| - m])
            && Pop(q).0.items == q.items[|q.items| - m + 1..]
            && !Pop(q).0.overflow
  {
  }

  // ---------------------------------------------------------------- the limits

  /** What initialization checks of a real-time queue. */
  predicate InitAccepts(size: int, delay: int) { delay <= size }

  /** The size counter of a real-time queue, whatever its limits, with the lowest value it ever had. */
  datatype Counter = Counter(size: int, overflow: bool, lowest: int) {
    function To(n: int): Counter { Counter(n, overflow, if n < lowest then n else lowest) }
  }

  function CountPush(c: Counter, maxSize: int): Counter {
    var c1 := if c.size >= maxSize then c.To(c.size - 1).(overflow := true) else c;
    c1.To(c1.size + 1)
  }

  function CountPop(c: Counter, delay: int): Counter {
    if c.size <= 0 then c
    else
      var c1 := if c.overflow && c.size > delay then c.To(delay) else c;
      c1.To(c1.size - 1).(overflow := false)
  }

  function Count(maxSize: int, delay: int, ops: seq<Op>): Counter {
    if ops == [] then Counter(0, false, 0)
    else CountOp(Count(maxSize, delay, ops[..|ops| - 1]), maxSize, delay, ops[|ops| - 1])
  }

  function RealTime(maxSize: int, delay: int): Queue { Queue([], true, maxSize, delay, false) }

  /** Within the limits the counter is the length of the queue and never below zero. */
  lemma {:induction false} CountIsLength(maxSize: int, delay: int, ops: seq<Op>)
    requires 1 <= delay <= maxSize
    ensures var q := Run(RealTime(maxSize, delay), ops).queue;
            Count(maxSize, delay, ops) == Counter(|q.items|, q.overflow, 0)
            && q.maxSize == maxSize && q.delay == delay && q.realtime
  {
    if ops != [] {
      var init, op := ops[..|ops| - 1], ops[|ops| - 1];
      CountIsLength(maxSize, delay, init);
      CountStep(Run(RealTime(maxSize, delay), init), op);
    }
  }

  function CountOp(c: Counter, maxSize: int, delay: int, op: Op): Counter {
    match op
    case PushOp(_) => CountPush(c, maxSize)
    case PopOp => CountPop(c, delay)
    case AbortOp => if c.size > 0 then c.To(0) else c
  }

  lemma {:induction false} CountStep(h: History, op: Op)
    requires Sound(h) && h.queue.realtime
    ensures var q, q' := h.queue, Advance(h, op).queue;
            && CountOp(Counter(|q.items|, q.overflow, 0), q.maxSize, q.delay, op) == Counter(|q'.items|, q'.overflow, 0)
            && (q'.maxSize, q'.delay, q'.realtime) == (q.maxSize, q.delay, q.realtime)
  {
  }

  function Pushes(n: nat): seq<Op> { seq(n, i => PushOp(0)) }

  lemma {:induction false} CountPushes(maxSize: int, delay: int, n: nat)
    requires 1 <= maxSize
    ensures Count(maxSize, delay, Pushes(n)) == Counter(if n < maxSize then n else maxSize, n > maxSize, 0)
  {
    if n > 0 {
      assert Pushes(n)[..n - 1] == Pushes(n - 1);
      CountPushes(maxSize, delay, n - 1);
    }
  }

  /** A run that takes the counter below zero when the delay is below one: a push, or an overflow and then a pop. */
  function BadRun(maxSize: int): seq<Op> { if maxSize < 1 then Pushes(1) else Pushes(maxSize + 1) + [PopOp] }

  lemma {:induction false} BadRunFails(maxSize: int, delay: int)
    requires InitAccepts(maxSize, delay) && delay < 1
    ensures Count(maxSize, delay, BadRun(maxSize)).lowest < 0
  {
    if maxSize < 1 {
      assert Pushes(1)[..0] == [];
    } else {
      CountPushes(maxSize, delay, maxSize + 1);
      assert BadRun(maxSize)[..maxSize + 1] == Pushes(maxSize + 1);
    }
  }

  /**
   Initialization lets a delay below one through, for which the counter goes below zero and the sentinel is taken for a
   node. For the accepted queues the counter stays non-negative in every run exactly when the delay is at least one.
   */
  lemma {:induction false} DelayBoundExact(maxSize: int, delay: int)
    requires InitAccepts(maxSize, delay)
    ensures 1 <= delay <==> forall ops: seq<Op> :: 0 <= Count(maxSize, delay, ops).lowest
  {
    if 1 <= delay {
      forall ops: seq<Op>
        ensures 0 <= Count(maxSize, delay, ops).lowest
      {
        CountIsLength(maxSize, delay, ops);
      }
    } else {
      BadRunFails(maxSize, delay);
    }
  }
}
