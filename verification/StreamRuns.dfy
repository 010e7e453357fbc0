/**
 What every run of the stream keeps: the slots are exactly the pool, the pending count is the number of handles
 that are out, and a handle is freed at most once and never while a buffer is out.
 */
module StreamRuns {
  import opened Common
  import opened StreamPool

  function Elements(s: seq<Handle>): set<Handle> { set h | h in s }

  predicate Distinct(s: seq<Handle>) { forall i, j | 0 <= i < j < |s| :: s[i] != s[j] }

  /** The slots in use are exactly the distinct handles of the pool. */
  predicate SlotsMatch(p: Pool) {
    && p.slotCount <= p.total == |p.slots|
    && Distinct(p.slots[..p.slotCount])
    && Elements(p.slots[..p.slotCount]) == p.buffers.Keys
  }

  predicate PoolOk(p: Pool) { SlotsMatch(p) && p.pending == |p.Busy()| }

  predicate NoPool(p: Pool) { p.buffers == map[] && p.pending == 0 && |p.slots| == p.total }

  /** The HAL's and the client's 32-bit counters add up to the pending count. */
  predicate CountsAgree(hal: nat, client: nat, pending: nat) {
    hal < WORD && client < WORD && (hal + client - pending) % WORD == 0
  }

  predicate Consistent(s: Stream) {
    && (if s.status.Initialized? || s.status.ConfigActive? then NoPool(s.pool) else PoolOk(s.pool))
    && CountsAgree(s.halCount, s.clientCount, s.pool.pending)
  }

  /** A stream with the handles ever obtained from the allocator and the frees made so far. */
  datatype History = History(stream: Stream, ever: set<Handle>, freed: multiset<Handle>)

  /** The handle that an operation adds to the pool. */
  function Obtained(s: Stream, op: Op): set<Handle> { Apply(s, op).stream.pool.buffers.Keys - s.pool.buffers.Keys }

  function Advance(h: History, op: Op): History {
    var d := Apply(h.stream, op);
    History(d.stream, h.ever + Obtained(h.stream, op), h.freed + multiset(d.freed))
  }

  /**
   What is asked of the surroundings: the allocator answers with handles never seen before, the new slot array has
   the size asked for, and only handles that are out come back.
   */
  predicate Fair(h: History, op: Op) {
    var p := h.stream.pool;
    match op
    case EndConfigureOp(_, unset) => |unset| == h.stream.Demand()
    case PrepareBufferOp(Some(added)) => added != 0 && added !in h.ever
    case GetBufferOp(Some(got)) => got in p.buffers || got !in h.ever
    case Resume(Some(late)) => late in p.buffers || late !in h.ever
    case ReturnBufferOp(handle) => handle in p.buffers ==> !p.buffers[handle]
    case ToClientOp(filled) => filled in p.Busy()
    case _ => true
  }

  /** A caller that waited for a buffer does not go on while the stream is being configured from scratch. */
  predicate ResumesInTime(s: Stream, op: Op) { op.Resume? ==> !s.status.ConfigActive? }

  /** Every handle ever obtained is in the pool or was freed, once. */
  predicate Accounted(h: History) {
    && (forall x | x in h.freed :: h.freed[x] == 1 && x !in h.stream.pool.buffers)
    && h.ever == h.stream.pool.buffers.Keys + (set x | x in h.freed)
  }

  predicate Sound(h: History) { Consistent(h.stream) && Accounted(h) }

  function Run(s: Stream, ops: seq<Op>): History {
    if ops == [] then History(s, {}, multiset{}) else Advance(Run(s, ops[..|ops| - 1]), ops[|ops| - 1])
  }

  predicate FairRun(s: Stream, ops: seq<Op>) {
    ops == [] ||
    var h := Run(s, ops[..|ops| - 1]);
    && FairRun(s, ops[..|ops| - 1])
    && Fair(h, ops[|ops| - 1])
    && ResumesInTime(h.stream, ops[|ops| - 1])
  }

  // ---------------------------------------------------------------- the pool

  lemma {:induction false} DistinctSize(s: seq<Handle>)
    requires Distinct(s)
    ensures |Elements(s)| == |s|
  {
    if s != [] {
      var init, last := s[..|s| - 1], s[|s| - 1];
      DistinctSize(init);
      assert s == init + [last];
      assert Elements(s) == Elements(init) + {last};
    }
  }

  lemma {:induction false} SubsetSize(a: set<Handle>, b: set<Handle>)
    requires a <= b
    ensures |a| <= |b|
  {
    assert b == a + (b - a);
  }

  /** No more buffers are out than were obtained, and no more obtained than allowed. */
  lemma {:induction false} PendingBounded(p: Pool)
    requires PoolOk(p)
    ensures p.pending <= p.slotCount <= p.total
  {
    DistinctSize(p.slots[..p.slotCount]);
    SubsetSize(p.Busy(), p.buffers.Keys);
  }

  lemma {:induction false} RegisterKeeps(p: Pool, h: Handle, free: bool)
    requires SlotsMatch(p) && p.Room() && h !in p.buffers
    ensures SlotsMatch(p.Register(h, free))
  {
    var p' := p.Register(h, free);
    assert p'.slots[..p'.slotCount] == p.slots[..p.slotCount] + [h];
    assert Elements(p'.slots[..p'.slotCount]) == Elements(p.slots[..p.slotCount]) + {h};
    assert h !in Elements(p.slots[..p.slotCount]);
  }

  lemma {:induction false} HandOutKeeps(p: Pool, h: Handle)
    requires PoolOk(p) && p.Obtainable(h)
    ensures PoolOk(p.HandOut(h))
  {
    if h in p.buffers {
      assert p.buffers[h := false].Keys == p.buffers.Keys;
    } else {
      RegisterKeeps(p, h, false);
    }
    assert p.HandOut(h).Busy() == p.Busy() + {h};
  }

  lemma {:induction false} TakeBackKeeps(p: Pool, h: Handle)
    requires PoolOk(p) && h in p.Busy()
    ensures p.pending > 0 && PoolOk(p.TakeBack(h))
  {
    assert |p.Busy() - {h}| == |p.Busy()| - 1;
    assert p.TakeBack(h).Busy() == p.Busy() - {h};
    assert p.TakeBack(h).buffers.Keys == p.buffers.Keys;
  }

  lemma {:induction false} EmptyPool(p: Pool)
    requires p.slotCount == 0 && p.total == |p.slots| && p.buffers == map[] && p.pending == 0
    ensures PoolOk(p)
  {
  }

  lemma {:induction false} WordsApart(x: int, y: int)
    requires x % WORD == 0 && (y == x || y == x - WORD || y == x + WORD)
    ensures y % WORD == 0
  {
  }

  lemma {:induction false} CountsMove(a: nat, b: nat, p: nat)
    requires CountsAgree(a, b, p)
    ensures CountsAgree(Inc(a), b, p + 1)
    ensures CountsAgree(Dec(a), Inc(b), p)
    ensures p > 0 ==> CountsAgree(a, Dec(b), p - 1)
  {
    WordsApart(a + b - p, Inc(a) + b - (p + 1));
    WordsApart(a + b - p, a + Dec(b) - (p - 1));
    WordsApart(a + b - p, Dec(a) + b - (p - 1));
    WordsApart(Dec(a) + b - (p - 1), Dec(a) + Inc(b) - p);
  }

  // ---------------------------------------------------------------- one operation

  lemma {:induction false} HandOutConsistent(s: Stream, h: Handle)
    requires PoolOk(s.pool) && CountsAgree(s.halCount, s.clientCount, s.pool.pending)
    requires s.Serving() && !s.status.ConfigActive? && s.pool.Obtainable(h)
    ensures Consistent(HandOut(s, h).stream)
  {
    HandOutKeeps(s.pool, h);
    CountsMove(s.halCount, s.clientCount, s.pool.pending);
    assert s.pool.HandOut(h).pending == s.pool.pending + 1;
  }

  lemma {:induction false} GetBufferConsistent(s: Stream, got: Option<Handle>)
    requires Consistent(s) && !s.status.ConfigActive?
    ensures Consistent(GetBufferLocked(s, got).stream)
  {
    if s.Serving() && got.Some? && s.pool.Obtainable(got.value) {
      HandOutConsistent(s, got.value);
    }
  }

  lemma {:induction false} ReturnBufferConsistent(s: Stream, h: Handle)
    requires Consistent(s) && (h in s.pool.buffers ==> !s.pool.buffers[h])
    ensures Consistent(ReturnBuffer(s, h).stream)
  {
    if h in s.pool.buffers {
      TakeBackKeeps(s.pool, h);
      CountsMove(s.halCount, s.clientCount, s.pool.pending);
    }
  }

  lemma {:induction false} ToClientConsistent(s: Stream)
    requires Consistent(s)
    ensures Consistent(ToClient(s))
  {
  }

  lemma {:induction false} EndConfigureConsistent(s: Stream, id: int, unset: seq<Handle>)
    requires Consistent(s) && |unset| == s.Demand()
    ensures Consistent(EndConfigure(s, id, unset).stream)
    ensures EndConfigure(s, id, unset).freed != {} ==> s.pool.pending == 0
  {
    EmptyPool(Pool(s.Demand(), unset, 0, map[], 0));
  }

  lemma {:induction false} TearDownConsistent(s: Stream)
    requires Consistent(s)
    ensures Consistent(TearDown(s).stream)
  {
  }

  lemma {:induction false} PrepareConsistent(s: Stream, h: Option<Handle>)
    requires Consistent(s) && (h.Some? ==> h.value !in s.pool.buffers)
    ensures Consistent(PrepareBuffer(s, h).stream)
  {
    if s.status.PrepareActive? && s.pool.Room() && h.Some? {
      RegisterKeeps(s.pool, h.value, true);
      assert s.pool.Register(h.value, true).Busy() == s.pool.Busy();
    }
  }

  /** Every operation keeps the pool consistent. */
  lemma {:induction false} StepConsistent(h: History, op: Op)
    requires Sound(h) && Fair(h, op) && ResumesInTime(h.stream, op)
    ensures Consistent(Apply(h.stream, op).stream)
  {
    var s := h.stream;
    match op
    case GetBufferOp(got) => if s.status.Configured? { GetBufferConsistent(s, got); }
    case Resume(late) => if s.waiters > 0 { GetBufferConsistent(s.(waiters := s.waiters - 1), late); }
    case ReturnBufferOp(handle) => ReturnBufferConsistent(s, handle);
    case ToClientOp(_) => ToClientConsistent(s);
    case EndConfigureOp(id, unset) => EndConfigureConsistent(s, id, unset);
    case PrepareBufferOp(added) => PrepareConsistent(s, added);
    case TearDownOp => TearDownConsistent(s);
    case _ =>
  }

  /** A handle is freed only while no buffer is out. */
  lemma {:induction false} FreesWhenIdle(h: History, op: Op)
    requires Sound(h) && Fair(h, op)
    requires Apply(h.stream, op).freed != {}
    ensures h.stream.pool.pending == 0 && h.stream.pool.Busy() == {}
  {
  }

  /** An operation frees handles of the pool only, and leaves the rest of it. */
  lemma {:induction false} FreesFromPool(s: Stream, op: Op)
    ensures var d := Apply(s, op);
            && d.freed <= s.pool.buffers.Keys
            && d.stream.pool.buffers.Keys >= s.pool.buffers.Keys - d.freed
            && d.stream.pool.buffers.Keys !! d.freed
  {
  }

  /** What an operation adds to the pool was never there before. */
  lemma {:induction false} ObtainsFresh(h: History, op: Op)
    requires Fair(h, op)
    ensures Obtained(h.stream, op) !! h.ever
  {
  }

  lemma {:induction false} StepAccounted(h: History, op: Op)
    requires Accounted(h) && Fair(h, op)
    ensures Accounted(Advance(h, op))
  {
    FreesFromPool(h.stream, op);
    ObtainsFresh(h, op);
    AccountedGrows(h, Advance(h, op), Apply(h.stream, op).freed, Obtained(h.stream, op));
  }

  lemma {:induction false} AccountedGrows(h: History, h': History, freed: set<Handle>, obtained: set<Handle>)
    requires Accounted(h)
    requires freed <= h.stream.pool.buffers.Keys && obtained !! h.ever
    requires h'.stream.pool.buffers.Keys == h.stream.pool.buffers.Keys - freed + obtained
    requires h'.ever == h.ever + obtained && h'.freed == h.freed + multiset(freed)
    ensures Accounted(h')
  {
  }

  /**
   Over whole runs: the slots are exactly the distinct handles of the pool, the pending count is the number of
   handles that are out, the two owner counters add up to it modulo 2^32, and every handle ever obtained is
   either in the pool or was freed exactly once.
   */
  lemma {:induction false} RunSound(ask: Ask, ops: seq<Op>)
    requires FairRun(NewStream(ask), ops)
    ensures Sound(Run(NewStream(ask), ops))
  {
    var s := NewStream(ask);
    if ops != [] {
      var h, op := Run(s, ops[..|ops| - 1]), ops[|ops| - 1];
      RunSound(ask, ops[..|ops| - 1]);
      StepConsistent(h, op);
      StepAccounted(h, op);
    }
  }

  /**
   The condition on resuming is exact: on a consistent stream a waiting caller's request leaves it consistent if and
   only if it does not succeed while the stream is being configured from scratch.
   */
  lemma {:induction false} ResumeConsistentIff(s: Stream, late: Option<Handle>)
    requires Consistent(s) && s.waiters > 0
    ensures Consistent(Apply(s, Resume(late)).stream)
       <==> !(s.status.ConfigActive? && late.Some? && s.pool.Obtainable(late.value))
  {
    var s1 := s.(waiters := s.waiters - 1);
    assert Apply(s, Resume(late)).stream == GetBufferLocked(s1, late).stream;
    RequestConsistentIff(s1, late);
  }

  lemma {:induction false} RequestConsistentIff(s: Stream, got: Option<Handle>)
    requires Consistent(s)
    ensures Consistent(GetBufferLocked(s, got).stream)
       <==> !(s.status.ConfigActive? && got.Some? && s.pool.Obtainable(got.value))
  {
    if !s.status.ConfigActive? {
      GetBufferConsistent(s, got);
    } else if got.Some? && s.pool.Obtainable(got.value) {
      assert !NoPool(HandOut(s, got.value).stream.pool);
    }
  }

  function ApplyAll(s: Stream, ops: seq<Op>): Stream
    decreases |ops|
  {
    if ops == [] then s else ApplyAll(Apply(s, ops[0]).stream, ops[1..])
  }

  lemma {:induction false} ApplyFirst(s: Stream, op: Op, ops: seq<Op>)
    ensures ApplyAll(s, [op] + ops) == ApplyAll(Apply(s, op).stream, ops)
  {
  }

  /** A configured one-buffer stream whose buffer is out while a second caller waits for it. */
  const CONTENDED := Stream(Configured, Pool(1, [5], 1, map[5 := false], 1), 1, 0, 0, false, 0,
                            Ask(0, 1), Ask(0, 1), Ask(0, 1), 1)

  /** That state is reached from a new stream. */
  lemma {:induction false} ContendedReached()
    ensures ApplyAll(NewStream(Ask(0, 1)),
                     [BeginConfigureOp] + ([EndConfigureOp(0, [0])] + ([GetBufferOp(Some(5))] + ([Wait] + []))))
         == CONTENDED
  {
    var s0 := NewStream(Ask(0, 1));
    var s1 := Apply(s0, BeginConfigureOp).stream;
    var s2 := Apply(s1, EndConfigureOp(0, [0])).stream;
    var s3 := Apply(s2, GetBufferOp(Some(5))).stream;
    assert s2.pool == Pool(1, [0], 0, map[], 0);
    assert s3.pool == Pool(1, [5], 1, map[5 := false], 1);
    ApplyFirst(s3, Wait, []);
    ApplyFirst(s2, GetBufferOp(Some(5)), [Wait] + []);
    ApplyFirst(s1, EndConfigureOp(0, [0]), [GetBufferOp(Some(5))] + ([Wait] + []));
    ApplyFirst(s0, BeginConfigureOp, [EndConfigureOp(0, [0])] + ([GetBufferOp(Some(5))] + ([Wait] + [])));
  }

  /** The same stream under a new configuration, its caller still waiting. */
  const REOPENED := Stream(ConfigActive, Pool(1, [0], 0, map[], 0), 1, WORD - 1, INVALID_ID, false, 0,
                           Ask(0, 1), Ask(0, 1), Ask(0, 1), 1)

  /** The buffer comes back, the pool is torn down and closed, and a new configuration begins. */
  lemma {:induction false} ReopenedReached()
    ensures ApplyAll(CONTENDED, [ReturnBufferOp(5)] + ([TearDownOp] + ([CloseOp] + ([BeginConfigureOp] + []))))
         == REOPENED
  {
    var s1 := Apply(CONTENDED, ReturnBufferOp(5)).stream;
    assert s1.pool == Pool(1, [5], 1, map[5 := true], 0);
    var s2 := Apply(s1, TearDownOp).stream;
    assert s2.pool == Pool(1, [0], 0, map[], 0);
    var s3 := Apply(s2, CloseOp).stream;
    ApplyFirst(s3, BeginConfigureOp, []);
    ApplyFirst(s2, CloseOp, [BeginConfigureOp] + []);
    ApplyFirst(s1, TearDownOp, [CloseOp] + ([BeginConfigureOp] + []));
    ApplyFirst(CONTENDED, ReturnBufferOp(5), [TearDownOp] + ([CloseOp] + ([BeginConfigureOp] + [])));
  }

  /**
   What then goes wrong: the waiting caller goes on and gets a new buffer, which the end of the configuration frees
   while it is out, leaving the two counters at odds with the pending count.
   */
  lemma {:induction false} LateResumeFreesWhileOut()
    ensures var s := Apply(REOPENED, Resume(Some(7))).stream;
            var d := Apply(s, EndConfigureOp(1, [0]));
            && 7 in s.pool.Busy() && 7 in d.freed
            && d.stream.halCount == 2 && d.stream.clientCount == WORD - 1 && d.stream.pool.pending == 0
  {
  }
}
