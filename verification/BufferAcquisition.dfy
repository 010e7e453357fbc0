/**
 Submitting a request takes one buffer from each of its streams, registers the request and calls the HAL. When any of
 that fails, the buffers already taken go back, so that a failed submission leaves every stream as it was.
 */
module BufferAcquisition {
  import opened Common
  import opened StreamPool
  import opened StreamRuns

  /** The streams of the device, by number. */
  type Streams = map<nat, Stream>

  /** A buffer taken from a stream. */
  datatype Taken = Taken(stream: nat, handle: Handle)

  /** Every buffer that is out, with its stream. */
  function Out(streams: Streams): set<Taken> {
    set k, h | k in streams && h in streams[k].pool.Busy() :: Taken(k, h)
  }

  function TakenSet(taken: seq<Taken>): set<Taken> { set t | t in taken }

  predicate AllConsistent(streams: Streams) { forall k | k in streams :: Consistent(streams[k]) }

  /** As far as buffers are concerned nothing happened. */
  predicate Restored(before: Streams, after: Streams) {
    && before.Keys == after.Keys
    && forall k | k in before ::
         after[k].pool.pending == before[k].pool.pending && after[k].pool.Busy() == before[k].pool.Busy()
  }

  lemma {:induction false} BusyIsOut(streams: Streams, k: nat, h: Handle)
    requires k in streams
    ensures h in streams[k].pool.Busy() <==> Taken(k, h) in Out(streams)
  {
  }

  lemma {:induction false} OutAfter(streams: Streams, k: nat, s: Stream)
    requires k in streams
    ensures forall t: Taken | t.stream != k :: t in Out(streams[k := s]) <==> t in Out(streams)
    ensures forall h :: Taken(k, h) in Out(streams[k := s]) <==> h in s.pool.Busy()
  {
  }

  /** What a buffer request does to the pool of a configured stream. */
  lemma {:induction false} GetTakes(s: Stream, h: Handle)
    requires Consistent(s) && s.status.Configured? && s.pool.Obtainable(h)
    ensures h !in s.pool.Busy()
    ensures HandOut(s, h).stream.pool.Busy() == s.pool.Busy() + {h}
    ensures Consistent(HandOut(s, h).stream) && HandOut(s, h).stream.status.Configured?
  {
    GetBufferConsistent(s, Some(h));
    PoolTakes(s.pool, h);
  }

  lemma {:induction false} PoolTakes(p: Pool, h: Handle)
    requires p.Obtainable(h)
    ensures h !in p.Busy() && p.HandOut(h).Busy() == p.Busy() + {h}
  {
  }

  lemma {:induction false} ReturnGivesBack(s: Stream, h: Handle)
    requires Consistent(s) && s.status.Configured? && h in s.pool.Busy()
    ensures var d := ReturnBuffer(s, h);
            && d.code == OK
            && d.stream.pool.Busy() == s.pool.Busy() - {h}
            && Consistent(d.stream) && d.stream.status.Configured?
  {
    ReturnBufferConsistent(s, h);
    TakeBackKeeps(s.pool, h);
  }

  lemma {:induction false} TakeOne(streams: Streams, k: nat, h: Handle)
    requires AllConsistent(streams) && k in streams && streams[k].status.Configured? && streams[k].pool.Obtainable(h)
    ensures var after := streams[k := HandOut(streams[k], h).stream];
            && AllConsistent(after)
            && Taken(k, h) !in Out(streams)
            && Out(after) == Out(streams) + {Taken(k, h)}
  {
    GetTakes(streams[k], h);
    var s := HandOut(streams[k], h).stream;
    OutAfter(streams, k, s);
    forall t: Taken
      ensures t in Out(streams[k := s]) <==> t in Out(streams) + {Taken(k, h)}
    {
      if t.stream == k { BusyIsOut(streams, k, t.handle); assert t == Taken(k, t.handle); }
    }
  }

  lemma {:induction false} GiveOneBack(streams: Streams, k: nat, h: Handle)
    requires AllConsistent(streams) && k in streams && streams[k].status.Configured? && Taken(k, h) in Out(streams)
    ensures var after := streams[k := ReturnBuffer(streams[k], h).stream];
            && AllConsistent(after)
            && Out(after) == Out(streams) - {Taken(k, h)}
  {
    BusyIsOut(streams, k, h);
    ReturnGivesBack(streams[k], h);
    var s := ReturnBuffer(streams[k], h).stream;
    OutAfter(streams, k, s);
    forall t: Taken
      ensures t in Out(streams[k := s]) <==> t in Out(streams) - {Taken(k, h)}
    {
      if t.stream == k { BusyIsOut(streams, k, t.handle); assert t == Taken(k, t.handle); }
    }
  }

  /** The same buffers out means the same pending counts. */
  lemma {:induction false} SameOutRestored(before: Streams, after: Streams)
    requires before.Keys == after.Keys && Out(before) == Out(after)
    requires AllConsistent(before) && AllConsistent(after)
    requires forall k | k in before :: after[k].status == before[k].status
    ensures Restored(before, after)
  {
    forall k | k in before
      ensures after[k].pool.Busy() == before[k].pool.Busy()
    {
      forall h
        ensures h in after[k].pool.Busy() <==> h in before[k].pool.Busy()
      {
        BusyIsOut(before, k, h);
        BusyIsOut(after, k, h);
      }
    }
  }

  predicate SameStatuses(before: Streams, after: Streams) {
    before.Keys == after.Keys && forall k | k in before :: after[k].status == before[k].status
  }

  predicate NoRepeats(taken: seq<Taken>) { forall i, j | 0 <= i < j < |taken| :: taken[i] != taken[j] }

  lemma {:induction false} TailSet(taken: seq<Taken>)
    requires NoRepeats(taken) && taken != []
    ensures NoRepeats(taken[1..]) && TakenSet(taken[1..]) == TakenSet(taken) - {taken[0]}
  {
  }

  /** The buffers in `taken` are distinct, were not out before, and are out now, as is everything that was. */
  predicate Holding(before: Streams, now: Streams, taken: seq<Taken>) {
    && SameStatuses(before, now)
    && AllConsistent(now)
    && NoRepeats(taken)
    && (forall t | t in taken :: t !in Out(before) && t.stream in before && before[t.stream].status.Configured?)
    && Out(now) == Out(before) + TakenSet(taken)
  }

  lemma {:induction false} HoldOneMore(before: Streams, now: Streams, taken: seq<Taken>, k: nat, h: Handle)
    requires Holding(before, now, taken) && k in now && now[k].status.Configured? && now[k].pool.Obtainable(h)
    ensures Holding(before, now[k := HandOut(now[k], h).stream], taken + [Taken(k, h)])
  {
    TakeOne(now, k, h);
    var t := Taken(k, h);
    assert TakenSet(taken + [t]) == TakenSet(taken) + {t};
    assert t !in TakenSet(taken) && t !in Out(before);
  }

  lemma {:induction false} DropFirst(before: Streams, now: Streams, now': Streams, taken: seq<Taken>)
    requires Holding(before, now, taken) && taken != []
    requires SameStatuses(before, now') && AllConsistent(now') && Out(now') == Out(now) - {taken[0]}
    ensures Holding(before, now', taken[1..])
  {
    TailSet(taken);
    assert taken[0] in taken && taken[0] !in Out(before);
  }

  lemma {:induction false} HoldOneLess(before: Streams, now: Streams, taken: seq<Taken>)
    requires Holding(before, now, taken) && taken != []
    ensures taken[0].stream in now
    ensures Holding(before,
                    now[taken[0].stream := ReturnBuffer(now[taken[0].stream], taken[0].handle).stream], taken[1..])
  {
    var t := taken[0];
    assert t in TakenSet(taken) && t in taken;
    GiveOneBack(now, t.stream, t.handle);
    BusyIsOut(now, t.stream, t.handle);
    ReturnGivesBack(now[t.stream], t.handle);
    DropFirst(before, now, now[t.stream := ReturnBuffer(now[t.stream], t.handle).stream], taken);
  }

  /** Nothing more can be taken: every named stream gave a buffer, or the next one refuses. */
  predicate Exhausted(now: Streams, names: seq<nat>, answers: seq<Option<Handle>>, taken: seq<Taken>)
    requires |answers| == |names| && forall k | k in names :: k in now
  {
    |taken| == |names|
    || (|taken| < |names| && Apply(now[names[|taken|]], GetBufferOp(answers[|taken|])).code != OK)
  }

  /** The buffers taken are the answers of the first named streams. */
  predicate Answers(names: seq<nat>, answers: seq<Option<Handle>>, taken: seq<Taken>)
    requires |answers| == |names|
  {
    |taken| <= |names|
    && forall i | 0 <= i < |taken| :: taken[i].stream == names[i] && answers[i] == Some(taken[i].handle)
  }

  /** Asks one stream for a buffer. */
  method GetOne(ghost before: Streams, streams: Streams, k: nat, got: Option<Handle>, taken: seq<Taken>)
    returns (ok: bool, after: Streams)
    requires Holding(before, streams, taken) && k in streams
    ensures ok == (Apply(streams[k], GetBufferOp(got)).code == OK)
    ensures ok ==> got.Some? && Holding(before, after, taken + [Taken(k, got.value)])
    ensures !ok ==> after == streams
  {
    var d := Apply(streams[k], GetBufferOp(got));
    ok, after := d.code == OK, streams;
    if ok {
      HoldOneMore(before, streams, taken, k, got.value);
      after := streams[k := d.stream];
    }
  }

  /**
   Asks each named stream in turn for a buffer; `answers[i]` is what the pool comes up with for the i-th, if anything.
   Stops at the first that has none.
   */
  method GetBuffers(streams: Streams, names: seq<nat>, answers: seq<Option<Handle>>)
    returns (after: Streams, taken: seq<Taken>)
    requires AllConsistent(streams) && (forall k | k in names :: k in streams) && |answers| == |names|
    ensures Holding(streams, after, taken) && Answers(names, answers, taken) && Exhausted(after, names, answers, taken)
  {
    after, taken := streams, [];
    assert Out(streams) + TakenSet([]) == Out(streams);
    while |taken| < |names|
      invariant Holding(streams, after, taken) && Answers(names, answers, taken)
      decreases |names| - |taken|
    {
      var k, got := names[|taken|], answers[|taken|];
      var ok;
      ok, after := GetOne(streams, after, k, got, taken);
      if !ok {
        return;
      }
      taken := taken + [Taken(k, got.value)];
    }
  }

  /** Gives every buffer taken back to its stream, first taken first. */
  method HandleErrorRequest(ghost before: Streams, streams: Streams, taken: seq<Taken>) returns (after: Streams)
    requires AllConsistent(before) && Holding(before, streams, taken)
    ensures Restored(before, after) && SameStatuses(before, after) && AllConsistent(after)
  {
    after := streams;
    assert taken[0..] == taken;
    for i := 0 to |taken|
      invariant Holding(before, after, taken[i..])
    {
      var t := taken[i];
      assert taken[i..][1..] == taken[i + 1..];
      HoldOneLess(before, after, taken[i..]);
      after := after[t.stream := ReturnBuffer(after[t.stream], t.handle).stream];
    }
    assert Out(before) + TakenSet([]) == Out(before);
    SameOutRestored(before, after);
  }

  /**
   One submission: `registered` and `accepted` are the answers of the tracker and of the HAL. It succeeds exactly when
   every named stream has a buffer and neither of them refuses. If it fails, all the buffers taken are back and no
   stream has changed its pending count or its set of outstanding handles; otherwise exactly one more buffer of each
   named stream is out. `peak` is the state with the buffers taken.
   */
  method SubmitRequest(streams: Streams, names: seq<nat>, answers: seq<Option<Handle>>, registered: bool,
                       accepted: bool)
    returns (after: Streams, ok: bool, taken: seq<Taken>, ghost peak: Streams)
    requires AllConsistent(streams) && (forall k | k in names :: k in streams) && |answers| == |names|
    ensures AllConsistent(after) && SameStatuses(streams, after)
    ensures Holding(streams, peak, taken) && Answers(names, answers, taken) && Exhausted(peak, names, answers, taken)
    ensures ok <==> |taken| == |names| && registered && accepted
    ensures if ok then after == peak else Restored(streams, after)
  {
    after, taken := GetBuffers(streams, names, answers);
    peak := after;
    ok := |taken| == |names| && registered && accepted;
    if !ok {
      after := HandleErrorRequest(streams, after, taken);
    }
  }
}
