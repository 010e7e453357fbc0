/**
 What callers of an output stream rely on, over every run: a configured stream has a pool for what was last agreed, a
 buffer is obtained only when none is free, is out until it comes back, and the two counters tell who has it.
 */
module StreamLaws {
  import opened Common
  import opened StreamPool
  import opened StreamRuns

  // ---------------------------------------------------------------- configuration

  function Larger(a: nat, b: nat): nat { if a < b then b else a }

  /** The end of a configuration left the old pool alone. */
  predicate Kept(s: Stream, d: Done) { d.stream.pool == s.pool && d.freed == {} }

  /** It freed all buffers there were, and the new pool is empty, with places for the larger of the two counts. */
  predicate Replaced(s: Stream, d: Done) {
    && d.freed == s.pool.buffers.Keys
    && d.stream.pool.buffers == map[] && d.stream.pool.slotCount == 0 && d.stream.pool.pending == 0
    && d.stream.pool.total == Larger(s.clientAsk.maxBuffers, s.ask.maxBuffers)
    && !d.stream.active
  }

  /** The demands differ from those the pool was made for, or there is no pool yet. */
  predicate NeedsPool(s: Stream) { s.status.ConfigActive? || s.ask != s.oldAsk }

  /**
   A configuration ends well exactly if one is under way, there is a monitor, and no buffer of a pool that must go is
   out. Then the pool is replaced if demands changed or the stream is new, and kept otherwise; a refusal frees nothing.
   */
  lemma {:induction false} EndsConfigured(s: Stream, id: int, unset: seq<Handle>)
    ensures var d := EndConfigure(s, id, unset);
            && (d.code == OK <==>
                  s.Configuring() && id >= 0 && (s.status.ReconfigActive? && s.ask != s.oldAsk ==> s.pool.pending == 0))
            && (d.code == OK ==>
                  && d.stream.status.Configured? && d.stream.monitorId == id
                  && d.stream.ask == d.stream.oldAsk == s.ask
                  && if NeedsPool(s) then Replaced(s, d) else Kept(s, d))
            && (d.code != OK ==> d.stream.pool == s.pool && d.freed == {} && d.stream.oldAsk == s.oldAsk)
            && (d.code != OK && s.Configuring() && id >= 0 ==> d.stream.status.Failed?)
  {
  }

  /** What was agreed when a configuration last ended well; nothing at first. */
  function Agreed(ask: Ask, ops: seq<Op>): Ask {
    if ops == [] then Ask(0, 0)
    else
      var before, op := Run(NewStream(ask), ops[..|ops| - 1]).stream, ops[|ops| - 1];
      if op.EndConfigureOp? && Apply(before, op).code == OK then before.ask else Agreed(ask, ops[..|ops| - 1])
  }

  /** A stream that serves has a pool for what was agreed, and demands nothing else. */
  predicate ServesAgreed(s: Stream, client: Ask, agreed: Ask) {
    && s.clientAsk == client && s.oldAsk == agreed
    && (s.status.Configured? || s.status.PrepareActive? ==> s.ask == agreed)
    && (s.status.Configured? || s.status.PrepareActive? || s.status.ReconfigActive? ==>
          s.pool.total == Larger(client.maxBuffers, agreed.maxBuffers))
  }

  lemma {:induction false} StepServes(s: Stream, op: Op, client: Ask, agreed: Ask)
    requires ServesAgreed(s, client, agreed)
    ensures ServesAgreed(Apply(s, op).stream, client,
                         if op.EndConfigureOp? && Apply(s, op).code == OK then s.ask else agreed)
  {
  }

  /** Over whole runs, with whatever happens in between: also after an aborted or a failed configuration. */
  lemma {:induction false} RunServes(ask: Ask, ops: seq<Op>)
    ensures ServesAgreed(Run(NewStream(ask), ops).stream, ask, Agreed(ask, ops))
  {
    if ops != [] {
      var before := ops[..|ops| - 1];
      RunServes(ask, before);
      StepServes(Run(NewStream(ask), before).stream, ops[|ops| - 1], ask, Agreed(ask, before));
    }
  }

  /** A configuration begins with the client's own demands, and gives up the monitor. */
  lemma {:induction false} Begins(s: Stream)
    ensures var d := BeginConfigure(s);
            && d.stream.pool == s.pool && d.freed == {}
            && (d.code == OK <==> s.Configuring() || s.status.Initialized? || s.status.Configured?)
            && (d.code == OK ==> d.stream.Configuring())
            && (s.status.Initialized? || s.status.Configured? ==>
                  && d.stream.ask == s.clientAsk && d.stream.monitorId == INVALID_ID
                  && d.stream.status.ReconfigActive? == s.status.Configured?
                  && (s.monitorId != INVALID_ID ==> d.calls == [Release(s.monitorId)]))
  {
  }

  /** The stream after the HAL changed its demands any number of times. */
  function Adjusted(s: Stream, asks: seq<Ask>): Stream {
    if asks == [] then s else Apply(Adjusted(s, asks[..|asks| - 1]), HalAdjusts(asks[|asks| - 1])).stream
  }

  lemma {:induction false} AdjustsDemands(s: Stream, asks: seq<Ask>)
    requires s.Configuring()
    ensures Adjusted(s, asks) == if asks == [] then s else s.(ask := asks[|asks| - 1])
  {
    if asks != [] { AdjustsDemands(s, asks[..|asks| - 1]); }
  }

  /**
   Whatever the HAL asked for, a configuration that is aborted leaves a configured stream as it was, with the demands it
   had agreed to, but without its monitor.
   */
  lemma {:induction false} AbortRestores(ask: Ask, ops: seq<Op>, asks: seq<Ask>)
    requires Run(NewStream(ask), ops).stream.status.Configured?
    ensures var s := Run(NewStream(ask), ops).stream;
            AbortConfigure(Adjusted(BeginConfigure(s).stream, asks)) == Plain(s.(monitorId := INVALID_ID), OK)
  {
    RunServes(ask, ops);
    AdjustsDemands(BeginConfigure(Run(NewStream(ask), ops).stream).stream, asks);
  }

  /** Tearing down frees every buffer, and does so exactly with none out. */
  lemma {:induction false} TearsDown(s: Stream)
    requires Consistent(s) && s.status.Configured?
    ensures TearDown(s).code == OK <==> s.pool.Busy() == {}
    ensures TearDown(s).code == OK ==>
              var s' := TearDown(s).stream;
              && TearDown(s).freed == s.pool.buffers.Keys && s'.pool.buffers == map[] && s'.pool.slotCount == 0
              && s'.status.Configured? && !s'.active && s'.pool.total == s.pool.total
    ensures TearDown(s).code != OK ==> TearDown(s).stream == s && TearDown(s).freed == {}
  {
    if s.pool.slotCount == 0 { assert s.pool.buffers.Keys == Elements([]) == {}; }
  }

  /**
   Closing does the same, and the next configuration starts from scratch: it is under way already if it had begun. To
   close a stream that has no pool is no error.
   */
  lemma {:induction false} Closes(s: Stream)
    requires Consistent(s)
    ensures var d := Close(s);
            if s.status.Configured? || s.status.ReconfigActive? then
              && (d.code == OK <==> s.pool.Busy() == {})
              && (d.code == OK ==>
                    && d.freed == s.pool.buffers.Keys && d.stream.pool.buffers == map[]
                    && d.stream.status == if s.status.Configured? then Initialized else ConfigActive)
              && (d.code != OK ==> d.stream == s && d.freed == {})
            else d == Plain(s, OK)
  {
  }

  // ---------------------------------------------------------------- buffers

  predicate Gets(s: Stream, op: Op) { (op.GetBufferOp? || op.Resume?) && Apply(s, op).code == OK }

  predicate Returns(s: Stream, op: Op) { op.ReturnBufferOp? && Apply(s, op).code == OK }

  function Wanted(op: Op): Option<Handle>
    requires op.GetBufferOp? || op.Resume?
  {
    if op.GetBufferOp? then op.got else op.late
  }

  /**
   Where buffers go in one operation: a request that succeeds takes one out, a free one as long as there is any, and a
   new one otherwise, if there is a place for it; one that comes back is free; nothing else moves any, but for the
   operations that free all.
   */
  lemma {:induction false} BuffersMove(s: Stream, op: Op)
    ensures var d := Apply(s, op); var p, p' := s.pool, d.stream.pool;
            if Gets(s, op) then
              && Wanted(op).Some? && d.freed == {}
              && var h := Wanted(op).value;
                 && p'.buffers == p.buffers[h := false]
                 && (if h in p.buffers then p.buffers[h] else p.NoneFree() && p.slotCount < p.total)
                 && p'.pending == p.pending + 1
            else if Returns(s, op) then
              && d.freed == {} && op.handle in p.buffers && p'.buffers == p.buffers[op.handle := true]
              && p'.pending == p.pending - 1
            else if op.PrepareBufferOp? then
              d.freed == {} && p.buffers.Keys <= p'.buffers.Keys && p'.Busy() <= p.Busy() && p'.pending == p.pending
            else if d.freed != {} then p'.buffers == map[] && d.freed == p.buffers.Keys
            else p'.buffers == p.buffers || p.buffers == map[] == p'.buffers
  {
  }

  /** A number above all the handles. */
  lemma {:induction false} Above(handles: set<Handle>) returns (h: Handle)
    ensures forall x | x in handles :: x < h
  {
    if handles == {} {
      h := 0;
    } else {
      var x :| x in handles;
      var rest := Above(handles - {x});
      assert handles == handles - {x} + {x};
      h := if x < rest then rest else x + 1;
    }
  }

  /** A request waits exactly if there is no buffer it could get, neither a free one nor a new one. */
  lemma {:induction false} WaitsIff(s: Stream)
    requires Consistent(s) && s.status.Configured?
    ensures AllOut(s) <==> forall h :: !s.pool.Obtainable(h)
    ensures Apply(s, Wait).stream == if AllOut(s) then s.(waiters := s.waiters + 1) else s
  {
    var p := s.pool;
    PendingBounded(p);
    DistinctSize(p.slots[..p.slotCount]);
    if p.NoneFree() { assert p.Busy() == p.buffers.Keys; }
    if !AllOut(s) && p.NoneFree() {
      var h := Above(p.buffers.Keys);
      assert p.Obtainable(h + 1);
    } else if !p.NoneFree() {
      var h :| h in p.buffers && p.buffers[h];
      assert p.Obtainable(h);
      assert |p.buffers.Keys - {h}| == |p.buffers.Keys| - 1;
      SubsetSize(p.Busy(), p.buffers.Keys - {h});
    }
  }

  /** A caller that waited in vain is told so, and nothing else happens. */
  lemma {:induction false} TimesOut(s: Stream)
    requires s.waiters > 0
    ensures Apply(s, Timeout) == Done(s.(waiters := s.waiters - 1), -110, [], {})
  {
  }

  /**
   A request that the allocator fails is told that there is no memory exactly if it took the allocator; when the pool
   is full the code is another one.
   */
  lemma {:induction false} RefusalTells(s: Stream)
    requires Consistent(s) && s.Serving() && !s.status.ConfigActive?
    requires forall h | h in s.pool.buffers :: !s.pool.buffers[h]
    ensures GetBufferLocked(s, None) == Plain(s, if |s.pool.buffers| < s.pool.total then -12 else -38)
  {
    DistinctSize(s.pool.slots[..s.pool.slotCount]);
    assert |s.pool.buffers| == |s.pool.buffers.Keys|;
  }

  /** A good buffer goes to the client and stays out; a failed one comes back at once, as if the client returned it. */
  lemma {:induction false} GoodStaysOut(s: Stream, h: Handle)
    requires s.halCount < WORD && s.clientCount < WORD && h in s.pool.Busy() && s.pool.pending > 0
    requires !s.status.Initialized?
    ensures var good, failed := ReturnBufferToClient(s, h, true), ReturnBufferToClient(s, h, false);
            && good.code == OK && good.stream.pool == s.pool && h in good.stream.pool.Busy()
            && failed.code == OK && failed.stream.pool.Busy() == s.pool.Busy() - {h}
            && failed.stream.pool.buffers.Keys == s.pool.buffers.Keys
            && failed.stream.pool.pending == s.pool.pending - 1
            && failed.stream.clientCount == s.clientCount && failed.stream.halCount == good.stream.halCount
            && good.stream.active && failed.stream.active
  {
  }

  /** How many buffers were obtained, passed to the client and returned in a run. */
  datatype Tally = Tally(obtained: nat, passed: nat, returned: nat)

  function TallyOf(ask: Ask, ops: seq<Op>): Tally {
    if ops == [] then Tally(0, 0, 0)
    else
      Tallied(Run(NewStream(ask), ops[..|ops| - 1]).stream, ops[|ops| - 1], TallyOf(ask, ops[..|ops| - 1]))
  }

  /** A 32-bit counter of `n`. */
  predicate Counts(counter: nat, n: int) { counter < WORD && (counter - n) % WORD == 0 }

  /** The counters say, in 32 bits, how many buffers the HAL has, and how many the client has. */
  predicate Tells(s: Stream, t: Tally) {
    Counts(s.halCount, t.obtained - t.passed) && Counts(s.clientCount, t.passed - t.returned)
  }

  lemma {:induction false} Moved(counter: nat, n: int)
    requires Counts(counter, n)
    ensures Counts(Inc(counter), n + 1) && Counts(Dec(counter), n - 1)
  {
    WordsApart(counter - n, Inc(counter) - (n + 1));
    WordsApart(counter - n, Dec(counter) - (n - 1));
  }

  function Tallied(s: Stream, op: Op, t: Tally): Tally {
    if Gets(s, op) then t.(obtained := t.obtained + 1)
    else if Returns(s, op) then t.(returned := t.returned + 1)
    else if op.ToClientOp? then t.(passed := t.passed + 1)
    else t
  }

  /** The counters move with the buffers only. */
  lemma {:induction false} CountersMove(s: Stream, op: Op)
    ensures Apply(s, op).stream.halCount
         == if Gets(s, op) then Inc(s.halCount) else if op.ToClientOp? then Dec(s.halCount) else s.halCount
    ensures Apply(s, op).stream.clientCount
         == if Returns(s, op) then Dec(s.clientCount) else if op.ToClientOp? then Inc(s.clientCount) else s.clientCount
  {
  }

  lemma {:induction false} StepTells(s: Stream, op: Op, t: Tally)
    requires Tells(s, t)
    ensures Tells(Apply(s, op).stream, Tallied(s, op, t))
  {
    CountersMove(s, op);
    Moved(s.halCount, t.obtained - t.passed);
    Moved(s.clientCount, t.passed - t.returned);
  }

  lemma {:induction false} CountersTell(ask: Ask, ops: seq<Op>)
    ensures Tells(Run(NewStream(ask), ops).stream, TallyOf(ask, ops))
  {
    if ops != [] {
      var before := ops[..|ops| - 1];
      CountersTell(ask, before);
      StepTells(Run(NewStream(ask), before).stream, ops[|ops| - 1], TallyOf(ask, before));
    }
  }

  // ---------------------------------------------------------------- preparation

  /** Preparation begins on a configured stream with nothing out that has delivered nothing since. */
  lemma {:induction false} PrepareBegins(s: Stream)
    ensures BeginPrepare(s).code == ENODATA <==> s.status.Configured? && !s.active && s.pool.pending == 0
    ensures BeginPrepare(s).code == ENODATA ==>
              BeginPrepare(s).stream == s.(status := PrepareActive, prepared := 0)
    ensures BeginPrepare(s).code != ENODATA ==> BeginPrepare(s) == Plain(s, ENOSYS)
  {
  }

  /** It may be ended at any time; the buffers added stay. */
  lemma {:induction false} PrepareEnds(s: Stream)
    ensures EndPrepare(s) == if s.status.PrepareActive? then Plain(s.(status := Configured, prepared := 0), 0)
                             else Plain(s, -38)
  {
  }

  /** Prepares one buffer after the other. */
  function Prepared(s: Stream, handles: seq<Handle>): Stream {
    if handles == [] then s
    else PrepareBuffer(Prepared(s, handles[..|handles| - 1]), Some(handles[|handles| - 1])).stream
  }

  /** The pool of `s` with these handles added, all free. */
  predicate Added(s: Stream, s': Stream, handles: seq<Handle>) {
    && s'.pool.buffers.Keys == s.pool.buffers.Keys + Elements(handles)
    && (forall h | h in handles :: h in s'.pool.buffers && s'.pool.buffers[h])
    && (forall h | h in s.pool.buffers && h !in handles ::
          h in s'.pool.buffers && s'.pool.buffers[h] == s.pool.buffers[h])
    && s'.pool.slotCount == s.pool.slotCount + |handles| && s'.pool.total == s.pool.total == |s'.pool.slots|
    && s'.pool.pending == s.pool.pending
  }

  lemma {:induction false} PreparedAdds(s: Stream, handles: seq<Handle>)
    requires s.status.PrepareActive? && s.prepared == 0 && s.pool.slotCount <= s.pool.total == |s.pool.slots|
    requires |handles| <= s.pool.total - s.pool.slotCount
    ensures Added(s, Prepared(s, handles), handles)
    ensures if |handles| < s.pool.total || s.pool.total == 0 then
              Prepared(s, handles).status.PrepareActive? && Prepared(s, handles).prepared == |handles|
            else Prepared(s, handles).status.Configured? && Prepared(s, handles).prepared == 0
  {
    if handles != [] {
      var before, h := handles[..|handles| - 1], handles[|handles| - 1];
      PreparedAdds(s, before);
      assert handles == before + [h];
      assert Elements(handles) == Elements(before) + {h};
    }
  }

  /**
   Preparation completes by itself exactly if the pool was empty when it began: with buffers in the pool already, the
   last place is taken before as many are added as the pool has places, and the next answer is an error.
   */
  lemma {:induction false} PrepareCompletesIff(s: Stream, handles: seq<Handle>, next: Option<Handle>)
    requires s.status.PrepareActive? && s.prepared == 0 && s.pool.slotCount <= s.pool.total == |s.pool.slots|
    requires |handles| == s.pool.total - s.pool.slotCount && s.pool.total > 0
    ensures Prepared(s, handles).status.Configured? <==> s.pool.slotCount == 0
    ensures s.pool.slotCount > 0 ==> PrepareBuffer(Prepared(s, handles), next) == Plain(Prepared(s, handles), ENODEV)
  {
    PreparedAdds(s, handles);
  }
}
