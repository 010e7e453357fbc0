/**
 What the request thread takes over every run: copies of the list last set to repeat, nothing of it once it is stopped
 or flushed, and reprocess requests first, with numbers of their own.
 */
module RepeatingRuns {
  import opened Common
  import opened RequestScheduler
  import opened FrameNumbers

  /** The run without its last operation. */
  function Before(ops: seq<Op>): seq<Op>
    requires ops != []
  {
    ops[..|ops| - 1]
  }

  function Last(ops: seq<Op>): Op
    requires ops != []
  {
    ops[|ops| - 1]
  }

  // ---------------------------------------------------------------- repeating and stopping

  /** The list to repeat after these operations: that of the last call, unless it was stopped or flushed since. */
  function Current(ops: seq<Op>): seq<Request> {
    if ops == [] then []
    else if Last(ops).RepeatOp? then Last(ops).requests
    else if Stops(Last(ops)) then []
    else Current(Before(ops))
  }

  predicate Stops(op: Op) { op.StopRepeatOp? || op.FlushOp? }

  lemma {:induction false} StepRepeats(h: Handler, op: Op)
    ensures Apply(h, op).0.streaming
         == if op.RepeatOp? then op.requests else if Stops(op) then [] else h.streaming
  {
  }

  /** In every run, whatever the lists hold, the list repeated is that one. */
  lemma {:induction false} RepeatsCurrent(ops: seq<Op>, hasErrorCb: bool)
    ensures Run(Start(hasErrorCb), ops).handler.streaming == Current(ops)
  {
    if ops != [] {
      RepeatsCurrent(Before(ops), hasErrorCb);
      StepRepeats(Run(Start(hasErrorCb), Before(ops)).handler, Last(ops));
    }
  }

  predicate NoRepeat(ops: seq<Op>) { forall op | op in ops :: !op.RepeatOp? }

  /** `line` is `before` with queued requests added at its end. */
  predicate OnlyQueued(before: seq<Item>, line: seq<Item>) {
    before <= line && forall i | |before| <= i < |line| :: line[i].origin == Queued
  }

  lemma {:induction false} NothingTaken(h: History)
    requires h.handler.queue == [] && h.handler.streaming == []
    ensures Advance(h, GetOp) == h
  {
    assert h.line + [] == h.line && h.given + [] == h.given;
  }

  lemma {:induction false} StepOnlyQueued(h: History, op: Op)
    requires h.handler.streaming == []
    ensures OnlyQueued(h.line, Advance(h, op).line)
  {
    if op.QueueOp? {
      assert forall i | 0 <= i < |op.requests| :: Items(op.requests, Queued)[i].origin == Queued;
    } else {
      assert Joining(h, op) == [];
    }
  }

  lemma {:induction false} StaysStopped(h: History, more: seq<Op>)
    requires h.handler.streaming == [] && NoRepeat(more)
    ensures Run(h, more).handler.streaming == []
    ensures OnlyQueued(h.line, Run(h, more).line)
  {
    if more != [] {
      StaysStopped(h, Before(more));
      StepRepeats(Run(h, Before(more)).handler, Last(more));
      StepOnlyQueued(Run(h, Before(more)), Last(more));
    }
  }

  /**
   From any state: after a repeating list was stopped or flushed, and until the next one is set, only queued requests
   join the line, and nothing is taken when the queue is empty. A flush leaves the queue empty.
   */
  lemma {:induction false} StoppedMeansStopped(h: History, stop: Op, more: seq<Op>)
    requires Stops(stop) && NoRepeat(more)
    ensures var h' := Run(Advance(h, stop), more);
            && OnlyQueued(h.line, h'.line)
            && (h'.handler.queue == [] ==> Advance(h', GetOp) == h')
    ensures stop.FlushOp? ==> Advance(h, stop).handler.queue == []
  {
    StepRepeats(h.handler, stop);
    assert Advance(h, stop).line == h.line;
    StaysStopped(Advance(h, stop), more);
    var h' := Run(Advance(h, stop), more);
    if h'.handler.queue == [] { NothingTaken(h'); }
  }

  function Gets(k: nat): seq<Op> { seq(k, i => GetOp) }

  /** The copy taken so far: the first `k` requests of the list, in its order, the last of them in hand. */
  predicate CopyTaken(h: History, h': History, k: nat)
    requires k <= |h.handler.streaming|
  {
    var list := h.handler.streaming;
    && h'.handler.streaming == list && h'.handler.queue == (if k == 0 then [] else list[k..])
    && h.given <= h'.given && |h'.given| == |h.given| + k
    && (forall i | 0 <= i < k :: h'.given[|h.given| + i].request == list[i])
    && (k > 0 ==> h'.handler.held.Some? && h'.handler.held.value.request == list[k - 1])
  }

  lemma {:induction false} OneMoreGet(h: History, k: nat)
    requires k > 0
    ensures Run(h, Gets(k)) == Advance(Run(h, Gets(k - 1)), GetOp)
  {
    assert Before(Gets(k)) == Gets(k - 1);
  }

  lemma {:induction false} TakeOfCopy(h: History, h1: History, k: nat)
    requires Plain(h.handler.streaming) && k < |h.handler.streaming| && CopyTaken(h, h1, k)
    ensures CopyTaken(h, Advance(h1, GetOp), k + 1)
  {
    var list := h.handler.streaming;
    var h2 := Advance(h1, GetOp);
    if k == 0 {
      assert h2.handler.queue == list[1..] && h2.handler.held.value.request == list[0];
    } else {
      PlainQueue(list[k..]);
      assert h2.handler.queue == list[k..][1..] && h2.handler.held.value.request == list[k..][0];
      assert list[k..][1..] == list[k + 1..];
    }
    assert h2.given == h1.given + [Given(list[k], h2.handler.held.value.frame)];
  }

  /**
   With an empty queue the thread takes the whole list that is repeated, one request after the other in its order, until
   the queue is empty again.
   */
  lemma {:induction false} WholeCopy(h: History, k: nat)
    requires h.handler.queue == [] && Plain(h.handler.streaming) && k <= |h.handler.streaming|
    ensures CopyTaken(h, Run(h, Gets(k)), k)
  {
    if k > 0 {
      WholeCopy(h, k - 1);
      OneMoreGet(h, k);
      TakeOfCopy(h, Run(h, Gets(k - 1)), k - 1);
    } else {
      assert Run(h, Gets(0)) == h;
    }
  }

  // ---------------------------------------------------------------- reprocess requests

  /** The thread takes a reprocess request out of the queue. */
  predicate TakesInput(h: Handler, op: Op) { op.GetOp? && exists r | r in h.queue :: r.input }

  /** How often it does so in a run. */
  function InputsTaken(h: History, ops: seq<Op>): nat {
    if ops == [] then 0
    else
      var n := InputsTaken(h, Before(ops));
      if TakesInput(Run(h, Before(ops)).handler, Last(ops)) then n + 1 else n
  }

  lemma {:induction false} StepInputs(h: Handler, op: Op)
    ensures Apply(h, op).0.nextInputFrame == if TakesInput(h, op) then NextFrame(h.nextInputFrame) else h.nextInputFrame
  {
    if op.GetOp? {
      if FirstInput(h.queue) < |h.queue| { assert h.queue[FirstInput(h.queue)].input; }
    }
  }

  /** `n` reprocess requests were numbered so far. */
  predicate InputsAre(h: History, n: nat) { h.handler.nextInputFrame == n % FRAME_LIMIT }

  lemma {:induction false} CountOn(h: History, op: Op, n: nat)
    requires InputsAre(h, n)
    ensures InputsAre(Advance(h, op), if TakesInput(h.handler, op) then n + 1 else n)
  {
    StepInputs(h.handler, op);
  }

  lemma {:induction false} InputCounter(h: History, ops: seq<Op>)
    requires InputsAre(h, 0)
    ensures InputsAre(Run(h, ops), InputsTaken(h, ops))
  {
    if ops != [] {
      InputCounter(h, Before(ops));
      CountOn(Run(h, Before(ops)), Last(ops), InputsTaken(h, Before(ops)));
    }
  }

  /**
   In every run, reprocess requests among others in the queue are taken first and in their order, and are numbered
   0, 1, 2, ... modulo 2^32 on their own: they use up no number of the other requests, and leave those in their order.
   */
  lemma {:induction false} InputNumbers(ops: seq<Op>, hasErrorCb: bool, i: nat)
    requires var queue := Run(Start(hasErrorCb), ops).handler.queue;
             i < |queue| && queue[i].input && forall j | 0 <= j < i :: !queue[j].input
    ensures var h := Run(Start(hasErrorCb), ops).handler;
            var h' := Apply(h, GetOp).0;
            && h'.held == Some(Held(h.queue[i], InputsTaken(Start(hasErrorCb), ops) % FRAME_LIMIT))
            && h'.queue == h.queue[..i] + h.queue[i + 1..] && h'.nextFrame == h.nextFrame
  {
    InputCounter(Start(hasErrorCb), ops);
    assert FirstInput(Run(Start(hasErrorCb), ops).handler.queue) == i;
  }
}
