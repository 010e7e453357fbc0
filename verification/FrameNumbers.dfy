/**
 Frame numbers over every run of the request handler: numbers are given as 0, 1, 2, ... in the order in which requests
 join the line, and the numbers replied to callers are the ones given later.
 */
module FrameNumbers {
  import opened Common
  import opened RequestScheduler

  /** Where a request in the line comes from: a queued list, or the repeating list of an epoch. */
  datatype Origin = Queued | Repeating(epoch: nat)
  datatype Item = Item(request: Request, origin: Origin)
  datatype Given = Given(request: Request, frame: nat)

  /** A handler, the line of all requests that ever joined it, the numbers given so far and the repeating epoch. */
  datatype History = History(handler: Handler, line: seq<Item>, given: seq<Given>, epoch: nat)

  function Items(requests: seq<Request>, origin: Origin): seq<Item> {
    seq(|requests|, i requires 0 <= i < |requests| => Item(requests[i], origin))
  }

  /** Numbers given one after the other from `frame` on. */
  function Numbered(requests: seq<Request>, frame: nat): seq<Given> {
    seq(|requests|, i requires 0 <= i < |requests| => Given(requests[i], Later(frame, i)))
  }

  function Joining(h: History, op: Op): seq<Item> {
    match op
    case QueueOp(requests) => Items(requests, Queued)
    case GetOp => if h.handler.queue == [] then Items(h.handler.streaming, Repeating(h.epoch)) else []
    case _ => []
  }

  /** The numbers an operation gives: to the request taken, or to every request flushed. */
  function Giving(h: Handler, op: Op): seq<Given> {
    match op
    case GetOp =>
      if h.queue == [] && h.streaming == [] then []
      else var held := GetRequest(h).held.value; [Given(held.request, held.frame)]
    case FlushOp => if h.hasErrorCb then Numbered(h.queue, h.nextFrame) else []
    case _ => []
  }

  function Advance(h: History, op: Op): History {
    History(Apply(h.handler, op).0, h.line + Joining(h, op), h.given + Giving(h.handler, op),
            if op.RepeatOp? || op.StopRepeatOp? || op.FlushOp? then h.epoch + 1 else h.epoch)
  }

  function Start(hasErrorCb: bool): History { History(NewHandler(hasErrorCb), [], [], 0) }

  /** What a run of operations makes of a history. */
  function Run(h: History, ops: seq<Op>): History {
    if ops == [] then h else Advance(Run(h, ops[..|ops| - 1]), ops[|ops| - 1])
  }

  /** Callers keep reprocess requests out of these lists: they have their own queue. */
  predicate Plain(requests: seq<Request>) { forall r | r in requests :: !r.input }

  predicate Fair(h: Handler, op: Op) {
    match op
    case QueueOp(requests) => Plain(requests)
    case RepeatOp(requests) => Plain(requests)
    case FlushOp => h.hasErrorCb || h.queue == []
    case _ => true
  }

  predicate FairRun(h: History, ops: seq<Op>) {
    ops == [] || (FairRun(h, ops[..|ops| - 1]) && Fair(Run(h, ops[..|ops| - 1]).handler, ops[|ops| - 1]))
  }

  // ---------------------------------------------------------------- the invariant

  /** The number `i` went to the i-th request in the line. */
  predicate GivenInOrder(line: seq<Item>, given: seq<Given>) {
    && |given| <= |line|
    && forall i | 0 <= i < |given| :: given[i] == Given(line[i].request, i % FRAME_LIMIT)
  }

  /** The queue is the part of the line that has no number yet. */
  predicate QueueIsRest(line: seq<Item>, done: nat, queue: seq<Request>) {
    && done <= |line|
    && |queue| == |line| - done
    && forall i | 0 <= i < |queue| :: queue[i] == line[done + i].request
  }

  predicate NoneOf(line: seq<Item>, epoch: nat) { forall i | 0 <= i < |line| :: line[i].origin != Repeating(epoch) }

  /** `last` is the place of the last copy of the epoch's list in the line, or -1 if there is none. */
  predicate LastOf(line: seq<Item>, epoch: nat, last: int) {
    if last == NO_FRAMES then NoneOf(line, epoch)
    else
      && 0 <= last < |line| && line[last].origin == Repeating(epoch)
      && forall i | last < i < |line| :: line[i].origin != Repeating(epoch)
  }

  predicate Sound(h: History) {
    && GivenInOrder(h.line, h.given)
    && QueueIsRest(h.line, |h.given|, h.handler.queue)
    && h.handler.nextFrame == |h.given| % FRAME_LIMIT
    && Plain(h.handler.queue) && Plain(h.handler.streaming)
    && (|h.line| <= FRAME_LIMIT ==> LastOf(h.line, h.epoch, h.handler.streamingLast))
    && (forall i | 0 <= i < |h.line| :: h.line[i].origin.Repeating? ==> h.line[i].origin.epoch <= h.epoch)
  }

  lemma {:induction false} PlainQueue(queue: seq<Request>)
    requires Plain(queue)
    ensures FirstInput(queue) == |queue|
  {
  }

  lemma {:induction false} QueueSound(h: History, requests: seq<Request>)
    requires Sound(h) && Plain(requests)
    ensures Sound(Advance(h, QueueOp(requests)))
  {
  }

  /** Taking a queued request gives it the number of its place in the line. */
  lemma {:induction false} TakeQueuedSound(h: History)
    requires Sound(h) && h.handler.queue != []
    ensures Sound(Advance(h, GetOp))
  {
    var h' := Advance(h, GetOp);
    PlainQueue(h.handler.queue);
    assert h'.line == h.line;
    assert h'.given == h.given + [Given(h.handler.queue[0], |h.given| % FRAME_LIMIT)];
    ModNext(|h.given|);
  }

  lemma {:induction false} ModNext(n: nat)
    ensures NextFrame(n % FRAME_LIMIT) == (n + 1) % FRAME_LIMIT
    ensures forall k: nat :: Later(n % FRAME_LIMIT, k) == (n + k) % FRAME_LIMIT
  {
  }

  /** Expanding the repeating list puts a whole copy in the line, whose last number is remembered. */
  lemma {:induction false} ExpandSound(h: History)
    requires Sound(h) && h.handler.queue == [] && h.handler.streaming != []
    ensures Sound(Advance(h, GetOp))
  {
    var h' := Advance(h, GetOp);
    var n := |h.given|;
    assert n == |h.line|;
    assert h'.given == h.given + [Given(h.handler.streaming[0], n % FRAME_LIMIT)];
    ModNext(n);
    if |h'.line| <= FRAME_LIMIT {
      assert n % FRAME_LIMIT == n;
      assert h'.handler.streamingLast == |h'.line| - 1;
    }
  }

  lemma {:induction false} FlushSound(h: History)
    requires Sound(h) && (h.handler.hasErrorCb || h.handler.queue == [])
    ensures Sound(Advance(h, FlushOp))
  {
    var h' := Advance(h, FlushOp);
    ModNext(|h.given|);
    assert h'.line == h.line;
    assert |h'.given| == |h.line|;
  }

  lemma {:induction false} StepSound(h: History, op: Op)
    requires Sound(h) && Fair(h.handler, op)
    ensures Sound(Advance(h, op))
  {
    match op
    case QueueOp(requests) => QueueSound(h, requests);
    case FlushOp => FlushSound(h);
    case GetOp =>
      if h.handler.queue != [] { TakeQueuedSound(h); }
      else if h.handler.streaming != [] { ExpandSound(h); }
      else { assert Advance(h, op) == h; }
    case _ =>
      assert Advance(h, op).line == h.line && Advance(h, op).given == h.given;
  }

  lemma {:induction false} RunKeepsSound(h: History, ops: seq<Op>)
    requires Sound(h) && FairRun(h, ops)
    ensures Sound(Run(h, ops))
  {
    if ops != [] {
      RunKeepsSound(h, ops[..|ops| - 1]);
      StepSound(Run(h, ops[..|ops| - 1]), ops[|ops| - 1]);
    }
  }

  /** Over whole runs numbers are given as 0, 1, 2, ... modulo 2^32, without gap or repeat, along the line. */
  lemma {:induction false} RunSound(ops: seq<Op>, hasErrorCb: bool)
    requires FairRun(Start(hasErrorCb), ops)
    ensures Sound(Run(Start(hasErrorCb), ops))
  {
    RunKeepsSound(Start(hasErrorCb), ops);
  }

  // ---------------------------------------------------------------- the numbers replied

  /** The line only grows, and epochs only advance. */
  lemma {:induction false} LineGrows(h: History, ops: seq<Op>)
    ensures h.line <= Run(h, ops).line
    ensures h.epoch <= Run(h, ops).epoch
  {
    if ops != [] { LineGrows(h, ops[..|ops| - 1]); }
  }

  /**
   The number `reply` belongs to request `r`: it has its place in the line, and no other request is given that number.
   */
  predicate NumberIs(h: History, reply: int, r: Request) {
    && 0 <= reply < |h.line| && h.line[reply].request == r
    && (reply < |h.given| ==> h.given[reply] == Given(r, reply))
    && forall i | 0 <= i < |h.given| :: h.given[i].frame == reply ==> i == reply
  }

  lemma {:induction false} PlaceIsNumber(h1: History, h: History, reply: int, r: Request)
    requires Sound(h) && h1.line <= h.line && |h.line| <= FRAME_LIMIT
    requires 0 <= reply < |h1.line| && h1.line[reply].request == r
    ensures NumberIs(h, reply, r)
  {
  }

  lemma {:induction false} QueuedPlace(h: History, requests: seq<Request>)
    requires Sound(h) && requests != [] && |h.line| + |requests| <= FRAME_LIMIT
    ensures var line := Advance(h, QueueOp(requests)).line;
            && |line| == |h.line| + |requests|
            && QueueRequestList(h.handler, requests).1 == |line| - 1
            && line[|line| - 1].request == requests[|requests| - 1]
  {
  }

  /**
   Prediction of frame numbers. In every reachable state, the number replied when a list is queued is the one given to
   its last request, and to no other, however the run goes on: whatever is queued, repeated or flushed later.
   */
  lemma {:induction false} PredictionHolds(h: History, requests: seq<Request>, after: seq<Op>)
    requires Sound(h) && requests != [] && Plain(requests)
    requires FairRun(Advance(h, QueueOp(requests)), after)
    requires |Run(Advance(h, QueueOp(requests)), after).line| <= FRAME_LIMIT
    ensures NumberIs(Run(Advance(h, QueueOp(requests)), after),
                     QueueRequestList(h.handler, requests).1, requests[|requests| - 1])
  {
    var h1 := Advance(h, QueueOp(requests));
    StepSound(h, QueueOp(requests));
    RunKeepsSound(h1, after);
    LineGrows(h1, after);
    assert |h1.line| == |h.line| + |requests|;
    QueuedPlace(h, requests);
    PlaceIsNumber(h1, Run(h1, after), |h1.line| - 1, requests[|requests| - 1]);
  }

  predicate EndsEpoch(op: Op) { op.RepeatOp? || op.StopRepeatOp? || op.FlushOp? }

  /** Once its epoch is over no further copy of a repeating list joins the line. */
  lemma {:induction false} EpochOver(h: History, ops: seq<Op>, epoch: nat, last: int)
    requires h.epoch > epoch && LastOf(h.line, epoch, last)
    ensures LastOf(Run(h, ops).line, epoch, last)
  {
    if ops != [] {
      EpochOver(h, ops[..|ops| - 1], epoch, last);
      LineGrows(h, ops[..|ops| - 1]);
      StepAfterEpoch(Run(h, ops[..|ops| - 1]), ops[|ops| - 1], epoch, last);
    }
  }

  lemma {:induction false} StepAfterEpoch(h: History, op: Op, epoch: nat, last: int)
    requires h.epoch > epoch && LastOf(h.line, epoch, last)
    ensures LastOf(Advance(h, op).line, epoch, last)
  {
  }

  /** `reply` is the largest number given, or to be given, to a copy of the epoch's list; -1 if there is no copy. */
  predicate LargestIs(h: History, epoch: nat, reply: int) {
    && LastOf(h.line, epoch, reply)
    && (forall i | 0 <= i < |h.given| && i < |h.line| ::
          h.line[i].origin == Repeating(epoch) ==> h.given[i].frame <= reply)
    && (0 <= reply < |h.given| ==> h.given[reply] == Given(h.line[reply].request, reply))
    && (reply == NO_FRAMES <==> NoneOf(h.line, epoch))
  }

  lemma {:induction false} LastIsLargest(h: History, epoch: nat, reply: int)
    requires Sound(h) && |h.line| <= FRAME_LIMIT && LastOf(h.line, epoch, reply)
    ensures LargestIs(h, epoch, reply)
  {
  }

  /**
   In every reachable state, the number replied when a repeating list is replaced, cleared or flushed is the largest
   ever given to a copy from it, also to copies still queued then, and it is -1 exactly when no copy was ever taken.
   */
  lemma {:induction false} RepeatingReply(h: History, op: Op, after: seq<Op>)
    requires Sound(h) && EndsEpoch(op) && Fair(h.handler, op)
    requires FairRun(Advance(h, op), after) && |Run(Advance(h, op), after).line| <= FRAME_LIMIT
    ensures LargestIs(Run(Advance(h, op), after), h.epoch, Apply(h.handler, op).1)
  {
    var h1 := Advance(h, op);
    StepSound(h, op);
    RunKeepsSound(h1, after);
    LineGrows(h1, after);
    assert h1.line == h.line;
    EpochOver(h1, after, h.epoch, h.handler.streamingLast);
    LastIsLargest(Run(h1, after), h.epoch, h.handler.streamingLast);
  }

  /** The number was promised to a request that is queued. */
  predicate Promised(h: History, frame: nat) { |h.given| <= frame < |h.line| }

  /** The number the first request queued after a flush is given. */
  function AfterFlush(h: History, b: Request): nat
    requires Sound(h) && !b.input
  {
    var flushed := Advance(Advance(h, FlushOp), QueueOp([b])).handler;
    assert flushed.queue == [b] && FirstInput([b]) == 1;
    GetRequest(flushed).held.value.frame
  }

  /**
   The error callback is what keeps the promises of a flush: the next request queued is given a number that was promised
   to a flushed one if and only if there is no callback and a request was queued.
   */
  lemma {:induction false} FlushKeepsPromisesIff(h: History, b: Request)
    requires Sound(h) && !b.input && |h.line| < FRAME_LIMIT
    ensures !Promised(h, AfterFlush(h, b)) <==> h.handler.hasErrorCb || h.handler.queue == []
    ensures Sound(Advance(h, FlushOp)) <==> h.handler.hasErrorCb || h.handler.queue == []
  {
    AfterFlushIs(h, b);
    if h.handler.hasErrorCb || h.handler.queue == [] {
      FlushSound(h);
    } else {
      assert Advance(h, FlushOp).given == h.given;
    }
  }

  lemma {:induction false} AfterFlushIs(h: History, b: Request)
    requires Sound(h) && !b.input && |h.line| < FRAME_LIMIT
    ensures AfterFlush(h, b) == if h.handler.hasErrorCb then |h.line| else |h.given|
  {
    ModNext(|h.given|);
  }

  /** A run that breaks one: without a callback, the number promised to `a` is given to `b`. */
  lemma {:induction false} PromiseBroken(a: Request, b: Request)
    requires !a.input && !b.input
    ensures QueueRequestList(NewHandler(false), [a]).1 == 0
    ensures Run(Start(false), [QueueOp([a]), FlushOp, QueueOp([b]), GetOp]).given == [Given(b, 0)]
  {
    var o1, o2 := [QueueOp([a])], [QueueOp([a]), FlushOp];
    var o3, o4 := [QueueOp([a]), FlushOp, QueueOp([b])], [QueueOp([a]), FlushOp, QueueOp([b]), GetOp];
    assert o1[..0] == [] && o2[..1] == o1 && o3[..2] == o2 && o4[..3] == o3;
    assert Run(Start(false), o1).handler.queue == [a];
    assert Run(Start(false), o2).handler == NewHandler(false) && Run(Start(false), o2).given == [];
    assert Run(Start(false), o3).handler == NewHandler(false).(queue := [b]);
    assert FirstInput([b]) == 1;
  }
}
