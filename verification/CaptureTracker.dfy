/**
 The in-flight capture tracker of the camera device client, as values.

 One `Pending` entry per frame number collects a shutter, one final metadata
 (after any number of partial ones) and a known number of buffers, in any order.
 Each `On...` function is one critical section of the device client: it gives the
 new tracker and the callbacks made, in order.
 */
module CaptureTracker {
  import opened Common

  /** Metadata: entries in order of insertion. Sorting, which only reorders, is not modelled. */
  datatype Tag = SensorTimestamp | FrameCount | RequestId | PartialQuirk | Other(code: nat)
  datatype MetaEntry = MetaEntry(tag: Tag, data: seq<int>)
  type Metadata = seq<MetaEntry>

  /** The data of the first entry with the tag; empty when there is none. */
  function Find(m: Metadata, tag: Tag): (data: seq<int>)
    ensures data != [] ==> MetaEntry(tag, data) in m
  {
    if m == [] then [] else if m[0].tag == tag then m[0].data else Find(m[1..], tag)
  }

  /** Replaces the data of the first entry with the tag, or adds one at the end. */
  function Update(m: Metadata, tag: Tag, data: seq<int>): (r: Metadata)
    requires data != []
    ensures Find(r, tag) == data
    ensures r != []
  {
    if m == [] then [MetaEntry(tag, data)]
    else if m[0].tag == tag then [MetaEntry(tag, data)] + m[1..]
    else [m[0]] + Update(m[1..], tag, data)
  }

  datatype BufferStatus = StatusOk | StatusError
  datatype Buffer = Buffer(stream: nat, handle: nat, status: BufferStatus)

  datatype Extras = Extras(requestId: int, burstId: int, frameNumber: nat, partialResultCount: nat, input: bool)

  datatype Pending = Pending(
    shutterTS: int,
    sensorTS: int,
    extras: Extras,
    status: int,
    metaPresent: bool,
    remaining: int,
    parkedMeta: Metadata,
    parked: seq<Buffer>,
    composed: Metadata)

  function FreshPending(buffers: nat, extras: Extras): Pending {
    Pending(0, 0, extras, 0, false, buffers, [], [], [])
  }

  const MSG_ERROR_DEVICE := 1
  const MSG_ERROR_REQUEST := 2
  const MSG_ERROR_RESULT := 3
  const MSG_ERROR_BUFFER := 4

  datatype ErrorCode = ErrorRequest | ErrorResult | ErrorBuffer

  /** What the client sees. */
  datatype Output =
    | ShutterCb(frame: nat, extras: Extras, timestamp: int)
    | PartialCb(frame: nat, extras: Extras, meta: Metadata)
    | ResultCb(frame: nat, extras: Extras, meta: Metadata)
    | ErrorCb(frame: nat, code: ErrorCode, known: Option<Extras>)
    | InputOut(frame: nat, handle: nat)
    | DeviceError(frame: nat)

  /** One call that hands output buffers, in order, to their streams. */
  datatype Handover = Handover(frame: nat, buffers: seq<Buffer>, timestamp: int)

  /** Set once, when the client is opened. */
  datatype Config = Config(hasShutterCb: bool, hasResultCb: bool, partialCount: nat, legacyPartials: bool) {
    predicate Partials() { partialCount > 1 }
  }

  /** One cursor for normal and one for reprocess requests. */
  datatype Cursors = Cursors(normal: nat, input: nat) {
    function At(isInput: bool): nat { if isInput then input else normal }
    function Set(isInput: bool, n: nat): Cursors {
      if isInput then this.(input := n) else this.(normal := n)
    }
  }

  datatype Tracker = Tracker(
    pending: map<nat, Pending>,
    failed: set<nat>,
    nextShutter: Cursors,
    nextResult: Cursors,
    flushing: bool)
  {
    function Put(frame: nat, e: Pending): Tracker { this.(pending := pending[frame := e]) }
  }

  const NEW_TRACKER := Tracker(map[], {}, Cursors(0, 0), Cursors(0, 0), false)

  /** One message of the HAL: metadata, output buffers and an input buffer, each possibly absent. */
  datatype HalResult = HalResult(
    frame: nat, meta: Option<Metadata>, partial: nat, outputs: seq<Buffer>, input: Option<nat>)

  datatype Event =
    | Mark(frame: nat, buffers: nat, extras: Extras)
    | Result(result: HalResult)
    | Shutter(frame: nat, timestamp: int)
    | Error(frame: nat, code: int)
    | Flushing(on: bool)

  /** What one critical section does: the new tracker, the client callbacks and the buffers handed over. */
  datatype After = After(tracker: Tracker, client: seq<Output>, handed: seq<Handover>)

  // ---------------------------------------------------------------- pieces

  /** A failed buffer is reported to the client as it is handed over, unless a flush is under way. */
  function BufferErrors(bufs: seq<Buffer>, frame: nat, extras: Extras, flushing: bool): (outs: seq<Output>)
    ensures forall o | o in outs :: o == ErrorCb(frame, ErrorBuffer, Some(extras))
  {
    if bufs == [] then []
    else
      BufferErrors(bufs[..|bufs| - 1], frame, extras, flushing)
      + if bufs[|bufs| - 1].status.StatusError? && !flushing
        then [ErrorCb(frame, ErrorBuffer, Some(extras))] else []
  }

  /** The places of the failed buffers. */
  function Failed(bufs: seq<Buffer>): set<nat> { set i: nat | i < |bufs| && bufs[i].status.StatusError? }

  /** One report for each failed buffer, none while a flush is under way. */
  lemma {:induction false} OneReportEach(bufs: seq<Buffer>, frame: nat, extras: Extras, flushing: bool)
    ensures |BufferErrors(bufs, frame, extras, flushing)| == if flushing then 0 else |Failed(bufs)|
  {
    if bufs != [] {
      var init, n := bufs[..|bufs| - 1], |bufs| - 1;
      OneReportEach(init, frame, extras, flushing);
      assert n !in Failed(init);
      assert Failed(bufs) == Failed(init) + if bufs[n].status.StatusError? then {n} else {};
    }
  }

  predicate HasError(bufs: seq<Buffer>) { exists b | b in bufs :: b.status.StatusError? }

  function StatusAfter(status: int, bufs: seq<Buffer>, flushing: bool): int {
    if HasError(bufs) && !flushing then MSG_ERROR_BUFFER else status
  }

  /** The metadata of a delivered result. */
  function Merged(cfg: Config, final: Metadata, collected: Metadata, frame: nat): Metadata {
    Update(final, FrameCount, [frame]) + if cfg.Partials() then collected else []
  }

  /** Delivery of a final result: an empty one, or one without a client, is dropped silently. */
  predicate Sends(cfg: Config, cursors: Cursors, final: Metadata, extras: Extras, frame: nat) {
    final != [] && cfg.hasResultCb && cursors.At(extras.input) <= frame
  }

  function CursorsAfterSend(cfg: Config, cursors: Cursors, final: Metadata, extras: Extras, frame: nat): Cursors {
    if Sends(cfg, cursors, final, extras, frame) then cursors.Set(extras.input, NextFrame(frame)) else cursors
  }

  function SentOutputs(cfg: Config, cursors: Cursors, final: Metadata, extras: Extras, collected: Metadata, frame: nat)
    : seq<Output>
  {
    if final == [] || !cfg.hasResultCb then []
    else if frame < cursors.At(extras.input) then [DeviceError(frame)]
    else
      var meta := Merged(cfg, final, collected, frame);
      if Find(meta, SensorTimestamp) == [] then [DeviceError(frame)] else [ResultCb(frame, extras, meta)]
  }

  predicate Complete(e: Pending) {
    e.remaining == 0 && (e.status != 0 || (e.metaPresent && e.shutterTS != 0))
  }

  /** Removal of an entry that is complete or in error; its parked buffers leave with timestamp 0. */
  function Retire(t: Tracker, frame: nat): After
    requires frame in t.pending
  {
    var e := t.pending[frame];
    if !Complete(e) then After(t, [], [])
    else
      var mismatch := if e.status == 0 && e.sensorTS != e.shutterTS then [DeviceError(frame)] else [];
      var status := StatusAfter(e.status, e.parked, t.flushing);
      var failed := if status != 0 && (!e.metaPresent || e.shutterTS == 0) then t.failed + {frame} else t.failed;
      After(t.(pending := t.pending - {frame}, failed := failed),
            mismatch + BufferErrors(e.parked, frame, e.extras, t.flushing),
            [Handover(frame, e.parked, 0)])
  }

  // ---------------------------------------------------------------- events

  function OnMark(t: Tracker, frame: nat, buffers: nat, extras: Extras): Tracker {
    t.Put(frame, FreshPending(buffers, extras))
  }

  predicate IsPartial(cfg: Config, r: HalResult) {
    cfg.Partials() && r.meta.Some? && r.partial < cfg.partialCount
  }

  predicate IsFinal(cfg: Config, r: HalResult) { r.meta.Some? && !IsPartial(cfg, r) }

  /** The metadata of a partial callback: what has come in so far, with frame count and request id. */
  function PartialMeta(cfg: Config, frame: nat, requestId: int, composed: Metadata): Metadata {
    var m := Update(Update(composed, FrameCount, [frame]), RequestId, [requestId]);
    if cfg.legacyPartials then Update(m, PartialQuirk, [1]) else m
  }

  function PartialOutput(cfg: Config, frame: nat, e: Pending): seq<Output> {
    if !cfg.hasResultCb then []
    else [PartialCb(frame, e.extras, PartialMeta(cfg, frame, e.extras.requestId, e.composed))]
  }

  function InputCount(r: HalResult): nat { if r.input.Some? then 1 else 0 }

  function InputOutputs(r: HalResult): seq<Output> {
    if r.input.Some? then [InputOut(r.frame, r.input.value)] else []
  }

  /** How far one HAL result got against its entry: the checks and the buffer count. */
  datatype Intake =
    | Rejected(entry: Pending, outs: seq<Output>)
    | Accepted(entry: Pending, outs: seq<Output>, collected: Metadata)

  function TakeIn(cfg: Config, e0: Pending, r: HalResult): Intake {
    var e1 := if r.partial != 0 then e0.(extras := e0.extras.(partialResultCount := r.partial)) else e0;
    if cfg.Partials() && r.meta.Some? && (r.partial > cfg.partialCount || r.partial < 1) then
      Rejected(e1, [DeviceError(r.frame)])
    else
      var e2 := if IsPartial(cfg, r) then e1.(composed := e1.composed + r.meta.value) else e1;
      var o2 := if IsPartial(cfg, r) then PartialOutput(cfg, r.frame, e2) else [];
      if IsFinal(cfg, r) && e2.metaPresent then Rejected(e2, o2 + [DeviceError(r.frame)])
      else
        var collect := IsFinal(cfg, r) && cfg.Partials();
        var e3 := if IsFinal(cfg, r)
                  then e2.(metaPresent := true, composed := if collect then [] else e2.composed) else e2;
        var e4 := e3.(remaining := e3.remaining - |r.outputs| - InputCount(r));
        if e4.remaining < 0 then Rejected(e4, o2 + [DeviceError(r.frame)])
        else
          var ts := if r.meta.Some? then Find(r.meta.value, SensorTimestamp) else [];
          Accepted(if |ts| == 1 then e4.(sensorTS := ts[0]) else e4, o2, if collect then e2.composed else [])
  }

  /** The entry after an accepted result: before the shutter everything it carries is parked. */
  function DispatchedEntry(cfg: Config, e: Pending, collected: Metadata, r: HalResult, flushing: bool): Pending {
    if e.shutterTS == 0 then
      var e1 := e.(parked := e.parked + r.outputs);
      if IsFinal(cfg, r) then e1.(parkedMeta := r.meta.value, composed := collected) else e1
    else if 0 < e.shutterTS then e.(status := StatusAfter(e.status, r.outputs, flushing))
    else e
  }

  /** The tracker and the effects of an accepted result, before the entry is looked at for removal. */
  function Dispatch(cfg: Config, t: Tracker, e: Pending, collected: Metadata, r: HalResult): (a: After)
    ensures r.frame in a.tracker.pending
  {
    var send := IsFinal(cfg, r) && e.shutterTS != 0;
    var cursors := if send then CursorsAfterSend(cfg, t.nextResult, r.meta.value, e.extras, r.frame) else t.nextResult;
    var sent := if send then SentOutputs(cfg, t.nextResult, r.meta.value, e.extras, collected, r.frame) else [];
    After(
      t.Put(r.frame, DispatchedEntry(cfg, e, collected, r, t.flushing)).(nextResult := cursors),
      sent + if 0 < e.shutterTS then BufferErrors(r.outputs, r.frame, e.extras, t.flushing) else [],
      if 0 < e.shutterTS then [Handover(r.frame, r.outputs, e.shutterTS)] else [])
  }

  predicate WellFormed(cfg: Config, r: HalResult) {
    && (r.meta.Some? || r.outputs != [] || r.input.Some?)
    && (!cfg.Partials() && r.meta.Some? ==> r.partial == 1)
  }

  /** The tracker counts the buffers of this result. */
  predicate Counted(cfg: Config, t: Tracker, r: HalResult) {
    && WellFormed(cfg, r)
    && r.frame in t.pending
    && TakeIn(cfg, t.pending[r.frame], r).Accepted?
  }

  /** An accepted result is dispatched, its entry is looked at for removal, and its input buffer goes back. */
  function Accept(cfg: Config, t: Tracker, intake: Intake, r: HalResult): After
    requires intake.Accepted?
  {
    var d := Dispatch(cfg, t, intake.entry, intake.collected, r);
    var left := Retire(d.tracker, r.frame);
    After(left.tracker, intake.outs + d.client + left.client + InputOutputs(r), d.handed + left.handed)
  }

  function OnCounted(cfg: Config, t: Tracker, r: HalResult): After
    requires Counted(cfg, t, r)
  {
    Accept(cfg, t, TakeIn(cfg, t.pending[r.frame], r), r)
  }

  function OnResult(cfg: Config, t: Tracker, r: HalResult): After {
    if !WellFormed(cfg, r) then After(t, [DeviceError(r.frame)], [])
    else if r.frame !in t.pending then
      if r.frame in t.failed then After(t.(failed := t.failed - {r.frame}), [], [])
      else After(t, [DeviceError(r.frame)], [])
    else if Counted(cfg, t, r) then OnCounted(cfg, t, r)
    else
      var intake := TakeIn(cfg, t.pending[r.frame], r);
      After(t.Put(r.frame, intake.entry), intake.outs, [])
  }

  /** An accepted shutter, before the entry is looked at for removal. */
  function Expose(cfg: Config, t: Tracker, frame: nat, ts: int): (a: After)
    requires frame in t.pending
    ensures frame in a.tracker.pending
  {
    var e := t.pending[frame];
    var e1 := e.(shutterTS := ts, parked := [], status := StatusAfter(e.status, e.parked, t.flushing));
    var cursors := CursorsAfterSend(cfg, t.nextResult, e.parkedMeta, e.extras, frame);
    After(
      t.Put(frame, e1).(nextShutter := t.nextShutter.Set(e.extras.input, NextFrame(frame)), nextResult := cursors),
      SentOutputs(cfg, t.nextResult, e.parkedMeta, e.extras, e.composed, frame)
      + BufferErrors(e.parked, frame, e.extras, t.flushing),
      [Handover(frame, e.parked, ts)])
  }

  predicate InOrder(t: Tracker, frame: nat) {
    frame in t.pending && t.nextShutter.At(t.pending[frame].extras.input) <= frame
  }

  function OnShutter(cfg: Config, t: Tracker, frame: nat, ts: int): After {
    if frame !in t.pending then After(t, [DeviceError(frame)], [])
    else
      var called := if cfg.hasShutterCb then [ShutterCb(frame, t.pending[frame].extras, ts)] else [];
      if !InOrder(t, frame) then After(t, called + [DeviceError(frame)], [])
      else
        var d := Expose(cfg, t, frame, ts);
        var left := Retire(d.tracker, frame);
        After(left.tracker, called + d.client + left.client, d.handed + left.handed)
  }

  function ErrorKind(code: int): ErrorCode {
    if code == MSG_ERROR_REQUEST then ErrorRequest else if code == MSG_ERROR_RESULT then ErrorResult else ErrorBuffer
  }

  /** Records an error on the entry; removal waits for the next message of the frame. */
  function OnError(t: Tracker, frame: nat, code: int): After {
    if code != MSG_ERROR_REQUEST && code != MSG_ERROR_RESULT && code != MSG_ERROR_BUFFER
    then After(t, [DeviceError(frame)], [])
    else
      var known := frame in t.pending;
      After(if known then t.Put(frame, t.pending[frame].(status := code)) else t,
            if t.flushing then []
            else [ErrorCb(frame, ErrorKind(code), if known then Some(t.pending[frame].extras) else None)],
            [])
  }

  function Step(cfg: Config, t: Tracker, ev: Event): After {
    match ev
    case Mark(frame, buffers, extras) => After(OnMark(t, frame, buffers, extras), [], [])
    case Result(r) => OnResult(cfg, t, r)
    case Shutter(frame, ts) => OnShutter(cfg, t, frame, ts)
    case Error(frame, code) => OnError(t, frame, code)
    case Flushing(on) => After(t.(flushing := on), [], [])
  }
}
