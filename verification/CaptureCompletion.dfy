/**
 One frame from its mark to its removal, amid any traffic for other frames: whatever the order in which the
 shutter, the metadata and the buffers arrive, the frame completes exactly with the last of them.
 */
module CaptureCompletion {
  import opened Common
  import opened CaptureTracker
  import opened CaptureRuns
  import opened CaptureOrder

  /** What has been sent so far for the frame. */
  datatype Progress = Progress(
    exposed: bool, final: Option<Metadata>, partials: Metadata, outputs: seq<Buffer>, handles: seq<nat>,
    shown: seq<Metadata>)

  const NOTHING := Progress(false, None, [], [], [], [])

  function InputHandle(r: HalResult): seq<nat> { if r.input.Some? then [r.input.value] else [] }

  function Observe(cfg: Config, f: nat, p: Progress, ev: Event): Progress {
    if FrameOf(ev) != Some(f) then p
    else
      match ev
      case Shutter(_, _) => p.(exposed := true)
      case Result(r) =>
        p.(final := if IsFinal(cfg, r) then r.meta else p.final,
           partials := if IsPartial(cfg, r) then p.partials + r.meta.value else p.partials,
           outputs := p.outputs + r.outputs,
           handles := p.handles + InputHandle(r),
           shown := if IsPartial(cfg, r) then p.shown + [p.partials + r.meta.value] else p.shown)
      case _ => p
  }

  function Observed(cfg: Config, f: nat, evs: seq<Event>): Progress {
    if evs == [] then NOTHING else Observe(cfg, f, Observed(cfg, f, evs[..|evs| - 1]), evs[|evs| - 1])
  }

  predicate Done(p: Progress, n: nat) { p.exposed && p.final.Some? && |p.outputs| + |p.handles| == n }

  predicate AllOk(bufs: seq<Buffer>) { forall b | b in bufs :: b.status.StatusOk? }

  /** A result the HAL may send: partials before the one final metadata, which carries the shutter time. */
  predicate GoodResult(cfg: Config, n: nat, ts: int, p: Progress, r: HalResult) {
    && WellFormed(cfg, r)
    && (cfg.Partials() && r.meta.Some? ==> 1 <= r.partial <= cfg.partialCount)
    && (r.meta.Some? ==> p.final.None?)
    && (IsFinal(cfg, r) ==> Find(r.meta.value, SensorTimestamp) == [ts])
    && AllOk(r.outputs)
    && |p.outputs| + |r.outputs| + |p.handles| + InputCount(r) <= n
  }

  /** The events for the frame are good, its shutter is in order and no later result of its kind overtakes it. */
  predicate Good(cfg: Config, t: Tracker, f: nat, n: nat, x: Extras, ts: int, p: Progress, ev: Event) {
    && Bounded(ev)
    && (FrameOf(ev) == Some(f) ==>
          match ev
          case Shutter(_, at) => at == ts && !p.exposed && t.nextShutter.At(x.input) <= f
          case Result(r) => GoodResult(cfg, n, ts, p, r)
                            && (IsFinal(cfg, r) && p.exposed ==> t.nextResult.At(x.input) <= f)
          case _ => false)
  }

  predicate GoodRun(cfg: Config, h: History, f: nat, n: nat, x: Extras, ts: int, evs: seq<Event>) {
    evs == [] ||
    var init := evs[..|evs| - 1];
    && GoodRun(cfg, h, f, n, x, ts, init)
    && Good(cfg, RunFrom(cfg, h, init).tracker, f, n, x, ts, Observed(cfg, f, init), evs[|evs| - 1])
  }

  // ---------------------------------------------------------------- what the outside sees of the frame

  /** What the client is told of a frame: its results, shutter times, partial metadata and input buffers, in order. */
  datatype Seen = Seen(results: seq<Metadata>, shutters: seq<int>, partials: seq<Metadata>, inputs: seq<nat>) {
    function Then(s: Seen): Seen {
      Seen(results + s.results, shutters + s.shutters, partials + s.partials, inputs + s.inputs)
    }
  }

  const UNSEEN := Seen([], [], [], [])

  function SeenIn(o: Output, f: nat): Seen {
    if o.frame != f then UNSEEN
    else
      match o
      case ResultCb(_, _, meta) => UNSEEN.(results := [meta])
      case ShutterCb(_, _, timestamp) => UNSEEN.(shutters := [timestamp])
      case PartialCb(_, _, meta) => UNSEEN.(partials := [meta])
      case InputOut(_, handle) => UNSEEN.(inputs := [handle])
      case _ => UNSEEN
  }

  function SeenOf(outs: seq<Output>, f: nat): Seen {
    if outs == [] then UNSEEN else SeenIn(outs[0], f).Then(SeenOf(outs[1..], f))
  }

  function Stamp(bufs: seq<Buffer>, ts: int): seq<(Buffer, int)> {
    seq(|bufs|, i requires 0 <= i < |bufs| => (bufs[i], ts))
  }

  /** Buffers handed over for the frame, each with its timestamp, in order. */
  function Stamped(hs: seq<Handover>, f: nat): seq<(Buffer, int)> {
    if hs == [] then []
    else (if hs[0].frame == f then Stamp(hs[0].buffers, hs[0].timestamp) else []) + Stamped(hs[1..], f)
  }

  lemma {:induction false} ThenThen(a: Seen, b: Seen, c: Seen)
    ensures a.Then(b).Then(c) == a.Then(b.Then(c)) && a.Then(UNSEEN) == a == UNSEEN.Then(a)
  {
  }

  lemma {:induction false} SeenConcat(a: seq<Output>, b: seq<Output>, f: nat)
    ensures SeenOf(a + b, f) == SeenOf(a, f).Then(SeenOf(b, f))
  {
    if a == [] {
      assert a + b == b;
    } else {
      assert (a + b)[1..] == a[1..] + b;
      SeenConcat(a[1..], b, f);
      ThenThen(SeenIn(a[0], f), SeenOf(a[1..], f), SeenOf(b, f));
    }
  }

  lemma {:induction false} SeenOne(o: Output, f: nat)
    ensures SeenOf([o], f) == SeenIn(o, f)
  {
    ThenThen(SeenIn(o, f), UNSEEN, UNSEEN);
  }

  lemma {:induction false} StampedConcat(a: seq<Handover>, b: seq<Handover>, f: nat)
    ensures Stamped(a + b, f) == Stamped(a, f) + Stamped(b, f)
  {
    if a == [] {
      assert a + b == b;
    } else {
      assert (a + b)[1..] == a[1..] + b;
      StampedConcat(a[1..], b, f);
    }
  }

  lemma {:induction false} NothingSeen(outs: seq<Output>, f: nat)
    requires forall o | o in outs :: SeenIn(o, f) == UNSEEN
    ensures SeenOf(outs, f) == UNSEEN
  {
    if outs != [] { NothingSeen(outs[1..], f); }
  }

  lemma {:induction false} NoStamps(hs: seq<Handover>, f: nat)
    requires forall h | h in hs :: h.frame != f || h.buffers == []
    ensures Stamped(hs, f) == []
  {
    if hs != [] { NoStamps(hs[1..], f); }
  }

  function StampsDue(p: Progress, ts: int): seq<(Buffer, int)> { if p.exposed then Stamp(p.outputs, ts) else [] }

  function ResultsDue(cfg: Config, p: Progress, f: nat): seq<Metadata> {
    if p.exposed && p.final.Some? then [Merged(cfg, p.final.value, p.partials, f)] else []
  }

  function PartialsDue(cfg: Config, p: Progress, f: nat, x: Extras): seq<Metadata> {
    seq(|p.shown|, i requires 0 <= i < |p.shown| => PartialMeta(cfg, f, x.requestId, p.shown[i]))
  }

  /** What the client should have been told. */
  function DueSeen(cfg: Config, p: Progress, f: nat, x: Extras, ts: int): Seen {
    Seen(ResultsDue(cfg, p, f), if p.exposed && cfg.hasShutterCb then [ts] else [],
         PartialsDue(cfg, p, f, x), p.handles)
  }

  /** The extras a frame was marked with, but for the count of partial results, which follows the results. */
  predicate SameExtras(a: Extras, b: Extras) { a.(partialResultCount := 0) == b.(partialResultCount := 0) }

  /** The callbacks for the frame carry its extras, and none reports an error. */
  predicate Proper(outs: seq<Output>, f: nat, x: Extras) {
    forall o | o in outs && o.frame == f ::
      match o
      case ShutterCb(_, extras, _) => SameExtras(extras, x)
      case PartialCb(_, extras, _) => SameExtras(extras, x)
      case ResultCb(_, extras, _) => SameExtras(extras, x)
      case ErrorCb(_, _, _) => false
      case InputOut(_, _) => true
      case DeviceError(_) => false
  }

  // ---------------------------------------------------------------- what it is told

  predicate Has(m: Metadata, tag: Tag) { exists e | e in m :: e.tag == tag }

  /**
   A delivered result: the final metadata and every partial one, the frame number as the frame count, and nothing else;
   a tag is found in the final metadata, or else in the partial ones.
   */
  ghost predicate RightResult(final: Metadata, partials: Metadata, f: nat, meta: Metadata) {
    && (forall e | e in partials :: e in meta)
    && (forall e | e in final && e.tag != FrameCount :: e in meta)
    && (forall e | e in meta :: e in final || e in partials || e == MetaEntry(FrameCount, [f]))
    && Find(meta, FrameCount) == [f]
    && forall tag | tag != FrameCount ::
         Find(meta, tag) == if Has(final, tag) then Find(final, tag) else Find(partials, tag)
  }

  /** A partial callback: all that has come in so far, the frame number, the id of the request, and the old mark. */
  ghost predicate RightPartial(cfg: Config, f: nat, requestId: int, shown: Metadata, meta: Metadata) {
    && Find(meta, FrameCount) == [f] && Find(meta, RequestId) == [requestId]
    && (cfg.legacyPartials ==> Find(meta, PartialQuirk) == [1])
    && forall tag | tag != FrameCount && tag != RequestId && (cfg.legacyPartials ==> tag != PartialQuirk) ::
         Find(meta, tag) == Find(shown, tag)
  }

  /** All the client is told of a frame: nothing twice, nothing missing, and the right contents. */
  ghost predicate RightlyTold(cfg: Config, told: Seen, p: Progress, f: nat, x: Extras, ts: int) {
    && |told.results| == (if p.exposed && p.final.Some? then 1 else 0)
    && (told.results != [] ==> RightResult(p.final.value, p.partials, f, told.results[0]))
    && told.shutters == (if p.exposed && cfg.hasShutterCb then [ts] else [])
    && |told.partials| == |p.shown|
    && (forall i | 0 <= i < |p.shown| :: RightPartial(cfg, f, x.requestId, p.shown[i], told.partials[i]))
    && told.inputs == p.handles
  }

  lemma {:induction false} UpdateHas(m: Metadata, tag: Tag, data: seq<int>)
    requires data != []
    ensures forall e | e in m && e.tag != tag :: e in Update(m, tag, data)
    ensures forall e | e in Update(m, tag, data) :: e in m || e == MetaEntry(tag, data)
  {
    if m != [] && m[0].tag != tag {
      UpdateHas(m[1..], tag, data);
      assert m == [m[0]] + m[1..];
    }
  }

  lemma {:induction false} FindAppend(a: Metadata, b: Metadata, tag: Tag)
    ensures Find(a + b, tag) == if Has(a, tag) then Find(a, tag) else Find(b, tag)
  {
    if a == [] {
      assert a + b == b;
    } else {
      assert (a + b)[1..] == a[1..] + b && a == [a[0]] + a[1..];
      FindAppend(a[1..], b, tag);
    }
  }

  lemma {:induction false} HasUpdate(m: Metadata, tag: Tag, data: seq<int>, other: Tag)
    requires data != []
    ensures Has(Update(m, tag, data), other) <==> other == tag || Has(m, other)
  {
    if m != [] && m[0].tag != tag {
      HasUpdate(m[1..], tag, data, other);
      assert m == [m[0]] + m[1..] && Update(m, tag, data) == [m[0]] + Update(m[1..], tag, data);
    }
  }

  /** What is delivered is right. */
  lemma {:induction false} MergedRight(cfg: Config, final: Metadata, partials: Metadata, f: nat)
    requires !cfg.Partials() ==> partials == []
    ensures RightResult(final, partials, f, Merged(cfg, final, partials, f))
  {
    var first := Update(final, FrameCount, [f]);
    assert Merged(cfg, final, partials, f) == first + partials;
    UpdateHas(final, FrameCount, [f]);
    forall tag
      ensures Find(first + partials, tag)
           == if tag == FrameCount then [f] else if Has(final, tag) then Find(final, tag) else Find(partials, tag)
    {
      FindAppend(first, partials, tag);
      HasUpdate(final, FrameCount, [f], tag);
      UpdateKeeps(final, FrameCount, [f], tag);
    }
  }

  lemma {:induction false} PartialRight(cfg: Config, f: nat, requestId: int, shown: Metadata)
    ensures RightPartial(cfg, f, requestId, shown, PartialMeta(cfg, f, requestId, shown))
  {
    var m1 := Update(shown, FrameCount, [f]);
    var m2 := Update(m1, RequestId, [requestId]);
    forall tag
      ensures Find(m2, tag) == if tag == RequestId then [requestId] else if tag
           == FrameCount then [f] else Find(shown, tag)
      ensures Find(Update(m2, PartialQuirk, [1]), tag) == if tag == PartialQuirk then [1] else Find(m2, tag)
    {
      UpdateKeeps(shown, FrameCount, [f], tag);
      UpdateKeeps(m1, RequestId, [requestId], tag);
      UpdateKeeps(m2, PartialQuirk, [1], tag);
    }
  }

  lemma {:induction false} NoPartials(cfg: Config, f: nat, evs: seq<Event>)
    requires !cfg.Partials()
    ensures Observed(cfg, f, evs).partials == []
  {
    if evs != [] { NoPartials(cfg, f, evs[..|evs| - 1]); }
  }

  lemma {:induction false} DueIsRight(cfg: Config, p: Progress, f: nat, x: Extras, ts: int)
    requires !cfg.Partials() ==> p.partials == []
    ensures RightlyTold(cfg, DueSeen(cfg, p, f, x, ts), p, f, x, ts)
  {
    if p.final.Some? { MergedRight(cfg, p.final.value, p.partials, f); }
    forall i | 0 <= i < |p.shown|
      ensures RightPartial(cfg, f, x.requestId, p.shown[i], DueSeen(cfg, p, f, x, ts).partials[i])
    {
      PartialRight(cfg, f, x.requestId, p.shown[i]);
    }
  }

  // ---------------------------------------------------------------- the entry follows the progress

  predicate Tracks(cfg: Config, e: Pending, n: nat, x: Extras, ts: int, p: Progress) {
    && e.status == 0
    && SameExtras(e.extras, x)
    && e.remaining == n - |p.outputs| - |p.handles|
    && e.metaPresent == p.final.Some?
    && e.shutterTS == (if p.exposed then ts else 0)
    && e.parked == (if p.exposed then [] else p.outputs)
    && (p.final.Some? ==> e.sensorTS == ts)
    && (p.final.None? ==> e.parkedMeta == [] && e.composed == p.partials)
    && (p.final.Some? && !p.exposed ==> e.parkedMeta == p.final.value && e.composed == p.partials)
  }

  predicate GoodProgress(cfg: Config, n: nat, ts: int, p: Progress) {
    && AllOk(p.outputs)
    && |p.outputs| + |p.handles| <= n
    && (!cfg.Partials() ==> p.partials == [])
    && (p.final.Some? ==> Find(p.final.value, SensorTimestamp) == [ts])
  }

  /** The frame is in the map with the right entry until it is done, and then it is out. */
  predicate Follows(cfg: Config, t: Tracker, f: nat, n: nat, x: Extras, ts: int, p: Progress) {
    && GoodProgress(cfg, n, ts, p)
    && (f in t.pending <==> !Done(p, n))
    && (f in t.pending ==> Tracks(cfg, t.pending[f], n, x, ts, p))
  }

  lemma {:induction false} OkMeansNoError(bufs: seq<Buffer>, frame: nat, extras: Extras, flushing: bool)
    requires AllOk(bufs)
    ensures !HasError(bufs)
    ensures BufferErrors(bufs, frame, extras, flushing) == []
  {
    if bufs != [] {
      assert bufs[|bufs| - 1] in bufs;
      OkMeansNoError(bufs[..|bufs| - 1], frame, extras, flushing);
    }
  }

  /** An update of one tag is found, and found at no other tag. */
  lemma {:induction false} UpdateKeeps(m: Metadata, tag: Tag, data: seq<int>, other: Tag)
    requires data != []
    ensures Find(Update(m, tag, data), other) == if other == tag then data else Find(m, other)
  {
    if m != [] && m[0].tag != tag {
      UpdateKeeps(m[1..], tag, data, other);
    }
  }

  lemma {:induction false} FindPrefix(m: Metadata, rest: Metadata, tag: Tag)
    requires Find(m, tag) != []
    ensures Find(m + rest, tag) == Find(m, tag)
  {
    if m[0].tag != tag {
      assert (m + rest)[1..] == m[1..] + rest;
      FindPrefix(m[1..], rest, tag);
    }
  }

  /** An in-order final result with a timestamp is delivered, merged with the partials. */
  lemma {:induction false} SendDelivers(cfg: Config, next: Cursors, final: Metadata, extras: Extras,
                                        collected: Metadata, f: nat)
    requires cfg.hasResultCb && next.At(extras.input) <= f && Find(final, SensorTimestamp) != []
    ensures SentOutputs(cfg, next, final, extras, collected, f)
         == [ResultCb(f, extras, Merged(cfg, final, collected, f))]
  {
    UpdateKeeps(final, FrameCount, [f], SensorTimestamp);
    FindPrefix(Update(final, FrameCount, [f]), if cfg.Partials() then collected else [], SensorTimestamp);
  }

  /** A frame in step with its progress is retired exactly when it is done, quietly. */
  lemma {:induction false} RetireFollows(cfg: Config, t: Tracker, f: nat, n: nat, x: Extras, ts: int, p: Progress)
    requires 0 < ts && f in t.pending && GoodProgress(cfg, n, ts, p) && Tracks(cfg, t.pending[f], n, x, ts, p)
    ensures var a := Retire(t, f);
            && Follows(cfg, a.tracker, f, n, x, ts, p)
            && a.client == []
            && Stamped(a.handed, f) == []
  {
  }

  lemma {:induction false} IntakeFollows(cfg: Config, e: Pending, f: nat, n: nat, x: Extras, ts: int, p: Progress,
                                         r: HalResult)
    requires GoodProgress(cfg, n, ts, p) && Tracks(cfg, e, n, x, ts, p) && GoodResult(cfg, n, ts, p, r)
    requires r.frame == f && cfg.hasResultCb
    ensures var intake := TakeIn(cfg, e, r);
            && intake.Accepted?
            && Proper(intake.outs, f, x)
            && SeenOf(intake.outs, f) == UNSEEN.(partials := if !IsPartial(cfg, r) then [] else
                                                   [PartialMeta(cfg, f, x.requestId, p.partials + r.meta.value)])
            && intake.entry.status == 0
            && SameExtras(intake.entry.extras, x)
            && intake.entry.remaining == n - |p.outputs| - |r.outputs| - |p.handles| - InputCount(r)
            && intake.entry.metaPresent == (p.final.Some? || IsFinal(cfg, r))
            && intake.entry.shutterTS == e.shutterTS
            && intake.entry.parked == e.parked
            && intake.entry.parkedMeta == e.parkedMeta
            && (intake.entry.metaPresent ==> intake.entry.sensorTS == ts)
            && (IsFinal(cfg, r) ==> intake.collected == p.partials)
            && (!IsFinal(cfg, r) && p.final.None? ==> intake.entry.composed == Observe(cfg, f, p, Result(r)).partials)
            && (!IsFinal(cfg, r) && p.final.Some? ==> intake.entry.composed == e.composed)
  {
    var intake := TakeIn(cfg, e, r);
    if intake.outs != [] { SeenOne(intake.outs[0], f); }
  }

  /** What a good result adds to what is due. */
  function NewlyDue(cfg: Config, p: Progress, f: nat, x: Extras, r: HalResult): Seen {
    Seen(if IsFinal(cfg, r) && p.exposed then [Merged(cfg, r.meta.value, p.partials, f)] else [], [],
         if IsPartial(cfg, r) then [PartialMeta(cfg, f, x.requestId, p.partials + r.meta.value)] else [],
         InputHandle(r))
  }

  /** An accepted result: the stage before its entry is looked at for removal. */
  function Dispatched(cfg: Config, t: Tracker, r: HalResult): After
    requires r.frame in t.pending && TakeIn(cfg, t.pending[r.frame], r).Accepted?
  {
    var intake := TakeIn(cfg, t.pending[r.frame], r);
    Dispatch(cfg, t, intake.entry, intake.collected, r)
  }

  /** A good result parks or delivers, and keeps the entry in step. */
  lemma {:induction false} DispatchFollows(cfg: Config, t: Tracker, f: nat, n: nat, x: Extras, ts: int, p: Progress,
                                           r: HalResult)
    requires 0 < ts && cfg.hasResultCb && f in t.pending && r.frame == f
    requires GoodProgress(cfg, n, ts, p) && Tracks(cfg, t.pending[f], n, x, ts, p) && GoodResult(cfg, n, ts, p, r)
    ensures TakeIn(cfg, t.pending[f], r).Accepted?
    ensures var p' := Observe(cfg, f, p, Result(r));
            && GoodProgress(cfg, n, ts, p')
            && Tracks(cfg, Dispatched(cfg, t, r).tracker.pending[f], n, x, ts, p')
            && Stamped(Dispatched(cfg, t, r).handed, f) == (if p.exposed then Stamp(r.outputs, ts) else [])
  {
    IntakeFollows(cfg, t.pending[f], f, n, x, ts, p, r);
    OkMeansNoError(r.outputs, f, x, t.flushing);
  }

  /** What the delivery of an accepted result depends on. */
  predicate SendsAs(intake: Intake, final: bool, ts: int, p: Progress, extras: Extras) {
    && intake.Accepted? && intake.entry.extras == extras && intake.entry.shutterTS == (if p.exposed then ts else 0)
    && (final ==> intake.collected == p.partials)
  }

  lemma {:induction false} IntakeSends(cfg: Config, t: Tracker, f: nat, n: nat, x: Extras, ts: int, p: Progress,
                                       r: HalResult)
    requires cfg.hasResultCb && f in t.pending && r.frame == f
    requires GoodProgress(cfg, n, ts, p) && Tracks(cfg, t.pending[f], n, x, ts, p) && GoodResult(cfg, n, ts, p, r)
    ensures var intake := TakeIn(cfg, t.pending[f], r);
            SendsAs(intake, IsFinal(cfg, r), ts, p, intake.entry.extras) && SameExtras(intake.entry.extras, x)
  {
    IntakeFollows(cfg, t.pending[f], f, n, x, ts, p, r);
  }

  lemma {:induction false} DispatchSends(cfg: Config, t: Tracker, f: nat, ts: int, p: Progress, r: HalResult,
                                         extras: Extras)
    requires 0 < ts && cfg.hasResultCb && f in t.pending && r.frame == f
    requires SendsAs(TakeIn(cfg, t.pending[f], r), IsFinal(cfg, r), ts, p, extras)
    requires AllOk(r.outputs) && (IsFinal(cfg, r) ==> Find(r.meta.value, SensorTimestamp) == [ts])
    requires IsFinal(cfg, r) && p.exposed ==> t.nextResult.At(extras.input) <= f
    ensures Dispatched(cfg, t, r).client
         == if IsFinal(cfg, r) && p.exposed
            then [ResultCb(f, extras, Merged(cfg, r.meta.value, p.partials, f))] else []
  {
    OkMeansNoError(r.outputs, f, extras, t.flushing);
    if IsFinal(cfg, r) && p.exposed { SendDelivers(cfg, t.nextResult, r.meta.value, extras, p.partials, f); }
  }

  /** And it delivers what is due, and nothing else. */
  lemma {:induction false} DispatchTells(cfg: Config, t: Tracker, f: nat, n: nat, x: Extras, ts: int, p: Progress,
                                         r: HalResult)
    requires 0 < ts && cfg.hasResultCb && f in t.pending && r.frame == f
    requires GoodProgress(cfg, n, ts, p) && Tracks(cfg, t.pending[f], n, x, ts, p) && GoodResult(cfg, n, ts, p, r)
    requires IsFinal(cfg, r) && p.exposed ==> t.nextResult.At(x.input) <= f
    requires TakeIn(cfg, t.pending[f], r).Accepted?
    ensures Proper(Dispatched(cfg, t, r).client, f, x)
    ensures SeenOf(Dispatched(cfg, t, r).client, f) == UNSEEN.(results := NewlyDue(cfg, p, f, x, r).results)
  {
    var extras := TakeIn(cfg, t.pending[f], r).entry.extras;
    IntakeSends(cfg, t, f, n, x, ts, p, r);
    DispatchSends(cfg, t, f, ts, p, r, extras);
    if IsFinal(cfg, r) && p.exposed { SeenOne(ResultCb(f, extras, Merged(cfg, r.meta.value, p.partials, f)), f); }
  }

  /** The callbacks of one event are exactly those that became due. */
  predicate Tells(cfg: Config, outs: seq<Output>, f: nat, x: Extras, ts: int, p: Progress, p': Progress) {
    DueSeen(cfg, p', f, x, ts) == DueSeen(cfg, p, f, x, ts).Then(SeenOf(outs, f)) && Proper(outs, f, x)
  }

  /** What one event must do for the frame: keep it in step, and make exactly the effects that became due. */
  predicate Serves(cfg: Config, t: Tracker, a: After, f: nat, n: nat, x: Extras, ts: int, p: Progress, p': Progress) {
    && Follows(cfg, a.tracker, f, n, x, ts, p')
    && Tells(cfg, a.client, f, x, ts, p, p')
    && StampsDue(p', ts) == StampsDue(p, ts) + Stamped(a.handed, f)
  }

  lemma {:induction false} StampSplit(a: seq<Buffer>, b: seq<Buffer>, ts: int)
    ensures Stamp(a + b, ts) == Stamp(a, ts) + Stamp(b, ts)
  {
  }

  lemma {:induction false} ResultServes(cfg: Config, t: Tracker, f: nat, n: nat, x: Extras, ts: int, p: Progress,
                                        r: HalResult)
    requires 0 < ts && cfg.hasResultCb && r.frame == f && !Done(p, n)
    requires Follows(cfg, t, f, n, x, ts, p) && Good(cfg, t, f, n, x, ts, p, Result(r))
    ensures Serves(cfg, t, OnResult(cfg, t, r), f, n, x, ts, p, Observe(cfg, f, p, Result(r)))
  {
    DispatchFollows(cfg, t, f, n, x, ts, p, r);
    DispatchTells(cfg, t, f, n, x, ts, p, r);
    IntakeFollows(cfg, t.pending[f], f, n, x, ts, p, r);
    var outs, d := TakeIn(cfg, t.pending[f], r).outs, Dispatched(cfg, t, r);
    var left := Retire(d.tracker, f);
    RetireFollows(cfg, d.tracker, f, n, x, ts, Observe(cfg, f, p, Result(r)));
    ResultTells(cfg, outs, d.client, f, x, ts, p, r, NewlyDue(cfg, p, f, x, r));
    ResultStamps(cfg, d.handed, left.handed, f, ts, p, r);
    assert OnResult(cfg, t, r) == After(left.tracker, outs + d.client + [] + InputOutputs(r), d.handed + left.handed);
  }

  lemma {:induction false} PartialsGrow(cfg: Config, p: Progress, p': Progress, f: nat, x: Extras, more: seq<Metadata>)
    requires p'.shown == p.shown + more && |more| <= 1
    ensures PartialsDue(cfg, p', f, x)
         == PartialsDue(cfg, p, f, x) + if more == [] then [] else [PartialMeta(cfg, f, x.requestId, more[0])]
  {
  }

  lemma {:induction false} DueGrows(cfg: Config, p: Progress, f: nat, x: Extras, ts: int, r: HalResult)
    requires r.frame == f && (r.meta.Some? ==> p.final.None?)
    ensures DueSeen(cfg, Observe(cfg, f, p, Result(r)), f, x, ts)
         == DueSeen(cfg, p, f, x, ts).Then(NewlyDue(cfg, p, f, x, r))
  {
    var p' := Observe(cfg, f, p, Result(r));
    PartialsGrow(cfg, p, p', f, x, if IsPartial(cfg, r) then [p.partials + r.meta.value] else []);
    assert ResultsDue(cfg, p', f) == ResultsDue(cfg, p, f) + NewlyDue(cfg, p, f, x, r).results;
  }

  lemma {:induction false} ProperConcat(a: seq<Output>, b: seq<Output>, f: nat, x: Extras)
    requires Proper(a, f, x) && Proper(b, f, x)
    ensures Proper(a + b, f, x)
  {
  }

  lemma {:induction false} ResultSeen(a: seq<Output>, b: seq<Output>, c: seq<Output>, r: HalResult, f: nat)
    requires c == [] && r.frame == f
    ensures SeenOf(a + b + c + InputOutputs(r), f)
         == SeenOf(a, f).Then(SeenOf(b, f)).Then(UNSEEN.(inputs := InputHandle(r)))
  {
    assert a + b + c == a + b;
    SeenConcat(a, b, f);
    SeenConcat(a + b, InputOutputs(r), f);
    if r.input.Some? { SeenOne(InputOut(r.frame, r.input.value), f); }
  }

  lemma {:induction false} Summed(partials: seq<Metadata>, results: seq<Metadata>, inputs: seq<nat>)
    ensures UNSEEN.(partials := partials).Then(UNSEEN.(results := results)).Then(UNSEEN.(inputs := inputs))
         == Seen(results, [], partials, inputs)
  {
  }

  lemma {:induction false} ResultProper(outs: seq<Output>, sent: seq<Output>, f: nat, x: Extras, r: HalResult)
    requires Proper(outs, f, x) && Proper(sent, f, x)
    ensures Proper(outs + sent + [] + InputOutputs(r), f, x)
  {
    ProperConcat(outs, sent, f, x);
    assert outs + sent + [] == outs + sent;
    ProperConcat(outs + sent, InputOutputs(r), f, x);
  }

  lemma {:induction false} ResultTells(cfg: Config, outs: seq<Output>, sent: seq<Output>, f: nat, x: Extras, ts: int,
                                       p: Progress, r: HalResult, due: Seen)
    requires r.frame == f && (r.meta.Some? ==> p.final.None?) && Proper(outs, f, x) && Proper(sent, f, x)
    requires due == NewlyDue(cfg, p, f, x, r)
    requires SeenOf(outs, f) == UNSEEN.(partials := due.partials)
    requires SeenOf(sent, f) == UNSEEN.(results := due.results)
    ensures Tells(cfg, outs + sent + [] + InputOutputs(r), f, x, ts, p, Observe(cfg, f, p, Result(r)))
  {
    ResultSeen(outs, sent, [], r, f);
    ResultProper(outs, sent, f, x, r);
    Summed(due.partials, due.results, due.inputs);
    assert due.shutters == [] && due.inputs == InputHandle(r);
    assert SeenOf(outs + sent + [] + InputOutputs(r), f) == due;
    DueGrows(cfg, p, f, x, ts, r);
  }

  lemma {:induction false} ResultStamps(cfg: Config, handed: seq<Handover>, left: seq<Handover>, f: nat, ts: int,
                                        p: Progress, r: HalResult)
    requires r.frame == f && Stamped(handed, f) == (if p.exposed then Stamp(r.outputs, ts) else [])
    requires Stamped(left, f) == []
    ensures StampsDue(Observe(cfg, f, p, Result(r)), ts) == StampsDue(p, ts) + Stamped(handed + left, f)
  {
    StampedConcat(handed, left, f);
    StampSplit(p.outputs, r.outputs, ts);
  }

  lemma {:induction false} ExposeFollows(cfg: Config, t: Tracker, f: nat, n: nat, x: Extras, ts: int, p: Progress)
    requires 0 < ts && cfg.hasResultCb && f in t.pending && !p.exposed
    requires GoodProgress(cfg, n, ts, p) && Tracks(cfg, t.pending[f], n, x, ts, p)
    requires t.nextResult.At(x.input) <= f
    ensures var a := Expose(cfg, t, f, ts);
            && Tracks(cfg, a.tracker.pending[f], n, x, ts, p.(exposed := true))
            && Proper(a.client, f, x)
            && SeenOf(a.client, f) == UNSEEN.(results := ResultsDue(cfg, p.(exposed := true), f))
            && Stamped(a.handed, f) == Stamp(p.outputs, ts)
  {
    var e := t.pending[f];
    OkMeansNoError(e.parked, f, e.extras, t.flushing);
    if p.final.Some? {
      SendDelivers(cfg, t.nextResult, e.parkedMeta, e.extras, e.composed, f);
      SeenOne(Expose(cfg, t, f, ts).client[0], f);
    }
  }

  function Called(cfg: Config, f: nat, extras: Extras, ts: int): seq<Output> {
    if cfg.hasShutterCb then [ShutterCb(f, extras, ts)] else []
  }

  lemma {:induction false} CalledSeen(cfg: Config, f: nat, extras: Extras, ts: int, x: Extras)
    requires SameExtras(extras, x)
    ensures Proper(Called(cfg, f, extras, ts), f, x)
    ensures SeenOf(Called(cfg, f, extras, ts), f) == UNSEEN.(shutters := if cfg.hasShutterCb then [ts] else [])
  {
    if cfg.hasShutterCb { SeenOne(ShutterCb(f, extras, ts), f); }
  }

  lemma {:induction false} ShutterServes(cfg: Config, t: Tracker, f: nat, n: nat, x: Extras, ts: int, p: Progress)
    requires 0 < ts && cfg.hasResultCb && !Done(p, n) && t.nextResult.At(x.input) <= f
    requires Follows(cfg, t, f, n, x, ts, p) && Good(cfg, t, f, n, x, ts, p, Shutter(f, ts))
    ensures Serves(cfg, t, OnShutter(cfg, t, f, ts), f, n, x, ts, p, Observe(cfg, f, p, Shutter(f, ts)))
  {
    var called, d := Called(cfg, f, t.pending[f].extras, ts), Expose(cfg, t, f, ts);
    var left := Retire(d.tracker, f);
    ExposeFollows(cfg, t, f, n, x, ts, p);
    RetireFollows(cfg, d.tracker, f, n, x, ts, p.(exposed := true));
    CalledSeen(cfg, f, t.pending[f].extras, ts, x);
    ShutterTells(cfg, called, d.client, f, x, ts, p);
    StampedConcat(d.handed, left.handed, f);
    assert OnShutter(cfg, t, f, ts) == After(left.tracker, called + d.client + [], d.handed + left.handed);
    assert StampsDue(p, ts) == [];
  }

  lemma {:induction false} ExposedDue(cfg: Config, p: Progress, f: nat, x: Extras, ts: int, more: Seen)
    requires !p.exposed
    requires more == Seen(ResultsDue(cfg, p.(exposed := true), f), if cfg.hasShutterCb then [ts] else [], [], [])
    ensures DueSeen(cfg, p.(exposed := true), f, x, ts) == DueSeen(cfg, p, f, x, ts).Then(more)
  {
  }

  lemma {:induction false} ShutterTells(cfg: Config, called: seq<Output>, sent: seq<Output>, f: nat, x: Extras, ts: int,
                                        p: Progress)
    requires !p.exposed && Proper(called, f, x) && Proper(sent, f, x)
    requires SeenOf(called, f) == UNSEEN.(shutters := if cfg.hasShutterCb then [ts] else [])
    requires SeenOf(sent, f) == UNSEEN.(results := ResultsDue(cfg, p.(exposed := true), f))
    ensures Tells(cfg, called + sent + [], f, x, ts, p, p.(exposed := true))
  {
    assert called + sent + [] == called + sent;
    SeenConcat(called, sent, f);
    ProperConcat(called, sent, f, x);
    ExposedDue(cfg, p, f, x, ts, SeenOf(called, f).Then(SeenOf(sent, f)));
  }

  /** An event for another frame changes nothing here. */
  lemma {:induction false} OthersServe(cfg: Config, t: Tracker, f: nat, n: nat, x: Extras, ts: int, p: Progress,
                                       ev: Event)
    requires Follows(cfg, t, f, n, x, ts, p) && FrameOf(ev) != Some(f)
    ensures Serves(cfg, t, Step(cfg, t, ev), f, n, x, ts, p, p)
  {
    OtherFrames(cfg, t, ev, f);
    var a := Step(cfg, t, ev);
    NothingSeen(a.client, f);
    ThenThen(DueSeen(cfg, p, f, x, ts), UNSEEN, UNSEEN);
    if FrameOf(ev).Some? { StepIsLocal(cfg, t, ev); }
    NoStamps(a.handed, f);
  }

  /**
   Once a frame is done nothing more can be sent for it, so a good event concerns another frame or an unfinished one.
   */
  lemma {:induction false} EventServes(cfg: Config, t: Tracker, f: nat, n: nat, x: Extras, ts: int, p: Progress,
                                       ev: Event)
    requires 0 < ts && cfg.hasResultCb && CursorsOrdered(t)
    requires Follows(cfg, t, f, n, x, ts, p) && Good(cfg, t, f, n, x, ts, p, ev)
    ensures Serves(cfg, t, Step(cfg, t, ev), f, n, x, ts, p, Observe(cfg, f, p, ev))
  {
    if FrameOf(ev) != Some(f) {
      OthersServe(cfg, t, f, n, x, ts, p, ev);
    } else if ev.Result? {
      ResultServes(cfg, t, f, n, x, ts, p, ev.result);
    } else {
      ShutterServes(cfg, t, f, n, x, ts, p);
    }
  }

  /** What holds of the frame after a run from its mark. */
  predicate Served(cfg: Config, h: History, h': History, f: nat, n: nat, x: Extras, ts: int, p: Progress) {
    && Follows(cfg, h'.tracker, f, n, x, ts, p)
    && Stamped(h'.handed, f) == Stamped(h.handed, f) + StampsDue(p, ts)
    && h.client <= h'.client && Proper(h'.client[|h.client|..], f, x)
    && SeenOf(h'.client[|h.client|..], f) == DueSeen(cfg, p, f, x, ts)
  }

  lemma {:induction false} ProperSince(before: seq<Output>, outs: seq<Output>, more: seq<Output>, f: nat, x: Extras)
    requires before <= outs && Proper(outs[|before|..], f, x) && Proper(more, f, x)
    ensures before <= outs + more && Proper((outs + more)[|before|..], f, x)
    ensures (outs + more)[|before|..] == outs[|before|..] + more
  {
    ProperConcat(outs[|before|..], more, f, x);
    assert (outs + more)[|before|..] == outs[|before|..] + more;
  }

  lemma {:induction false} ServedGrows(cfg: Config, h: History, h1: History, a: After, h': History,
                                       f: nat, n: nat, x: Extras, ts: int, p: Progress, p': Progress)
    requires Served(cfg, h, h1, f, n, x, ts, p) && Serves(cfg, h1.tracker, a, f, n, x, ts, p, p')
    requires h'.tracker == a.tracker && h'.client == h1.client + a.client && h'.handed == h1.handed + a.handed
    ensures Served(cfg, h, h', f, n, x, ts, p')
  {
    SeenConcat(h1.client[|h.client|..], a.client, f);
    ProperSince(h.client, h1.client, a.client, f, x);
    StampedConcat(h1.handed, a.handed, f);
    Regroup(Stamped(h.handed, f), StampsDue(p, ts), Stamped(a.handed, f));
  }

  lemma {:induction false} Regroup<T>(a: seq<T>, b: seq<T>, c: seq<T>)
    ensures (a + b) + c == a + (b + c)
  {
  }

  /**
   Completion of a frame. From its mark with `n` buffers, under any interleaving of its shutter, its metadata and its
   buffers, and any traffic for other frames:
   the frame leaves the map exactly when everything has arrived; its buffers have been handed over in order of arrival,
   each once and with the shutter time, as soon as the shutter is known; and once both the shutter and the final
   metadata are known, one result has been delivered, the same whichever came first. The client has been told exactly
   that, the shutter, each partial result and each input buffer, with the right contents, and no error.
   */
  lemma {:induction false} FrameCompletes(
    cfg: Config, h: History, f: nat, n: nat, extras: Extras, ts: int, evs: seq<Event>)
    requires 0 < ts && cfg.hasResultCb && Ordered(cfg, h)
    requires f in h.tracker.pending && h.tracker.pending[f] == FreshPending(n, extras)
    requires GoodRun(cfg, h, f, n, extras, ts, evs)
    ensures var h' := RunFrom(cfg, h, evs); var p := Observed(cfg, f, evs);
            && Ordered(cfg, h')
            && (f !in h'.tracker.pending <==> Done(p, n))
            && Served(cfg, h, h', f, n, extras, ts, p)
            && RightlyTold(cfg, SeenOf(h'.client[|h.client|..], f), p, f, extras, ts)
  {
    if !cfg.Partials() { NoPartials(cfg, f, evs); }
    DueIsRight(cfg, Observed(cfg, f, evs), f, extras, ts);
    if evs != [] {
      var init, ev := evs[..|evs| - 1], evs[|evs| - 1];
      FrameCompletes(cfg, h, f, n, extras, ts, init);
      var h1, p := RunFrom(cfg, h, init), Observed(cfg, f, init);
      StepKeepsOrder(cfg, h1, ev);
      EventServes(cfg, h1.tracker, f, n, extras, ts, p, ev);
      ServedGrows(cfg, h, h1, Step(cfg, h1.tracker, ev), Advance(cfg, h1, ev), f, n,
                  extras, ts, p, Observe(cfg, f, p, ev));
    } else {
      assert Stamped(h.handed, f) + [] == Stamped(h.handed, f);
      assert DueSeen(cfg, NOTHING, f, extras, ts) == UNSEEN && h.client[|h.client|..] == [];
    }
  }
}
