/**
 Delivery order over every run of the capture tracker: for each request kind results come out in increasing
 frame order, and none before its frame's shutter.
 */
module CaptureOrder {
  import opened Common
  import opened CaptureTracker
  import opened CaptureRuns

  /** The last frame number before the 32-bit counters wrap is never used. */
  predicate Bounded(ev: Event) { FrameOf(ev).Some? ==> FrameOf(ev).value < FRAME_LIMIT - 1 }

  predicate BoundedRun(evs: seq<Event>) { forall ev | ev in evs :: Bounded(ev) }

  predicate IsShutterOf(o: Output, frame: nat, input: bool) {
    o.ShutterCb? && o.frame == frame && o.extras.input == input
  }

  predicate Announced(client: seq<Output>, frame: nat, input: bool) {
    exists i | 0 <= i < |client| :: IsShutterOf(client[i], frame, input)
  }

  /** Delivered results of one kind strictly increase and stay below the cursor of that kind. */
  predicate Increasing(client: seq<Output>, next: Cursors) {
    && (forall i | 0 <= i < |client| :: client[i].ResultCb? ==> client[i].frame < next.At(client[i].extras.input))
    && (forall i, j | 0 <= i < j < |client| ::
          client[i].ResultCb? && client[j].ResultCb? && client[i].extras.input == client[j].extras.input
          ==> client[i].frame < client[j].frame)
  }

  /** No result comes before the shutter of its frame. */
  predicate AfterShutter(client: seq<Output>) {
    forall j | 0 <= j < |client| :: client[j].ResultCb? ==>
      Announced(client[..j], client[j].frame, client[j].extras.input)
  }

  /** The next expected result never overtakes the next expected shutter; an exposed frame is below the latter. */
  predicate CursorsOrdered(t: Tracker) {
    && (forall k :: t.nextResult.At(k) <= t.nextShutter.At(k))
    && (forall f | f in t.pending && t.pending[f].shutterTS != 0 :: f < t.nextShutter.At(t.pending[f].extras.input))
  }

  predicate Ordered(cfg: Config, h: History) {
    && CursorsOrdered(h.tracker)
    && Increasing(h.client, h.tracker.nextResult)
    && (cfg.hasShutterCb ==>
          && AfterShutter(h.client)
          && forall f | f in h.tracker.pending && h.tracker.pending[f].shutterTS != 0 ::
               Announced(h.client, f, h.tracker.pending[f].extras.input))
  }

  predicate Quiet(outs: seq<Output>) { forall o | o in outs :: !o.ResultCb? }

  /** What the callbacks of one event may contain: no result, or one for frame `f` at position `p`. */
  predicate OneResult(outs: seq<Output>, p: nat, f: nat, input: bool, before: Cursors, after: Cursors) {
    if Quiet(outs) then after == before || (before.At(input) <= f && after == before.Set(input, f + 1))
    else
      && p < |outs| && outs[p].ResultCb? && outs[p].frame == f && outs[p].extras.input == input
      && Quiet(outs[..p]) && Quiet(outs[p + 1..])
      && before.At(input) <= f && after == before.Set(input, f + 1)
  }

  lemma {:induction false} ResultPlace(outs: seq<Output>, p: nat, f: nat, input: bool, before: Cursors,
                                       after: Cursors)
    requires OneResult(outs, p, f, input, before, after)
    ensures forall i | 0 <= i < |outs| :: outs[i].ResultCb? ==>
              && i == p && outs[i].frame == f && outs[i].extras.input == input
              && before.At(input) <= f && after == before.Set(input, f + 1)
  {
  }

  lemma {:induction false} IncreasingGrows(client: seq<Output>, outs: seq<Output>, p: nat, f: nat, input: bool,
                                           before: Cursors, after: Cursors)
    requires Increasing(client, before) && OneResult(outs, p, f, input, before, after)
    ensures Increasing(client + outs, after)
  {
  }

  lemma {:induction false} AnnouncedGrows(client: seq<Output>, more: seq<Output>, f: nat, input: bool)
    requires Announced(client, f, input)
    ensures Announced(client + more, f, input)
  {
    var i :| 0 <= i < |client| && IsShutterOf(client[i], f, input);
    assert IsShutterOf((client + more)[i], f, input);
  }

  lemma {:induction false} AfterShutterGrows(client: seq<Output>, outs: seq<Output>, p: nat, f: nat, input: bool,
                                             before: Cursors, after: Cursors)
    requires AfterShutter(client) && OneResult(outs, p, f, input, before, after)
    requires Quiet(outs) || Announced(client + outs[..p], f, input)
    ensures AfterShutter(client + outs)
  {
    var all := client + outs;
    forall j | 0 <= j < |all| && all[j].ResultCb?
      ensures Announced(all[..j], all[j].frame, all[j].extras.input)
    {
      if j < |client| {
        assert all[..j] == client[..j];
      } else {
        assert outs[j - |client|] in outs;
        ResultPlace(outs, p, f, input, before, after);
        assert all[..j] == client + outs[..p];
      }
    }
  }

  // ---------------------------------------------------------------- one event

  lemma {:induction false} SentOne(cfg: Config, next: Cursors, final: Metadata, extras: Extras, collected: Metadata,
                                   f: nat)
    requires f < FRAME_LIMIT - 1
    ensures OneResult(SentOutputs(cfg, next, final, extras, collected, f), 0, f, extras.input, next,
                      CursorsAfterSend(cfg, next, final, extras, f))
  {
  }

  /** Callbacks without results around one delivery only shift it. */
  lemma {:induction false} OneResultPadded(head: seq<Output>, outs: seq<Output>, tail: seq<Output>,
                                           p: nat, f: nat, input: bool, before: Cursors, after: Cursors)
    requires Quiet(head) && Quiet(tail) && OneResult(outs, p, f, input, before, after)
    ensures OneResult(head + outs + tail, |head| + p, f, input, before, after)
  {
  }

  lemma {:induction false} RetireQuiet(t: Tracker, f: nat)
    requires f in t.pending
    ensures Quiet(Retire(t, f).client)
    ensures Retire(t, f).tracker.nextResult == t.nextResult && Retire(t, f).tracker.nextShutter == t.nextShutter
    ensures forall g | g in Retire(t, f).tracker.pending ::
              g in t.pending && Retire(t, f).tracker.pending[g] == t.pending[g]
  {
  }

  lemma {:induction false} IntakeQuiet(cfg: Config, e: Pending, r: HalResult)
    ensures var intake := TakeIn(cfg, e, r);
            && Quiet(intake.outs)
            && intake.entry.shutterTS == e.shutterTS
            && intake.entry.extras.input == e.extras.input
  {
  }

  lemma {:induction false} DispatchDelivery(cfg: Config, t: Tracker, e: Pending, collected: Metadata, r: HalResult)
    requires r.frame < FRAME_LIMIT - 1
    ensures var a := Dispatch(cfg, t, e, collected, r);
            && OneResult(a.client, 0, r.frame, e.extras.input, t.nextResult, a.tracker.nextResult)
            && (a.tracker.nextResult != t.nextResult || !Quiet(a.client) ==> e.shutterTS != 0)
            && a.tracker.nextShutter == t.nextShutter
            && a.tracker.pending[r.frame].shutterTS == e.shutterTS
            && a.tracker.pending[r.frame].extras == e.extras
            && forall g | g in a.tracker.pending && g != r.frame ::
                 g in t.pending && a.tracker.pending[g] == t.pending[g]
  {
    var send := IsFinal(cfg, r) && e.shutterTS != 0;
    var sent := if send then SentOutputs(cfg, t.nextResult, r.meta.value, e.extras, collected, r.frame) else [];
    var errors := if 0 < e.shutterTS then BufferErrors(r.outputs, r.frame, e.extras, t.flushing) else [];
    if send { SentOne(cfg, t.nextResult, r.meta.value, e.extras, collected, r.frame); }
    assert Dispatch(cfg, t, e, collected, r).client == [] + sent + errors;
    OneResultPadded([], sent, errors, 0, r.frame, e.extras.input, t.nextResult,
                    Dispatch(cfg, t, e, collected, r).tracker.nextResult);
  }

  /** Entries are the old ones, or have the shutter and kind of the old one. */
  predicate Kept(t: Tracker, t': Tracker) {
    && t'.nextShutter == t.nextShutter
    && forall g | g in t'.pending && t'.pending[g].shutterTS != 0 ::
         && g in t.pending
         && t.pending[g].shutterTS != 0
         && t.pending[g].extras.input == t'.pending[g].extras.input
  }

  lemma {:induction false} AcceptDelivery(cfg: Config, t: Tracker, intake: Intake, r: HalResult)
    requires intake.Accepted? && Quiet(intake.outs) && r.frame < FRAME_LIMIT - 1
    ensures var a := Accept(cfg, t, intake, r); var e := intake.entry;
            && OneResult(a.client, |intake.outs|, r.frame, e.extras.input, t.nextResult, a.tracker.nextResult)
            && (a.tracker.nextResult != t.nextResult || !Quiet(a.client) ==> e.shutterTS != 0)
  {
    var e := intake.entry;
    DispatchDelivery(cfg, t, e, intake.collected, r);
    var d := Dispatch(cfg, t, e, intake.collected, r);
    RetireQuiet(d.tracker, r.frame);
    var left := Retire(d.tracker, r.frame);
    OneResultPadded(intake.outs, d.client, left.client + InputOutputs(r), 0, r.frame, e.extras.input,
                    t.nextResult, d.tracker.nextResult);
    assert Accept(cfg, t, intake, r).client == intake.outs + d.client + (left.client + InputOutputs(r));
  }

  lemma {:induction false} CountedDelivery(cfg: Config, t: Tracker, r: HalResult) returns (p: nat)
    requires Counted(cfg, t, r) && r.frame < FRAME_LIMIT - 1
    ensures var a := OnCounted(cfg, t, r); var e := t.pending[r.frame];
            && OneResult(a.client, p, r.frame, e.extras.input, t.nextResult, a.tracker.nextResult)
            && (a.tracker.nextResult != t.nextResult || !Quiet(a.client) ==> e.shutterTS != 0)
  {
    IntakeQuiet(cfg, t.pending[r.frame], r);
    var intake := TakeIn(cfg, t.pending[r.frame], r);
    AcceptDelivery(cfg, t, intake, r);
    p := |intake.outs|;
  }

  lemma {:induction false} CountedKept(cfg: Config, t: Tracker, r: HalResult)
    requires Counted(cfg, t, r) && r.frame < FRAME_LIMIT - 1
    ensures Kept(t, OnCounted(cfg, t, r).tracker)
  {
  }

  lemma {:induction false} ResultKeepsOrder(cfg: Config, h: History, r: HalResult)
    requires Ordered(cfg, h) && r.frame < FRAME_LIMIT - 1
    ensures Ordered(cfg, Advance(cfg, h, Result(r)))
  {
    var t := h.tracker;
    var a := OnResult(cfg, t, r);
    if Counted(cfg, t, r) {
      var input := t.pending[r.frame].extras.input;
      var p := CountedDelivery(cfg, t, r);
      CountedKept(cfg, t, r);
      IncreasingGrows(h.client, a.client, p, r.frame, input, t.nextResult, a.tracker.nextResult);
      if cfg.hasShutterCb {
        if !Quiet(a.client) { AnnouncedGrows(h.client, a.client[..p], r.frame, input); }
        AfterShutterGrows(h.client, a.client, p, r.frame, input, t.nextResult, a.tracker.nextResult);
      }
    } else {
      if WellFormed(cfg, r) && r.frame in t.pending { IntakeQuiet(cfg, t.pending[r.frame], r); }
      QuietKeepsLog(cfg, h, a);
    }
    StillAnnounced(cfg, h, a);
  }

  lemma {:induction false} QuietKeepsLog(cfg: Config, h: History, a: After)
    requires Ordered(cfg, h) && Quiet(a.client) && a.tracker.nextResult == h.tracker.nextResult
    ensures Increasing(h.client + a.client, a.tracker.nextResult)
    ensures cfg.hasShutterCb ==> AfterShutter(h.client + a.client)
  {
    var next := h.tracker.nextResult;
    IncreasingGrows(h.client, a.client, 0, 0, false, next, next);
    if cfg.hasShutterCb { AfterShutterGrows(h.client, a.client, 0, 0, false, next, next); }
  }

  lemma {:induction false} StillAnnounced(cfg: Config, h: History, a: After)
    requires Ordered(cfg, h) && Kept(h.tracker, a.tracker)
    ensures cfg.hasShutterCb ==>
              forall f | f in a.tracker.pending && a.tracker.pending[f].shutterTS != 0 ::
                Announced(h.client + a.client, f, a.tracker.pending[f].extras.input)
  {
    if cfg.hasShutterCb {
      forall f | f in a.tracker.pending && a.tracker.pending[f].shutterTS != 0
        ensures Announced(h.client + a.client, f, a.tracker.pending[f].extras.input)
      {
        AnnouncedGrows(h.client, a.client, f, a.tracker.pending[f].extras.input);
      }
    }
  }

  lemma {:induction false} ExposeDelivery(cfg: Config, t: Tracker, f: nat, ts: int)
    requires f in t.pending && f < FRAME_LIMIT - 1
    ensures var a := Expose(cfg, t, f, ts); var e := t.pending[f];
            && OneResult(a.client, 0, f, e.extras.input, t.nextResult, a.tracker.nextResult)
            && a.tracker.nextShutter == t.nextShutter.Set(e.extras.input, f + 1)
            && a.tracker.pending[f].extras == e.extras
            && (forall g | g in a.tracker.pending && g != f :: g in t.pending && a.tracker.pending[g] == t.pending[g])
  {
  }

  /** An accepted shutter: its callback comes first, then at most one result. */
  lemma {:induction false} ShutterDelivery(cfg: Config, t: Tracker, f: nat, ts: int) returns (p: nat)
    requires InOrder(t, f) && f < FRAME_LIMIT - 1
    ensures var a := OnShutter(cfg, t, f, ts); var input := t.pending[f].extras.input;
            && OneResult(a.client, p, f, input, t.nextResult, a.tracker.nextResult)
            && (cfg.hasShutterCb ==> 1 <= p <= |a.client| && IsShutterOf(a.client[0], f, input))
            && a.tracker.nextShutter == t.nextShutter.Set(input, f + 1)
            && (f in a.tracker.pending ==> a.tracker.pending[f].extras.input == input)
            && (forall g | g in a.tracker.pending && g != f :: g in t.pending && a.tracker.pending[g] == t.pending[g])
  {
    var e := t.pending[f];
    var called := if cfg.hasShutterCb then [ShutterCb(f, e.extras, ts)] else [];
    var d := Expose(cfg, t, f, ts);
    ExposeDelivery(cfg, t, f, ts);
    RetireQuiet(d.tracker, f);
    OneResultPadded(called, d.client, Retire(d.tracker, f).client, 0, f, e.extras.input,
                    t.nextResult, d.tracker.nextResult);
    p := |called|;
  }

  lemma {:induction false} ShutterKeepsCursors(cfg: Config, t: Tracker, f: nat, ts: int)
    requires CursorsOrdered(t) && InOrder(t, f) && f < FRAME_LIMIT - 1
    ensures CursorsOrdered(OnShutter(cfg, t, f, ts).tracker)
  {
    var _ := ShutterDelivery(cfg, t, f, ts);
    var t', input := OnShutter(cfg, t, f, ts).tracker, t.pending[f].extras.input;
    assert t'.nextResult == t.nextResult || t'.nextResult == t.nextResult.Set(input, f + 1);
    forall k: bool
      ensures t'.nextResult.At(k) <= t'.nextShutter.At(k)
    {
      assert t.nextResult.At(k) <= t.nextShutter.At(k);
    }
  }

  lemma {:induction false} ShutterKeepsOrder(cfg: Config, h: History, f: nat, ts: int)
    requires Ordered(cfg, h) && InOrder(h.tracker, f) && f < FRAME_LIMIT - 1
    ensures Ordered(cfg, Advance(cfg, h, Shutter(f, ts)))
  {
    var t := h.tracker;
    var a := OnShutter(cfg, t, f, ts);
    var input := t.pending[f].extras.input;
    ShutterKeepsCursors(cfg, t, f, ts);
    var p := ShutterDelivery(cfg, t, f, ts);
    IncreasingGrows(h.client, a.client, p, f, input, t.nextResult, a.tracker.nextResult);
    if cfg.hasShutterCb {
      AnnouncedHere(h.client, a.client, p, f, input);
      AfterShutterGrows(h.client, a.client, p, f, input, t.nextResult, a.tracker.nextResult);
      ShutterAnnounces(h.client, a.client, t, a.tracker, f);
    }
  }

  lemma {:induction false} ShutterAnnounces(client: seq<Output>, outs: seq<Output>, t: Tracker, t': Tracker, f: nat)
    requires forall g | g in t.pending && t.pending[g].shutterTS != 0 :: Announced(client, g, t.pending[g].extras.input)
    requires forall g | g in t'.pending && g != f :: g in t.pending && t'.pending[g] == t.pending[g]
    requires f in t'.pending ==> Announced(client + outs, f, t'.pending[f].extras.input)
    ensures forall g | g in t'.pending && t'.pending[g].shutterTS != 0 ::
              Announced(client + outs, g, t'.pending[g].extras.input)
  {
    forall g | g in t'.pending && t'.pending[g].shutterTS != 0
      ensures Announced(client + outs, g, t'.pending[g].extras.input)
    {
      if g != f { AnnouncedGrows(client, outs, g, t'.pending[g].extras.input); }
    }
  }

  lemma {:induction false} AnnouncedHere(client: seq<Output>, outs: seq<Output>, p: nat, f: nat, input: bool)
    requires 1 <= p <= |outs| && IsShutterOf(outs[0], f, input)
    ensures Announced(client + outs[..p], f, input) && Announced(client + outs, f, input)
  {
    assert IsShutterOf((client + outs[..p])[|client|], f, input);
    assert IsShutterOf((client + outs)[|client|], f, input);
  }

  /** Every event with a frame number below the wrap keeps the delivery order. */
  lemma {:induction false} StepKeepsOrder(cfg: Config, h: History, ev: Event)
    requires Ordered(cfg, h) && Bounded(ev)
    ensures Ordered(cfg, Advance(cfg, h, ev))
  {
    match ev
    case Result(r) => ResultKeepsOrder(cfg, h, r);
    case Shutter(f, ts) =>
      if InOrder(h.tracker, f) {
        ShutterKeepsOrder(cfg, h, f, ts);
      } else {
        QuietKeepsLog(cfg, h, OnShutter(cfg, h.tracker, f, ts));
        StillAnnounced(cfg, h, OnShutter(cfg, h.tracker, f, ts));
      }
    case _ =>
      QuietKeepsLog(cfg, h, Step(cfg, h.tracker, ev));
      StillAnnounced(cfg, h, Step(cfg, h.tracker, ev));
  }

  lemma {:induction false} RunFromOrdered(cfg: Config, h: History, evs: seq<Event>)
    requires Ordered(cfg, h) && BoundedRun(evs)
    ensures Ordered(cfg, RunFrom(cfg, h, evs))
  {
    if evs != [] {
      RunFromOrdered(cfg, h, evs[..|evs| - 1]);
      StepKeepsOrder(cfg, RunFrom(cfg, h, evs[..|evs| - 1]), evs[|evs| - 1]);
    }
  }

  /**
   Over whole runs, whatever the HAL sends: for each request kind the next expected result never exceeds the
   next expected shutter, delivered results strictly increase, and none precedes its frame's shutter.
   */
  lemma {:induction false} RunOrdered(cfg: Config, evs: seq<Event>)
    requires BoundedRun(evs)
    ensures Ordered(cfg, Run(cfg, evs))
  {
    RunFromOrdered(cfg, START, evs);
  }

  /**
   The bound is exact: a shutter of a frame that stays in flight keeps the delivery order if and only if the cursor does
   not wrap. After the last frame number the cursor is back at zero, below the frame exposed.
   */
  lemma {:induction false} OrderEndsAtWrap(cfg: Config, h: History, f: nat, ts: int)
    requires Ordered(cfg, h) && InOrder(h.tracker, f) && f < FRAME_LIMIT && ts != 0
    requires f in OnShutter(cfg, h.tracker, f, ts).tracker.pending
    ensures Ordered(cfg, Advance(cfg, h, Shutter(f, ts))) <==> f < FRAME_LIMIT - 1
  {
    var t := OnShutter(cfg, h.tracker, f, ts).tracker;
    if f < FRAME_LIMIT - 1 {
      ShutterKeepsOrder(cfg, h, f, ts);
    } else {
      RetireQuiet(Expose(cfg, h.tracker, f, ts).tracker, f);
      assert t.pending[f].shutterTS == ts && t.nextShutter.At(t.pending[f].extras.input) == 0;
    }
  }
  // ---------------------------------------------------------------- past the last frame number

  /** A client that is called back with results only, which come whole. */
  const PLAIN := Config(false, true, 0, false)

  /** The final metadata of a frame exposed at a given time, without buffers. */
  function FinalOf(f: nat, ts: int): HalResult { HalResult(f, Some([MetaEntry(SensorTimestamp, [ts])]), 1, [], None) }

  /** Everything about a frame without buffers. */
  function WholeFrame(f: nat, ts: int, extras: Extras): seq<Event> {
    [Mark(f, 0, extras)] + [Shutter(f, ts)] + [Result(FinalOf(f, ts))]
  }

  function Delivered(f: nat, ts: int, extras: Extras): Output {
    ResultCb(f, extras.(partialResultCount := 1), [MetaEntry(SensorTimestamp, [ts]), MetaEntry(FrameCount, [f])])
  }

  /** Nothing is in flight and a frame of this number is in order. */
  predicate ReadyFor(t: Tracker, f: nat) {
    t.pending == map[] && t.nextShutter.normal <= f && t.nextResult.normal <= f
  }

  lemma {:induction false} Exposed(t: Tracker, f: nat, ts: int, extras: Extras)
    requires ReadyFor(t, f) && !extras.input && ts != 0
    ensures var a := OnShutter(PLAIN, OnMark(t, f, 0, extras), f, ts);
            && a.client == [] && a.tracker.pending == map[f := FreshPending(0, extras).(shutterTS := ts)]
            && a.tracker.nextShutter.normal == NextFrame(f) && a.tracker.nextResult == t.nextResult
  {
  }

  lemma {:induction false} Finished(t: Tracker, f: nat, ts: int, extras: Extras)
    requires t.pending == map[f := FreshPending(0, extras).(shutterTS := ts)] && !extras.input && ts > 0
    requires t.nextResult.normal <= f
    ensures var a := OnResult(PLAIN, t, FinalOf(f, ts));
            && a.client == [Delivered(f, ts, extras)] && a.tracker.pending == map[]
            && a.tracker.nextShutter == t.nextShutter && a.tracker.nextResult.normal == NextFrame(f)
  {
    var e := FreshPending(0, extras).(shutterTS := ts);
    var r := FinalOf(f, ts);
    assert Find(r.meta.value, SensorTimestamp) == [ts];
    assert Update(r.meta.value, FrameCount, [f]) == [MetaEntry(SensorTimestamp, [ts]), MetaEntry(FrameCount, [f])];
    var intake := TakeIn(PLAIN, e, r);
    assert intake.Accepted? && Complete(intake.entry) && intake.outs == [];
    var d := Dispatch(PLAIN, t, intake.entry, intake.collected, r);
    assert Merged(PLAIN, r.meta.value, intake.collected, f) == Update(r.meta.value, FrameCount, [f]);
    assert Find(Update(r.meta.value, FrameCount, [f]), SensorTimestamp) == [ts];
    assert BufferErrors([], f, extras, t.flushing) == [];
    assert d.client == [Delivered(f, ts, extras)];
  }

  lemma {:induction false} RunExposed(evs: seq<Event>, f: nat, ts: int, extras: Extras)
    requires ReadyFor(Run(PLAIN, evs).tracker, f) && !extras.input && ts != 0
    ensures var h, h' := Run(PLAIN, evs), Run(PLAIN, evs + [Mark(f, 0, extras)] + [Shutter(f, ts)]);
            && h'.client == h.client && h'.tracker.pending == map[f := FreshPending(0, extras).(shutterTS := ts)]
            && h'.tracker.nextShutter.normal == NextFrame(f) && h'.tracker.nextResult == h.tracker.nextResult
  {
    var h := Run(PLAIN, evs);
    RunAdds(PLAIN, evs, Mark(f, 0, extras));
    RunAdds(PLAIN, evs + [Mark(f, 0, extras)], Shutter(f, ts));
    Exposed(h.tracker, f, ts, extras);
    assert h.client + [] == h.client;
  }

  /** A frame from its mark to its result. */
  lemma {:induction false} FrameDelivered(evs: seq<Event>, f: nat, ts: int, extras: Extras)
    requires ReadyFor(Run(PLAIN, evs).tracker, f) && !extras.input && ts > 0
    ensures var h, h' := Run(PLAIN, evs), Run(PLAIN, evs + WholeFrame(f, ts, extras));
            && h'.client == h.client + [Delivered(f, ts, extras)] && h'.tracker.pending == map[]
            && h'.tracker.nextShutter.normal == NextFrame(f) == h'.tracker.nextResult.normal
  {
    var before := evs + [Mark(f, 0, extras)] + [Shutter(f, ts)];
    RunExposed(evs, f, ts, extras);
    Finished(Run(PLAIN, before).tracker, f, ts, extras);
    RunAdds(PLAIN, before, Result(FinalOf(f, ts)));
    assert evs + WholeFrame(f, ts, extras) == before + [Result(FinalOf(f, ts))];
  }

  /** A run that breaks the order: the last frame number, and then the first one again; both results are delivered. */
  lemma {:induction false} OrderBroken(extras: Extras)
    requires !extras.input
    ensures Run(PLAIN, WholeFrame(FRAME_LIMIT - 1, 7, extras) + WholeFrame(0, 8, extras)).client
         == [Delivered(FRAME_LIMIT - 1, 7, extras), Delivered(0, 8, extras)]
  {
    FrameDelivered([], FRAME_LIMIT - 1, 7, extras);
    assert [] + WholeFrame(FRAME_LIMIT - 1, 7, extras) == WholeFrame(FRAME_LIMIT - 1, 7, extras);
    FrameDelivered(WholeFrame(FRAME_LIMIT - 1, 7, extras), 0, 8, extras);
  }
}
