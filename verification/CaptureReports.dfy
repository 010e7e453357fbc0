/**
 What counts and what is told: exactly which results the tracker counts, that every failed buffer handed over is
 reported once, and that a failed buffer puts its frame in error.
 */
module CaptureReports {
  import opened Common
  import opened CaptureTracker
  import opened CaptureRuns
  import opened CaptureErrors

  /** A frame that is marked expects its buffers and nothing is known of it yet, whatever there was before. */
  lemma {:induction false} Marked(cfg: Config, t: Tracker, f: nat, buffers: nat, extras: Extras)
    ensures var a := Step(cfg, t, Mark(f, buffers, extras));
            && f in a.tracker.pending && a.client == [] && a.handed == []
            && a.tracker.(pending := t.pending) == t && a.tracker.pending - {f} == t.pending - {f}
            && var e := a.tracker.pending[f];
               && e.remaining == buffers && e.extras == extras && e.status == 0 && !e.metaPresent && e.shutterTS == 0
               && e.parked == [] && e.parkedMeta == [] && e.composed == []
  {
  }

  /**
   A result is counted exactly if it brings something; is numbered as a whole, or as one of its parts; belongs to a
   frame in flight, which has no final metadata yet if it brings some; and brings no more buffers than are to come.
   */
  lemma {:induction false} CountedIff(cfg: Config, t: Tracker, r: HalResult)
    ensures Counted(cfg, t, r) <==>
              && (r.meta.Some? || r.outputs != [] || r.input.Some?)
              && (r.meta.Some? ==> 1 <= r.partial <= if cfg.partialCount > 1 then cfg.partialCount else 1)
              && r.frame in t.pending
              && (r.meta.Some? && (cfg.partialCount > 1 ==> r.partial == cfg.partialCount) ==>
                    !t.pending[r.frame].metaPresent)
              && |r.outputs| + (if r.input.Some? then 1 else 0) <= t.pending[r.frame].remaining
  {
  }

  // ---------------------------------------------------------------- reports of failed buffers

  /** How many failed buffers a sequence of callbacks reports. */
  function Reports(outs: seq<Output>): nat {
    if outs == [] then 0
    else
      Reports(outs[..|outs| - 1])
      + if outs[|outs| - 1].ErrorCb? && outs[|outs| - 1].code.ErrorBuffer? then 1 else 0
  }

  function Failures(bufs: seq<Buffer>): nat {
    if bufs == [] then 0
    else Failures(bufs[..|bufs| - 1]) + if bufs[|bufs| - 1].status.StatusError? then 1 else 0
  }

  lemma {:induction false} ReportsAppend(a: seq<Output>, b: seq<Output>)
    ensures Reports(a + b) == Reports(a) + Reports(b)
  {
    if b == [] {
      assert a + b == a;
    } else {
      assert (a + b)[..|a + b| - 1] == a + b[..|b| - 1];
      ReportsAppend(a, b[..|b| - 1]);
    }
  }

  lemma {:induction false} FailuresAppend(a: seq<Buffer>, b: seq<Buffer>)
    ensures Failures(a + b) == Failures(a) + Failures(b)
  {
    if b == [] {
      assert a + b == a;
    } else {
      assert (a + b)[..|a + b| - 1] == a + b[..|b| - 1];
      FailuresAppend(a, b[..|b| - 1]);
    }
  }

  predicate Silent(outs: seq<Output>) { forall o | o in outs :: !(o.ErrorCb? && o.code.ErrorBuffer?) }

  lemma {:induction false} SilentReports(outs: seq<Output>)
    requires Silent(outs)
    ensures Reports(outs) == 0
  {
    if outs != [] { SilentReports(outs[..|outs| - 1]); }
  }

  /** Callbacks report the failed buffers handed over, unless a flush is under way. */
  predicate Told(outs: seq<Output>, bufs: seq<Buffer>, flushing: bool) {
    Reports(outs) == if flushing then 0 else Failures(bufs)
  }

  lemma {:induction false} ErrorsTold(bufs: seq<Buffer>, f: nat, extras: Extras, flushing: bool)
    ensures Told(BufferErrors(bufs, f, extras, flushing), bufs, flushing)
  {
    if bufs != [] {
      var last := bufs[|bufs| - 1];
      var more := if last.status.StatusError? && !flushing then [ErrorCb(f, ErrorBuffer, Some(extras))] else [];
      ErrorsTold(bufs[..|bufs| - 1], f, extras, flushing);
      ReportsAppend(BufferErrors(bufs[..|bufs| - 1], f, extras, flushing), more);
      if more != [] { assert more[..0] == []; }
    }
  }

  lemma {:induction false} ToldTwice(a: seq<Output>, b: seq<Output>, c: seq<Buffer>, d: seq<Buffer>, flushing: bool)
    requires Told(a, c, flushing) && Told(b, d, flushing)
    ensures Told(a + b, c + d, flushing)
  {
    ReportsAppend(a, b);
    FailuresAppend(c, d);
  }

  lemma {:induction false} ToldAlso(a: seq<Output>, b: seq<Output>, bufs: seq<Buffer>, flushing: bool)
    requires Silent(a)
    ensures Told(a + b, bufs, flushing) <==> Told(b, bufs, flushing)
    ensures Told(b + a, bufs, flushing) <==> Told(b, bufs, flushing)
  {
    SilentReports(a);
    ReportsAppend(a, b);
    ReportsAppend(b, a);
  }

  lemma {:induction false} RetireTold(t: Tracker, f: nat)
    requires f in t.pending
    ensures Told(Retire(t, f).client, HandedFor(Retire(t, f).handed, f), t.flushing)
  {
    var e, a := t.pending[f], Retire(t, f);
    if Complete(e) {
      var mismatch := if e.status == 0 && e.sensorTS != e.shutterTS then [DeviceError(f)] else [];
      ErrorsTold(e.parked, f, e.extras, t.flushing);
      ToldAlso(mismatch, BufferErrors(e.parked, f, e.extras, t.flushing), e.parked, t.flushing);
      OneHanded(f, e.parked, 0);
    }
  }

  lemma {:induction false} OneHanded(f: nat, bufs: seq<Buffer>, ts: int)
    ensures HandedFor([Handover(f, bufs, ts)], f) == bufs
  {
    assert HandedFor([Handover(f, bufs, ts)], f) == bufs + HandedFor([], f);
  }

  lemma {:induction false} DispatchTold(cfg: Config, t: Tracker, e: Pending, collected: Metadata, r: HalResult)
    ensures var a := Dispatch(cfg, t, e, collected, r);
            Told(a.client, HandedFor(a.handed, r.frame), t.flushing) && a.tracker.flushing == t.flushing
            && |a.handed| <= 1
  {
    var send := IsFinal(cfg, r) && e.shutterTS != 0;
    var sent := if send then SentOutputs(cfg, t.nextResult, r.meta.value, e.extras, collected, r.frame) else [];
    assert Silent(sent);
    if 0 < e.shutterTS {
      ErrorsTold(r.outputs, r.frame, e.extras, t.flushing);
      ToldAlso(sent, BufferErrors(r.outputs, r.frame, e.extras, t.flushing), r.outputs, t.flushing);
      OneHanded(r.frame, r.outputs, e.shutterTS);
    } else {
      ToldAlso(sent, [], [], t.flushing);
    }
  }

  /** Two groups of callbacks in a row, with others before and after them. */
  lemma {:induction false} ToldAmong(pre: seq<Output>, a: seq<Output>, b: seq<Output>, post: seq<Output>,
                                     c: seq<Buffer>, d: seq<Buffer>, flushing: bool)
    requires Silent(pre) && Silent(post) && Told(a, c, flushing) && Told(b, d, flushing)
    ensures Told(pre + a + b + post, c + d, flushing)
  {
    ToldTwice(a, b, c, d, flushing);
    ToldAlso(pre, a + b, c + d, flushing);
    ToldAlso(post, pre + (a + b), c + d, flushing);
    assert pre + a + b == pre + (a + b);
  }

  lemma {:induction false} AcceptTold(cfg: Config, t: Tracker, intake: Intake, r: HalResult)
    requires intake.Accepted? && Silent(intake.outs)
    ensures var a := Accept(cfg, t, intake, r); Told(a.client, HandedFor(a.handed, r.frame), t.flushing)
  {
    var d := Dispatch(cfg, t, intake.entry, intake.collected, r);
    var left := Retire(d.tracker, r.frame);
    DispatchTold(cfg, t, intake.entry, intake.collected, r);
    RetireTold(d.tracker, r.frame);
    HandedTwice(d.handed, left.handed, r.frame);
    ToldAmong(intake.outs, d.client, left.client, InputOutputs(r), HandedFor(d.handed, r.frame),
              HandedFor(left.handed, r.frame), t.flushing);
  }

  lemma {:induction false} ResultTold(cfg: Config, t: Tracker, r: HalResult)
    ensures var a := OnResult(cfg, t, r); Told(a.client, HandedFor(a.handed, r.frame), t.flushing)
  {
    if WellFormed(cfg, r) && r.frame in t.pending {
      var intake := TakeIn(cfg, t.pending[r.frame], r);
      assert Silent(intake.outs);
      if intake.Accepted? { AcceptTold(cfg, t, intake, r); } else { SilentReports(intake.outs); }
    } else {
      SilentReports(OnResult(cfg, t, r).client);
    }
  }

  lemma {:induction false} ExposeTold(cfg: Config, t: Tracker, f: nat, ts: int)
    requires f in t.pending
    ensures var a := Expose(cfg, t, f, ts);
            Told(a.client, HandedFor(a.handed, f), t.flushing) && a.tracker.flushing == t.flushing && |a.handed| == 1
  {
    var e := t.pending[f];
    var sent := SentOutputs(cfg, t.nextResult, e.parkedMeta, e.extras, e.composed, f);
    assert Silent(sent);
    ErrorsTold(e.parked, f, e.extras, t.flushing);
    ToldAlso(sent, BufferErrors(e.parked, f, e.extras, t.flushing), e.parked, t.flushing);
    OneHanded(f, e.parked, ts);
  }

  lemma {:induction false} ShutterTold(cfg: Config, t: Tracker, f: nat, ts: int)
    ensures var a := OnShutter(cfg, t, f, ts); Told(a.client, HandedFor(a.handed, f), t.flushing)
  {
    if InOrder(t, f) {
      var called := if cfg.hasShutterCb then [ShutterCb(f, t.pending[f].extras, ts)] else [];
      var d := Expose(cfg, t, f, ts);
      var left := Retire(d.tracker, f);
      ExposeTold(cfg, t, f, ts);
      RetireTold(d.tracker, f);
      HandedTwice(d.handed, left.handed, f);
      ToldAmong(called, d.client, left.client, [], HandedFor(d.handed, f), HandedFor(left.handed, f), t.flushing);
      assert called + d.client + left.client + [] == called + d.client + left.client;
    } else {
      SilentReports(OnShutter(cfg, t, f, ts).client);
    }
  }

  /**
   Whatever a result or a shutter hands over, at once or from what was parked, by delivery or by removal: the client is
   told of each failed buffer in it exactly once, and of none during a flush.
   */
  lemma {:induction false} EachFailureTold(cfg: Config, t: Tracker, ev: Event, f: nat)
    requires FrameOf(ev) == Some(f) && (ev.Result? || ev.Shutter?)
    ensures var a := Step(cfg, t, ev);
            Reports(a.client) == if t.flushing then 0 else Failures(HandedFor(a.handed, f))
  {
    if ev.Result? { ResultTold(cfg, t, ev.result); } else { ShutterTold(cfg, t, f, ev.timestamp); }
  }

  // ---------------------------------------------------------------- failed buffers and their frame

  /** The message hands failed buffers of the frame to their streams, its own or parked ones. */
  predicate HandsFailed(t: Tracker, f: nat, ev: Event)
    requires f in t.pending
  {
    if ev.Shutter? then Failures(t.pending[f].parked) > 0
    else ev.Result? && 0 < t.pending[f].shutterTS && Failures(ev.result.outputs) > 0
  }

  lemma {:induction false} FailuresAreErrors(bufs: seq<Buffer>)
    ensures Failures(bufs) > 0 <==> HasError(bufs)
  {
    if bufs != [] {
      var init := bufs[..|bufs| - 1];
      FailuresAreErrors(init);
      assert bufs == init + [bufs[|bufs| - 1]];
    }
  }

  lemma {:induction false} IntakeKeeps(cfg: Config, e: Pending, r: HalResult)
    requires TakeIn(cfg, e, r).Accepted?
    ensures var e' := TakeIn(cfg, e, r).entry;
            && e'.status == e.status && e'.shutterTS == e.shutterTS
            && e'.remaining == e.remaining - |r.outputs| - InputCount(r)
            && e'.metaPresent == (e.metaPresent || IsFinal(cfg, r))
  {
  }

  lemma {:induction false} DispatchRecords(cfg: Config, t: Tracker, r: HalResult)
    requires Counted(cfg, t, r)
    ensures var intake := TakeIn(cfg, t.pending[r.frame], r);
            var d := Dispatch(cfg, t, intake.entry, intake.collected, r);
            var e, e' := t.pending[r.frame], d.tracker.pending[r.frame];
            && e'.status == (if HandsFailed(t, r.frame, Result(r)) && !t.flushing then 4 else e.status)
            && e'.remaining == LeftAfter(t, r.frame, Result(r)) && e'.shutterTS == e.shutterTS
            && e'.metaPresent == (e.metaPresent || IsFinal(cfg, r)) && d.tracker.failed == t.failed
  {
    IntakeKeeps(cfg, t.pending[r.frame], r);
    FailuresAreErrors(r.outputs);
  }

  /** What the removal makes of an entry. */
  lemma {:induction false} RetireDecides(t: Tracker, f: nat)
    requires f in t.pending
    ensures var e, t' := t.pending[f], Retire(t, f).tracker;
            && (f in t'.pending <==> !(e.remaining == 0 && (e.status != 0 || (e.metaPresent && e.shutterTS != 0))))
            && (f in t'.pending ==> t' == t)
            && (f !in t'.pending ==>
                  (e.status != 0 && !(e.metaPresent && e.shutterTS != 0) ==> f in t'.failed)
                  && (e.metaPresent && e.shutterTS != 0 ==> t'.failed == t.failed))
  {
  }

  /**
   A failed buffer puts its frame in error as it is handed over: the frame stays in error, or, if nothing more is to
   come, it leaves even without its metadata, and what is still sent for it will be ignored. Without a failure, or
   during a flush, nothing of this happens: the frame leaves when it has all, or if it was in error before.
   */
  lemma {:induction false} FailurePutsInError(cfg: Config, t: Tracker, f: nat, ev: Event)
    requires f in t.pending && Adds(cfg, t, f, ev)
    ensures var t', e := Step(cfg, t, ev).tracker, t.pending[f];
            var status := if HandsFailed(t, f, ev) && !t.flushing then 4 else e.status;
            var all := (e.metaPresent || (ev.Result? && IsFinal(cfg, ev.result)))
                       && (if ev.Shutter? then ev.timestamp else e.shutterTS) != 0;
            && (f in t'.pending <==> !(LeftAfter(t, f, ev) == 0 && (status != 0 || all)))
            && (f in t'.pending ==> t'.pending[f].status == status)
            && (f !in t'.pending && !all ==> f in t'.failed)
  {
    match ev
    case Result(r) =>
      var intake := TakeIn(cfg, t.pending[f], r);
      DispatchRecords(cfg, t, r);
      RetireDecides(Dispatch(cfg, t, intake.entry, intake.collected, r).tracker, f);
    case Shutter(_, ts) =>
      FailuresAreErrors(t.pending[f].parked);
      RetireDecides(Expose(cfg, t, f, ts).tracker, f);
  }

  // ---------------------------------------------------------------- too many buffers

  /** A result with nothing wrong but that it brings more buffers than are to come. */
  predicate BringsTooMany(cfg: Config, t: Tracker, r: HalResult) {
    && r.frame in t.pending && |r.outputs| + InputCount(r) > t.pending[r.frame].remaining
    && (r.meta.Some? ==> 1 <= r.partial <= if cfg.partialCount > 1 then cfg.partialCount else 1)
    && (IsFinal(cfg, r) ==> !t.pending[r.frame].metaPresent)
  }

  /** Its buffers are neither handed over nor parked, and are counted all the same. */
  lemma {:induction false} TooManyRefused(cfg: Config, t: Tracker, r: HalResult)
    requires BringsTooMany(cfg, t, r) && (r.meta.Some? || r.outputs != [] || r.input.Some?)
    ensures var a, e := OnResult(cfg, t, r), t.pending[r.frame];
            && a.handed == [] && DeviceError(r.frame) in a.client && r.frame in a.tracker.pending
            && a.tracker.pending[r.frame].remaining == e.remaining - |r.outputs| - InputCount(r) < 0
            && a.tracker.pending[r.frame].parked == e.parked
  {
    var outs := OnResult(cfg, t, r).client;
    assert outs[|outs| - 1] == DeviceError(r.frame);
  }

  predicate Overdrawn(t: Tracker, f: nat) { f in t.pending && t.pending[f].remaining < 0 }

  lemma {:induction false} StaysOverdrawn(cfg: Config, t: Tracker, ev: Event, f: nat)
    requires Overdrawn(t, f) && (ev.Mark? ==> ev.frame != f)
    ensures Overdrawn(Step(cfg, t, ev).tracker, f)
  {
    if FrameOf(ev) != Some(f) { OtherFrames(cfg, t, ev, f); }
  }

  /** Such a frame never leaves, unless its number is marked again: not even an error or a flush removes it. */
  lemma {:induction false} OverdrawnForEver(cfg: Config, h: History, evs: seq<Event>, f: nat)
    requires Overdrawn(h.tracker, f) && NotMarked(evs, f)
    ensures Overdrawn(RunFrom(cfg, h, evs).tracker, f)
  {
    if evs != [] {
      OverdrawnForEver(cfg, h, evs[..|evs| - 1], f);
      StaysOverdrawn(cfg, RunFrom(cfg, h, evs[..|evs| - 1]).tracker, evs[|evs| - 1], f);
    }
  }

  // ---------------------------------------------------------------- flushes

  /** What was said last about a flush. */
  function LastFlush(evs: seq<Event>): bool {
    if evs == [] then false
    else if evs[|evs| - 1].Flushing? then evs[|evs| - 1].on else LastFlush(evs[..|evs| - 1])
  }

  lemma {:induction false} StepFlush(cfg: Config, t: Tracker, ev: Event)
    ensures Step(cfg, t, ev).tracker.flushing == if ev.Flushing? then ev.on else t.flushing
  {
  }

  lemma {:induction false} FlushLasts(cfg: Config, evs: seq<Event>)
    ensures Run(cfg, evs).tracker.flushing == LastFlush(evs)
  {
    if evs != [] {
      FlushLasts(cfg, evs[..|evs| - 1]);
      StepFlush(cfg, Run(cfg, evs[..|evs| - 1]).tracker, evs[|evs| - 1]);
    }
  }
}
