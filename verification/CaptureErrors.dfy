/**
 Errors in flight: a frame reported in error leaves with its last buffer, hands over everything it received, and what
 the HAL still sends for it is ignored; and whatever the tracker refuses it reports.
 */
module CaptureErrors {
  import opened Common
  import opened CaptureTracker
  import opened CaptureRuns

  /** The codes that concern a frame. */
  predicate IsFrameError(code: int) {
    code == MSG_ERROR_REQUEST || code == MSG_ERROR_RESULT || code == MSG_ERROR_BUFFER
  }

  predicate InError(t: Tracker, f: nat) { f in t.pending && t.pending[f].status != 0 }

  /** The message adds to a frame: a result that is counted, or a shutter in order. */
  predicate Adds(cfg: Config, t: Tracker, f: nat, ev: Event) {
    match ev
    case Result(r) => r.frame == f && Counted(cfg, t, r)
    case Shutter(g, _) => g == f && InOrder(t, f)
    case _ => false
  }

  /** An error puts a frame in flight in error, and leaves everything else. */
  lemma {:induction false} ErrorRecorded(cfg: Config, t: Tracker, f: nat, code: int)
    requires f in t.pending && IsFrameError(code)
    ensures var a := Step(cfg, t, Error(f, code));
            && InError(a.tracker, f) && a.tracker.pending[f] == t.pending[f].(status := code)
            && a.tracker.(pending := t.pending) == t && a.tracker.pending - {f} == t.pending - {f} && a.handed == []
  {
  }

  /** Who is told: the client, once, what kind of error it is and of which request, unless a flush is under way. */
  lemma {:induction false} ErrorTold(cfg: Config, t: Tracker, f: nat, code: int)
    requires IsFrameError(code)
    ensures var outs := Step(cfg, t, Error(f, code)).client;
            if t.flushing then outs == []
            else
              && |outs| == 1 && outs[0].ErrorCb? && outs[0].frame == f
              && (outs[0].code.ErrorRequest? <==> code == 2) && (outs[0].code.ErrorResult? <==> code == 3)
              && (outs[0].code.ErrorBuffer? <==> code == 4)
              && outs[0].known == if f in t.pending then Some(t.pending[f].extras) else None
  {
  }

  /** A frame in error stays so until it leaves. */
  lemma {:induction false} StaysInError(cfg: Config, t: Tracker, ev: Event, f: nat)
    requires InError(t, f) && (ev.Mark? ==> ev.frame != f)
    ensures var t' := Step(cfg, t, ev).tracker; f in t'.pending ==> InError(t', f)
  {
    if FrameOf(ev) != Some(f) {
      OtherFrames(cfg, t, ev, f);
    } else if ev.Result? && Counted(cfg, t, ev.result) {
      AcceptedStaysInError(cfg, t, ev.result);
    }
  }

  lemma {:induction false} AcceptedStaysInError(cfg: Config, t: Tracker, r: HalResult)
    requires InError(t, r.frame) && Counted(cfg, t, r)
    ensures var t' := OnResult(cfg, t, r).tracker; r.frame in t'.pending ==> InError(t', r.frame)
  {
    var intake := TakeIn(cfg, t.pending[r.frame], r);
    IntakeInError(cfg, t.pending[r.frame], r);
    var d := Dispatch(cfg, t, intake.entry, intake.collected, r);
    assert d.tracker.pending[r.frame].status != 0;
  }

  /** What remains to come after a message that adds to a frame. */
  function LeftAfter(t: Tracker, f: nat, ev: Event): int
    requires f in t.pending
  {
    t.pending[f].remaining - if ev.Result? then |ev.result.outputs| + InputCount(ev.result) else 0
  }

  /**
   A frame in error leaves with the message after which nothing remains to come: all that was parked and all that came
   with the message is handed over, in order; and if its shutter or its metadata has not come, it is remembered.
   */
  lemma {:induction false} ErrorLeaves(cfg: Config, t: Tracker, f: nat, ev: Event)
    requires InError(t, f) && Adds(cfg, t, f, ev) && LeftAfter(t, f, ev) == 0
    requires var e := t.pending[f]; 0 <= e.shutterTS && (e.shutterTS != 0 ==> e.parked == [])
    ensures var a, e := Step(cfg, t, ev), t.pending[f];
            var outputs := if ev.Result? then ev.result.outputs else [];
            var complete := (e.metaPresent || (ev.Result? && IsFinal(cfg, ev.result)))
                            && (if ev.Shutter? then ev.timestamp else e.shutterTS) != 0;
            && f !in a.tracker.pending
            && HandedFor(a.handed, f) == e.parked + outputs
            && (f in a.tracker.failed <==> f in t.failed || !complete)
  {
    match ev
    case Result(r) => ErrorLeavesByResult(cfg, t, r);
    case Shutter(_, ts) => ErrorLeavesByShutter(cfg, t, f, ts);
  }

  lemma {:induction false} IntakeInError(cfg: Config, e: Pending, r: HalResult)
    requires e.status != 0 && TakeIn(cfg, e, r).Accepted?
    ensures var e' := TakeIn(cfg, e, r).entry;
            && e'.status == e.status && e'.parked == e.parked && e'.shutterTS == e.shutterTS
            && e'.remaining == e.remaining - |r.outputs| - InputCount(r)
            && e'.metaPresent == (e.metaPresent || IsFinal(cfg, r))
  {
  }

  /** Before an entry in error is removed: what a counted result has done to it and handed over. */
  lemma {:induction false} AcceptedInError(cfg: Config, t: Tracker, r: HalResult)
    requires InError(t, r.frame) && Counted(cfg, t, r)
    requires var e := t.pending[r.frame]; 0 <= e.shutterTS && (e.shutterTS != 0 ==> e.parked == [])
    ensures var e, intake := t.pending[r.frame], TakeIn(cfg, t.pending[r.frame], r);
            var d := Dispatch(cfg, t, intake.entry, intake.collected, r);
            var e' := d.tracker.pending[r.frame];
            && e'.status != 0 && e'.remaining == LeftAfter(t, r.frame, Result(r)) && e'.shutterTS == e.shutterTS
            && e'.metaPresent == (e.metaPresent || IsFinal(cfg, r)) && d.tracker.failed == t.failed
            && HandedFor(d.handed, r.frame) + e'.parked == e.parked + r.outputs && |d.handed| <= 1
  {
    var e := t.pending[r.frame];
    IntakeInError(cfg, e, r);
    assert [] + r.outputs == r.outputs == r.outputs + [] && [] + (e.parked + r.outputs) == e.parked + r.outputs;
  }

  /** Its removal. */
  lemma {:induction false} RetiredInError(t: Tracker, f: nat)
    requires InError(t, f) && t.pending[f].remaining == 0
    ensures var a, e := Retire(t, f), t.pending[f];
            && f !in a.tracker.pending && HandedFor(a.handed, f) == e.parked
            && (f in a.tracker.failed <==> f in t.failed || !e.metaPresent || e.shutterTS == 0)
  {
    assert HandedFor([Handover(f, t.pending[f].parked, 0)], f) == t.pending[f].parked + HandedFor([], f);
  }

  lemma {:induction false} ErrorLeavesByResult(cfg: Config, t: Tracker, r: HalResult)
    requires InError(t, r.frame) && Counted(cfg, t, r) && LeftAfter(t, r.frame, Result(r)) == 0
    requires var e := t.pending[r.frame]; 0 <= e.shutterTS && (e.shutterTS != 0 ==> e.parked == [])
    ensures var a, e := OnResult(cfg, t, r), t.pending[r.frame];
            && r.frame !in a.tracker.pending
            && HandedFor(a.handed, r.frame) == e.parked + r.outputs
            && (r.frame in a.tracker.failed
                <==> r.frame in t.failed || !(e.metaPresent || IsFinal(cfg, r)) || e.shutterTS == 0)
  {
    var intake := TakeIn(cfg, t.pending[r.frame], r);
    var d := Dispatch(cfg, t, intake.entry, intake.collected, r);
    AcceptedInError(cfg, t, r);
    RetiredInError(d.tracker, r.frame);
    HandedTwice(d.handed, Retire(d.tracker, r.frame).handed, r.frame);
  }

  lemma {:induction false} HandedTwice(a: seq<Handover>, b: seq<Handover>, f: nat)
    requires |a| <= 1
    ensures HandedFor(a + b, f) == HandedFor(a, f) + HandedFor(b, f)
  {
    if a != [] { assert (a + b)[1..] == b; } else { assert a + b == b; }
  }

  lemma {:induction false} ErrorLeavesByShutter(cfg: Config, t: Tracker, f: nat, ts: int)
    requires InError(t, f) && InOrder(t, f) && t.pending[f].remaining == 0
    ensures var a, e := OnShutter(cfg, t, f, ts), t.pending[f];
            && f !in a.tracker.pending && HandedFor(a.handed, f) == e.parked
            && (f in a.tracker.failed <==> f in t.failed || !e.metaPresent || ts == 0)
  {
    var d := Expose(cfg, t, f, ts);
    RetiredInError(d.tracker, f);
    HandedTwice(d.handed, Retire(d.tracker, f).handed, f);
    assert t.pending[f].parked + [] == t.pending[f].parked;
  }

  /** What still comes for a frame that left in error is ignored once, and then it is unknown like any other. */
  lemma {:induction false} LateIgnored(cfg: Config, t: Tracker, r: HalResult)
    requires r.frame in t.failed && r.frame !in t.pending && WellFormed(cfg, r)
    ensures var a := OnResult(cfg, t, r);
            && a == After(t.(failed := t.failed - {r.frame}), [], [])
            && OnResult(cfg, a.tracker, r) == After(a.tracker, [DeviceError(r.frame)], [])
  {
  }

  // ---------------------------------------------------------------- runs

  predicate NotMarked(evs: seq<Event>, f: nat) { forall ev | ev in evs && ev.Mark? :: ev.frame != f }

  /** Something was added to the frame in the second part of a run. */
  predicate Heard(cfg: Config, before: seq<Event>, f: nat, evs: seq<Event>) {
    evs != [] && var init, ev := evs[..|evs| - 1], evs[|evs| - 1];
    Heard(cfg, before, f, init) || Adds(cfg, Run(cfg, before + init).tracker, f, ev)
  }

  /** Still in flight, with more to come or nothing heard of since. */
  predicate Lingers(t: Tracker, f: nat, heard: bool) { InError(t, f) && (heard ==> t.pending[f].remaining > 0) }

  /** A message that adds nothing leaves what remains to come, or is refused for bringing too much. */
  lemma {:induction false} LingersOn(cfg: Config, h: History, ev: Event, f: nat, heard: bool)
    requires Conserved(h) && Fair(cfg, h.tracker, ev) && Lingers(h.tracker, f, heard) && (ev.Mark? ==> ev.frame != f)
    ensures var t' := Step(cfg, h.tracker, ev).tracker;
            f in t'.pending ==> Lingers(t', f, heard || Adds(cfg, h.tracker, f, ev))
  {
    var t := h.tracker;
    StaysInError(cfg, t, ev, f);
    assert InBooks(t, f, h.ledgers[f]);
    if FrameOf(ev) != Some(f) {
      OtherFrames(cfg, t, ev, f);
    } else if Adds(cfg, t, f, ev) {
      if LeftAfter(t, f, ev) == 0 { ErrorLeaves(cfg, t, f, ev); } else { AddedLeaves(cfg, t, f, ev); }
    }
  }

  lemma {:induction false} AddedLeaves(cfg: Config, t: Tracker, f: nat, ev: Event)
    requires f in t.pending && Adds(cfg, t, f, ev)
    ensures var t' := Step(cfg, t, ev).tracker; f in t'.pending ==> t'.pending[f].remaining == LeftAfter(t, f, ev)
  {
    if ev.Result? { assert TakeIn(cfg, t.pending[f], ev.result).entry.remaining == LeftAfter(t, f, ev); }
  }

  /**
   Over whole runs: once a frame in flight is reported in error, then whatever happens to it and to others, it is in
   flight only as long as something of it is still to come, or nothing was heard of it since; and once it has left,
   every output received for it was handed over exactly once.
   */
  lemma {:induction false} ErrorEnds(cfg: Config, before: seq<Event>, f: nat, code: int, after: seq<Event>)
    requires FairRun(cfg, before + [Error(f, code)] + after) && NotMarked(after, f)
    requires f in Run(cfg, before).tracker.pending && IsFrameError(code)
    ensures var h := Run(cfg, before + [Error(f, code)] + after);
            && (f in h.tracker.pending ==> Lingers(h.tracker, f, Heard(cfg, before + [Error(f, code)], f, after)))
            && (f !in h.tracker.pending ==> f in h.ledgers && Settled(h.ledgers[f]))
  {
    RunConserves(cfg, before + [Error(f, code)] + after);
    assert before + ([Error(f, code)] + after) == before + [Error(f, code)] + after;
    LedgerStays(cfg, before, [Error(f, code)] + after, f);
    LingersInRun(cfg, before, f, code, after);
  }

  lemma {:induction false} LingersInRun(cfg: Config, before: seq<Event>, f: nat, code: int, after: seq<Event>)
    requires FairRun(cfg, before + [Error(f, code)] + after) && NotMarked(after, f)
    requires f in Run(cfg, before).tracker.pending && IsFrameError(code)
    ensures var h := Run(cfg, before + [Error(f, code)] + after);
            f in h.tracker.pending ==> Lingers(h.tracker, f, Heard(cfg, before + [Error(f, code)], f, after))
  {
    var start := before + [Error(f, code)];
    if after == [] {
      RunAdds(cfg, before, Error(f, code));
      ErrorRecorded(cfg, Run(cfg, before).tracker, f, code);
      assert start + [] == start;
    } else {
      var init, ev := after[..|after| - 1], after[|after| - 1];
      assert start + after == start + init + [ev] && (start + init + [ev])[..|start + init|] == start + init;
      assert ev in after && forall x | x in init :: x in after;
      LingersInRun(cfg, before, f, code, init);
      RunConserves(cfg, start + init);
      RunAdds(cfg, start + init, ev);
      var h := Run(cfg, start + init);
      if f in h.tracker.pending {
        LingersOn(cfg, h, ev, f, Heard(cfg, start, f, init));
      } else {
        NotBack(cfg, h.tracker, ev, f);
      }
    }
  }

  /** Only a mark puts a frame in flight. */
  lemma {:induction false} NotBack(cfg: Config, t: Tracker, ev: Event, f: nat)
    requires f !in t.pending && (ev.Mark? ==> ev.frame != f)
    ensures f !in Step(cfg, t, ev).tracker.pending
  {
    if FrameOf(ev) != Some(f) { OtherFrames(cfg, t, ev, f); }
  }

  /** Books, once opened, stay. */
  lemma {:induction false} LedgerStays(cfg: Config, before: seq<Event>, evs: seq<Event>, f: nat)
    requires FairRun(cfg, before + evs) && f in Run(cfg, before).tracker.pending
    ensures f in Run(cfg, before + evs).ledgers
  {
    if evs == [] {
      assert before + evs == before;
      RunConserves(cfg, before);
    } else {
      var init, ev := evs[..|evs| - 1], evs[|evs| - 1];
      assert before + evs == before + init + [ev] && (before + init + [ev])[..|before + init|] == before + init;
      LedgerStays(cfg, before, init, f);
      RunAdds(cfg, before + init, ev);
    }
  }

  // ---------------------------------------------------------------- refusals

  /** A result that is not counted is reported, unless it is late for a frame that left in error. */
  lemma {:induction false} NoSilentRefusal(cfg: Config, t: Tracker, r: HalResult)
    requires !Counted(cfg, t, r)
    ensures var a := OnResult(cfg, t, r);
            DeviceError(r.frame) in a.client <==> !(WellFormed(cfg, r) && r.frame !in t.pending && r.frame in t.failed)
  {
    if r.frame in t.pending && WellFormed(cfg, r) {
      var outs := TakeIn(cfg, t.pending[r.frame], r).outs;
      assert outs[|outs| - 1] == DeviceError(r.frame);
    }
  }

  /** A shutter of an unknown frame, or out of order, is reported and exposes nothing. */
  lemma {:induction false} ShutterRefused(cfg: Config, t: Tracker, f: nat, ts: int)
    ensures var a := OnShutter(cfg, t, f, ts);
            !InOrder(t, f) ==> a.tracker == t && a.handed == [] && DeviceError(f) in a.client
  {
    var a := OnShutter(cfg, t, f, ts);
    if !InOrder(t, f) { assert a.client[|a.client| - 1] == DeviceError(f); }
  }

  /** A frame without an error whose metadata has another time than its shutter is reported as it leaves. */
  lemma {:induction false} MismatchReported(t: Tracker, f: nat)
    requires f in t.pending && f !in Retire(t, f).tracker.pending
    ensures DeviceError(f) in Retire(t, f).client
       <==> t.pending[f].status == 0 && t.pending[f].sensorTS != t.pending[f].shutterTS
  {
  }

  /** A final result is delivered if and only if it is in order and has a timestamp; otherwise it is reported. */
  lemma {:induction false} DeliveredIff(cfg: Config, next: Cursors, final: Metadata, extras: Extras, partials: Metadata,
                                        f: nat)
    requires cfg.hasResultCb && final != []
    ensures var outs := SentOutputs(cfg, next, final, extras, partials, f);
            && |outs| == 1 && (outs[0].ResultCb? || outs[0] == DeviceError(f))
            && (outs[0].ResultCb? <==>
                  next.At(extras.input) <= f && Find(Merged(cfg, final, partials, f), SensorTimestamp) != [])
  {
  }
}
