/**
 Buffer conservation over every run of the capture tracker, errors and flushes included.
 */
module CaptureRuns {
  import opened Common
  import opened CaptureTracker

  /** What the outside world can count for a frame since it was last marked. */
  datatype Ledger = Ledger(marked: nat, received: seq<Buffer>, handed: seq<Buffer>, inputs: nat)

  /** A tracker together with the history that led to it. */
  datatype History = History(tracker: Tracker, ledgers: map<nat, Ledger>, client: seq<Output>, handed: seq<Handover>)

  const START := History(NEW_TRACKER, map[], [], [])

  /** Output buffers handed over for a frame, in order. */
  function HandedFor(hs: seq<Handover>, frame: nat): seq<Buffer> {
    if hs == [] then []
    else (if hs[0].frame == frame then hs[0].buffers else []) + HandedFor(hs[1..], frame)
  }

  function Receipt(l: Ledger, r: HalResult): Ledger {
    l.(received := l.received + r.outputs, inputs := l.inputs + InputCount(r))
  }

  function HandOver(l: Ledger, hs: seq<Handover>, frame: nat): Ledger {
    l.(handed := l.handed + HandedFor(hs, frame))
  }

  function Booked(cfg: Config, t: Tracker, ledgers: map<nat, Ledger>, ev: Event): map<nat, Ledger> {
    match ev
    case Mark(frame, buffers, _) => ledgers[frame := Ledger(buffers, [], [], 0)]
    case Result(r) =>
      if Counted(cfg, t, r) && r.frame in ledgers then ledgers[r.frame := Receipt(ledgers[r.frame], r)] else ledgers
    case _ => ledgers
  }

  function Advance(cfg: Config, h: History, ev: Event): History {
    var a := Step(cfg, h.tracker, ev);
    var booked := Booked(cfg, h.tracker, h.ledgers, ev);
    History(a.tracker, map f | f in booked :: HandOver(booked[f], a.handed, f),
            h.client + a.client, h.handed + a.handed)
  }

  function RunFrom(cfg: Config, h: History, evs: seq<Event>): History {
    if evs == [] then h else Advance(cfg, RunFrom(cfg, h, evs[..|evs| - 1]), evs[|evs| - 1])
  }

  function Run(cfg: Config, evs: seq<Event>): History { RunFrom(cfg, START, evs) }

  /**
   What is asked of the HAL and of the request handler: a number in flight is not marked again,
   a frame does not get more buffers than it was marked with, and a shutter time is not negative.
   */
  predicate Fair(cfg: Config, t: Tracker, ev: Event) {
    match ev
    case Mark(frame, _, _) => frame !in t.pending
    case Result(r) => r.frame in t.pending ==> |r.outputs| + InputCount(r) <= t.pending[r.frame].remaining
    case Shutter(_, ts) => ts >= 0
    case _ => true
  }

  predicate FairRun(cfg: Config, evs: seq<Event>) {
    evs == [] || (FairRun(cfg, evs[..|evs| - 1])
                  && Fair(cfg, Run(cfg, evs[..|evs| - 1]).tracker, evs[|evs| - 1]))
  }

  // ---------------------------------------------------------------- locality

  function FrameOf(ev: Event): Option<nat> {
    match ev
    case Mark(g, _, _) => Some(g)
    case Result(r) => Some(r.frame)
    case Shutter(g, _) => Some(g)
    case Error(g, _) => Some(g)
    case Flushing(_) => None
  }

  /** Only `frame` may differ, and every effect concerns it. */
  predicate Local(t: Tracker, a: After, frame: nat) {
    && a.tracker.pending - {frame} == t.pending - {frame}
    && (forall o | o in a.client :: o.frame == frame)
    && (forall h | h in a.handed :: h.frame == frame)
  }

  lemma {:induction false} RetireIsLocal(t: Tracker, frame: nat)
    requires frame in t.pending
    ensures Local(t, Retire(t, frame), frame)
  {
  }

  lemma {:induction false} DispatchIsLocal(cfg: Config, t: Tracker, e: Pending, collected: Metadata, r: HalResult)
    ensures Local(t, Dispatch(cfg, t, e, collected, r), r.frame)
  {
  }

  /** Two local steps in a row, with more callbacks for the same frame around them. */
  lemma {:induction false} LocalTwice(t: Tracker, a: After, b: After, c: After, frame: nat)
    requires Local(t, a, frame) && Local(a.tracker, b, frame)
    requires c.tracker == b.tracker && c.handed == a.handed + b.handed
    requires forall o | o in c.client :: o.frame == frame
    ensures Local(t, c, frame)
  {
  }

  lemma {:induction false} AcceptIsLocal(cfg: Config, t: Tracker, intake: Intake, r: HalResult)
    requires intake.Accepted? && forall o | o in intake.outs :: o.frame == r.frame
    ensures Local(t, Accept(cfg, t, intake, r), r.frame)
  {
    var d := Dispatch(cfg, t, intake.entry, intake.collected, r);
    DispatchIsLocal(cfg, t, intake.entry, intake.collected, r);
    RetireIsLocal(d.tracker, r.frame);
    LocalTwice(t, d, Retire(d.tracker, r.frame), Accept(cfg, t, intake, r), r.frame);
  }

  lemma {:induction false} IntakeIsLocal(cfg: Config, e: Pending, r: HalResult)
    ensures forall o | o in TakeIn(cfg, e, r).outs :: o.frame == r.frame
  {
  }

  lemma {:induction false} ResultIsLocal(cfg: Config, t: Tracker, r: HalResult)
    ensures Local(t, OnResult(cfg, t, r), r.frame)
  {
    if WellFormed(cfg, r) && r.frame in t.pending {
      var intake := TakeIn(cfg, t.pending[r.frame], r);
      IntakeIsLocal(cfg, t.pending[r.frame], r);
      if intake.Accepted? { AcceptIsLocal(cfg, t, intake, r); }
    }
  }

  lemma {:induction false} ExposeIsLocal(cfg: Config, t: Tracker, frame: nat, ts: int)
    requires frame in t.pending
    ensures Local(t, Expose(cfg, t, frame, ts), frame)
  {
  }

  lemma {:induction false} ShutterIsLocal(cfg: Config, t: Tracker, frame: nat, ts: int)
    ensures Local(t, OnShutter(cfg, t, frame, ts), frame)
  {
    if InOrder(t, frame) {
      var d := Expose(cfg, t, frame, ts);
      ExposeIsLocal(cfg, t, frame, ts);
      RetireIsLocal(d.tracker, frame);
      LocalTwice(t, d, Retire(d.tracker, frame), OnShutter(cfg, t, frame, ts), frame);
    }
  }

  lemma {:induction false} StepIsLocal(cfg: Config, t: Tracker, ev: Event)
    requires FrameOf(ev).Some?
    ensures Local(t, Step(cfg, t, ev), FrameOf(ev).value)
  {
    match ev
    case Result(r) => ResultIsLocal(cfg, t, r);
    case Shutter(frame, ts) => ShutterIsLocal(cfg, t, frame, ts);
    case _ =>
  }

  lemma {:induction false} NothingHanded(hs: seq<Handover>, f: nat)
    requires forall h | h in hs :: h.frame != f
    ensures HandedFor(hs, f) == []
  {
    if hs != [] { NothingHanded(hs[1..], f); }
  }

  /** An event leaves every other frame's entry as it is and has no effect that concerns it. */
  lemma {:induction false} OtherFrames(cfg: Config, t: Tracker, ev: Event, f: nat)
    requires FrameOf(ev) != Some(f)
    ensures var a := Step(cfg, t, ev);
            && (f in t.pending <==> f in a.tracker.pending)
            && (f in t.pending ==> a.tracker.pending[f] == t.pending[f])
            && (forall o | o in a.client :: o.frame != f)
            && HandedFor(a.handed, f) == []
  {
    var a := Step(cfg, t, ev);
    if FrameOf(ev).Some? {
      var g := FrameOf(ev).value;
      StepIsLocal(cfg, t, ev);
      NothingHanded(a.handed, f);
      assert f in t.pending - {g} <==> f in a.tracker.pending - {g};
      if f in t.pending { assert (t.pending - {g})[f] == (a.tracker.pending - {g})[f]; }
    }
  }

  // ---------------------------------------------------------------- conservation

  /** An entry in flight: everything received is handed over or parked, in order of arrival, and the counts add up. */
  predicate Balanced(e: Pending, l: Ledger) {
    && 0 <= e.remaining
    && 0 <= e.shutterTS
    && l.marked == e.remaining + |e.parked| + |l.handed| + l.inputs
    && l.received == l.handed + e.parked
    && (e.shutterTS != 0 ==> e.parked == [])
  }

  /** A frame that left: nothing remains and every received output was handed over exactly once. */
  predicate Settled(l: Ledger) {
    && l.marked == |l.handed| + l.inputs
    && l.received == l.handed
  }

  predicate InBooks(t: Tracker, frame: nat, l: Ledger) {
    if frame in t.pending then Balanced(t.pending[frame], l) else Settled(l)
  }

  predicate Conserved(h: History) {
    && h.tracker.pending.Keys <= h.ledgers.Keys
    && (forall f | f in h.ledgers :: InBooks(h.tracker, f, h.ledgers[f]))
  }

  /** Retiring hands over exactly what was parked, and only when nothing more is owed. */
  lemma {:induction false} RetireBalance(t: Tracker, frame: nat, l: Ledger)
    requires frame in t.pending && Balanced(t.pending[frame], l)
    ensures var a := Retire(t, frame); InBooks(a.tracker, frame, HandOver(l, a.handed, frame))
  {
    var a := Retire(t, frame);
    if Complete(t.pending[frame]) {
      assert HandedFor(a.handed, frame) == t.pending[frame].parked;
    } else {
      assert HandOver(l, a.handed, frame) == l;
    }
  }

  /** An accepted result parks its outputs, or hands them over, and nothing else. */
  lemma {:induction false} DispatchBalance(cfg: Config, t: Tracker, e: Pending, collected: Metadata, r: HalResult,
                                           l: Ledger)
    requires Balanced(e.(remaining := e.remaining + |r.outputs| + InputCount(r)), l)
    requires 0 <= e.remaining
    ensures var a := Dispatch(cfg, t, e, collected, r);
            Balanced(a.tracker.pending[r.frame], HandOver(Receipt(l, r), a.handed, r.frame))
  {
    var a := Dispatch(cfg, t, e, collected, r);
    assert HandedFor(a.handed, r.frame) == if e.shutterTS == 0 then [] else r.outputs;
    if e.shutterTS == 0 {
      assert l.handed + e.parked + r.outputs == l.handed + (e.parked + r.outputs);
    } else {
      assert l.handed + e.parked == l.handed;
    }
  }

  lemma {:induction false} IntakeBalance(cfg: Config, e: Pending, r: HalResult, l: Ledger)
    requires Balanced(e, l) && |r.outputs| + InputCount(r) <= e.remaining
    ensures var intake := TakeIn(cfg, e, r);
            && (intake.Rejected? ==> Balanced(intake.entry, l))
            && (intake.Accepted? ==>
                  && intake.entry.remaining == e.remaining - |r.outputs| - InputCount(r)
                  && Balanced(intake.entry.(remaining := e.remaining), l))
  {
  }

  lemma {:induction false} TwoHandovers(l: Ledger, a: seq<Handover>, b: seq<Handover>, f: nat)
    requires |a| <= 1
    ensures HandOver(l, a + b, f) == HandOver(HandOver(l, a, f), b, f)
  {
    if |a| == 1 {
      assert (a + b)[1..] == b;
    } else {
      assert a + b == b;
      assert l.handed + HandedFor(a, f) == l.handed;
    }
  }

  lemma {:induction false} CountedBalance(cfg: Config, t: Tracker, r: HalResult, l: Ledger)
    requires Counted(cfg, t, r) && Balanced(t.pending[r.frame], l)
    requires |r.outputs| + InputCount(r) <= t.pending[r.frame].remaining
    ensures var a := OnCounted(cfg, t, r); InBooks(a.tracker, r.frame, HandOver(Receipt(l, r), a.handed, r.frame))
  {
    IntakeBalance(cfg, t.pending[r.frame], r, l);
    var intake := TakeIn(cfg, t.pending[r.frame], r);
    var d := Dispatch(cfg, t, intake.entry, intake.collected, r);
    DispatchBalance(cfg, t, intake.entry, intake.collected, r, l);
    RetireBalance(d.tracker, r.frame, HandOver(Receipt(l, r), d.handed, r.frame));
    TwoHandovers(Receipt(l, r), d.handed, Retire(d.tracker, r.frame).handed, r.frame);
  }

  lemma {:induction false} ShutterBalance(cfg: Config, t: Tracker, f: nat, ts: int, l: Ledger)
    requires InOrder(t, f) && Balanced(t.pending[f], l) && ts >= 0
    ensures var a := OnShutter(cfg, t, f, ts); InBooks(a.tracker, f, HandOver(l, a.handed, f))
  {
    var d := Expose(cfg, t, f, ts);
    assert HandedFor(d.handed, f) == t.pending[f].parked;
    RetireBalance(d.tracker, f, HandOver(l, d.handed, f));
    TwoHandovers(l, d.handed, Retire(d.tracker, f).handed, f);
  }

  /** The frame an event is about stays in the books. */
  lemma {:induction false} OwnFrame(cfg: Config, t: Tracker, ev: Event, f: nat, l: Ledger)
    requires InBooks(t, f, l)
    requires Fair(cfg, t, ev) && FrameOf(ev) == Some(f) && !ev.Mark?
    ensures var a := Step(cfg, t, ev);
            var booked := if ev.Result? && Counted(cfg, t, ev.result) then Receipt(l, ev.result) else l;
            InBooks(a.tracker, f, HandOver(booked, a.handed, f))
  {
    var a := Step(cfg, t, ev);
    if ev.Result? && Counted(cfg, t, ev.result) {
      CountedBalance(cfg, t, ev.result, l);
    } else if ev.Shutter? && InOrder(t, f) {
      ShutterBalance(cfg, t, f, ev.timestamp, l);
    } else {
      assert a.handed == [] && HandOver(l, a.handed, f) == l;
      if ev.Result? && f in t.pending { IntakeBalance(cfg, t.pending[f], ev.result, l); }
    }
  }

  /** One fair event keeps every frame's books balanced. */
  lemma {:induction false} StepConserves(cfg: Config, h: History, ev: Event)
    requires Conserved(h) && Fair(cfg, h.tracker, ev)
    ensures Conserved(Advance(cfg, h, ev))
  {
    var h' := Advance(cfg, h, ev);
    forall f | f in h'.ledgers
      ensures InBooks(h'.tracker, f, h'.ledgers[f])
    {
      FrameConserves(cfg, h, ev, f);
    }
    forall f | f in h'.tracker.pending
      ensures f in h'.ledgers
    {
      if FrameOf(ev) != Some(f) { OtherFrames(cfg, h.tracker, ev, f); }
      assert f in h.tracker.pending || ev.Mark?;
    }
  }

  lemma {:induction false} FrameConserves(cfg: Config, h: History, ev: Event, f: nat)
    requires Conserved(h) && Fair(cfg, h.tracker, ev)
    requires f in Advance(cfg, h, ev).ledgers
    ensures InBooks(Advance(cfg, h, ev).tracker, f, Advance(cfg, h, ev).ledgers[f])
  {
    var h' := Advance(cfg, h, ev);
    if FrameOf(ev) != Some(f) {
      OtherFrames(cfg, h.tracker, ev, f);
      assert h'.ledgers[f] == h.ledgers[f];
    } else if !ev.Mark? {
      OwnFrame(cfg, h.tracker, ev, f, h.ledgers[f]);
    }
  }

  /**
   Conservation over whole runs, with errors and flushes: what a frame was marked with is still owed, parked,
   handed to a stream or accounted as input; after its shutter nothing is parked; and a frame that has
   left has handed over every output it received, each exactly once and in order of arrival.
   */
  lemma {:induction false} RunConserves(cfg: Config, evs: seq<Event>)
    requires FairRun(cfg, evs)
    ensures Conserved(Run(cfg, evs))
  {
    if evs != [] {
      RunConserves(cfg, evs[..|evs| - 1]);
      StepConserves(cfg, Run(cfg, evs[..|evs| - 1]), evs[|evs| - 1]);
    }
  }

  /**
   The sign of the shutter time matters: after a negative one a counted output is neither parked nor handed
   over, so the books stay balanced if and only if such results carry no outputs.
   */
  lemma {:induction false} NegativeShutterLosesOutputs(cfg: Config, t: Tracker, r: HalResult, l: Ledger)
    requires Counted(cfg, t, r)
    requires t.pending[r.frame].shutterTS < 0 && t.pending[r.frame].parked == [] && l.received == l.handed
    ensures var a := OnResult(cfg, t, r);
            var l' := HandOver(Receipt(l, r), a.handed, r.frame);
            && l'.handed == l.handed
            && (r.frame in a.tracker.pending ==> a.tracker.pending[r.frame].parked == [])
            && (l'.received == l'.handed <==> r.outputs == [])
  {
    AcceptHandsNothing(cfg, t, TakeIn(cfg, t.pending[r.frame], r), r);
  }

  lemma {:induction false} AcceptHandsNothing(cfg: Config, t: Tracker, intake: Intake, r: HalResult)
    requires intake.Accepted? && intake.entry.shutterTS < 0 && intake.entry.parked == []
    ensures var a := Accept(cfg, t, intake, r);
            && HandedFor(a.handed, r.frame) == []
            && (r.frame in a.tracker.pending ==> a.tracker.pending[r.frame].parked == [])
  {
    assert Dispatch(cfg, t, intake.entry, intake.collected, r).handed == [];
  }

  lemma {:induction false} RunAdds(cfg: Config, evs: seq<Event>, ev: Event)
    ensures Run(cfg, evs + [ev]) == Advance(cfg, Run(cfg, evs), ev)
  {
    assert (evs + [ev])[..|evs|] == evs;
  }

  /** The entry of a frame of one buffer, exposed at a negative time. */
  predicate ExposedBelowZero(h: History, extras: Extras) {
    && h.tracker.pending.Keys == {0} && h.tracker.pending[0] == FreshPending(1, extras).(shutterTS := -5)
    && h.ledgers == map[0 := Ledger(1, [], [], 0)] && HandedFor(h.handed, 0) == []
  }

  lemma {:induction false} ExposeBelowZero(cfg: Config, extras: Extras)
    ensures ExposedBelowZero(Run(cfg, [Mark(0, 1, extras)] + [Shutter(0, -5)]), extras)
  {
    RunAdds(cfg, [], Mark(0, 1, extras));
    assert [] + [Mark(0, 1, extras)] == [Mark(0, 1, extras)];
    RunAdds(cfg, [Mark(0, 1, extras)], Shutter(0, -5));
    var h := Run(cfg, [Mark(0, 1, extras)]);
    assert h.tracker.pending == map[0 := FreshPending(1, extras)] && h.ledgers == map[0 := Ledger(1, [], [], 0)];
    var a := OnShutter(cfg, h.tracker, 0, -5);
    assert a.handed == [Handover(0, [], -5)];
    assert HandedFor(a.handed, 0) == [] + HandedFor([], 0);
  }

  /** A run that loses a buffer: a frame of one buffer, a negative shutter time, and then the buffer. */
  lemma {:induction false} BufferLost(cfg: Config, extras: Extras, b: Buffer)
    ensures var h := Run(cfg, [Mark(0, 1, extras)] + [Shutter(0, -5)] + [Result(HalResult(0, None, 0, [b], None))]);
            && 0 in h.ledgers && h.ledgers[0] == Ledger(1, [b], [], 0) && HandedFor(h.handed, 0) == []
            && (0 in h.tracker.pending ==> h.tracker.pending[0].parked == [])
  {
    var evs, r := [Mark(0, 1, extras)] + [Shutter(0, -5)], HalResult(0, None, 0, [b], None);
    ExposeBelowZero(cfg, extras);
    RunAdds(cfg, evs, Result(r));
    var h := Run(cfg, evs);
    var intake := TakeIn(cfg, h.tracker.pending[0], r);
    assert intake.Accepted? && intake.entry.shutterTS == -5 && intake.entry.parked == [];
    AcceptHandsNothing(cfg, h.tracker, intake, r);
    HandedConcat(h.handed, Step(cfg, h.tracker, Result(r)).handed, 0);
  }

  lemma {:induction false} HandedConcat(a: seq<Handover>, b: seq<Handover>, f: nat)
    ensures HandedFor(a + b, f) == HandedFor(a, f) + HandedFor(b, f)
  {
    if a == [] {
      assert a + b == b;
    } else {
      assert (a + b)[1..] == a[1..] + b;
      HandedConcat(a[1..], b, f);
    }
  }
}
