/**
 The device as a whole: the request thread that takes buffers from the streams, the HAL that fills them, the tracker
 that hands them over, and the client that gives them back, in any order of steps. Every buffer that is out of a stream
 is in exactly one place, and the tracker's counts are those of the buffers it waits for.
 */
module DeviceRuns {
  import opened Common
  import opened CaptureTracker
  import CaptureRuns
  import P = StreamPool
  import Q = StreamRuns
  import opened BufferAcquisition

  /**
   Where a buffer is that is out: with the request thread, at the HAL for a frame, parked in the tracker, on its way to
   the client, at the client, on its way back, or given back by the HAL without the tracker taking it in.
   */
  datatype Place =
    | InHand
    | AtHal(frame: nat)
    | Parked(frame: nat)
    | Leaving
    | AtClient
    | Returning
    | Lost(frame: nat)

  type Places = map<Taken, Place>

  /** `inputs` are the frames whose input buffer is owed, `refused` those the HAL refused after they were marked. */
  datatype Device = Device(streams: Streams, tracker: Tracker, places: Places, inputs: set<nat>, refused: set<nat>)

  datatype Op =
    | StreamOp(stream: nat, call: P.Op)
    | Ask(from: nat, request: P.Op)
    | GiveUp
    | Register(frame: nat, extras: Extras, input: bool)
    | Refuse(refusedFrame: nat)
    | Tell(event: Event)
    | Deliver(filled: Taken, good: bool)
    | Back(taken: Taken)

  function Of(b: Buffer): Taken { Taken(b.stream, b.handle) }

  function TakenOf(bufs: seq<Buffer>): set<Taken> { set b | b in bufs :: Of(b) }

  predicate NoRepeat(bufs: seq<Buffer>) { forall i, j | 0 <= i < j < |bufs| :: Of(bufs[i]) != Of(bufs[j]) }

  function With(places: Places, p: Place): set<Taken> { set t | t in places && places[t] == p }

  /** Buffers the tracker waits for, whether or not the HAL still has them. */
  function Due(places: Places, f: nat): set<Taken> { With(places, AtHal(f)) + With(places, Lost(f)) }

  function Replace(places: Places, from: Place, to: Place): Places {
    map t | t in places :: if places[t] == from then to else places[t]
  }

  // ---------------------------------------------------------------- steps

  /** The handle a request comes by. */
  function Answered(s: P.Stream, op: P.Op): Option<P.Handle> {
    if P.Apply(s, op).code != P.OK then None
    else match op
      case GetBufferOp(got) => got
      case Resume(late) => late
      case _ => None
  }

  /** The stream is now `s`, and the buffer it gave, if any, is in hand. */
  function Came(d: Device, k: nat, s: P.Stream, got: Option<P.Handle>): Device {
    d.(streams := d.streams[k := s], places := if got.Some? then d.places[Taken(k, got.value) := InHand] else d.places)
  }

  function Asked(d: Device, k: nat, op: P.Op): Device
    requires k in d.streams
  {
    Came(d, k, P.Apply(d.streams[k], op).stream, Answered(d.streams[k], op))
  }

  function Outputs(ev: Event): seq<Buffer> { if ev.Result? then ev.result.outputs else [] }

  function ParkedIn(t: Tracker, f: nat): seq<Buffer> { if f in t.pending then t.pending[f].parked else [] }

  /** Buffers handed over leave, buffers parked stay, and what was brought and is neither is lost. */
  function Moved(places: Places, handed: set<Taken>, parked: set<Taken>, brought: set<Taken>, f: nat): Places {
    map t | t in places ::
      if t in handed then Leaving else if t in parked then Parked(f) else if t in brought then Lost(f) else places[t]
  }

  predicate CountsInput(cfg: Config, t: Tracker, ev: Event) {
    ev.Result? && ev.result.input.Some? && Counted(cfg, t, ev.result)
  }

  function Told(cfg: Config, d: Device, ev: Event): Device {
    var a := Step(cfg, d.tracker, ev);
    if CaptureRuns.FrameOf(ev).None? then d.(tracker := a.tracker)
    else
      var f := CaptureRuns.FrameOf(ev).value;
      d.(tracker := a.tracker,
         places := Moved(d.places, TakenOf(CaptureRuns.HandedFor(a.handed, f)), TakenOf(ParkedIn(a.tracker, f)),
                         TakenOf(Outputs(ev)), f),
         inputs := if CountsInput(cfg, d.tracker, ev) then d.inputs - {f} else d.inputs)
  }

  /** The stream of a buffer is now `s`. */
  function Sent(d: Device, t: Taken, s: P.Stream, to: Place): Device {
    d.(streams := d.streams[t.stream := s], places := d.places[t := to])
  }

  function Home(d: Device, t: Taken, s: P.Stream): Device {
    d.(streams := d.streams[t.stream := s], places := d.places - {t})
  }

  function Advance(cfg: Config, d: Device, op: Op): Device {
    match op
    case StreamOp(k, call) =>
      if k in d.streams then d.(streams := d.streams[k := P.Apply(d.streams[k], call).stream]) else d
    case Ask(k, request) => if k in d.streams then Asked(d, k, request) else d
    case GiveUp => d.(places := Replace(d.places, InHand, Returning))
    case Register(f, extras, input) =>
      Device(d.streams, OnMark(d.tracker, f, |With(d.places, InHand)| + if input then 1 else 0, extras),
             Replace(d.places, InHand, AtHal(f)), if input then d.inputs + {f} else d.inputs, d.refused)
    case Refuse(f) =>
      d.(places := Replace(d.places, AtHal(f), Returning), inputs := d.inputs - {f}, refused := d.refused + {f})
    case Tell(ev) => Told(cfg, d, ev)
    case Deliver(t, good) =>
      if t.stream !in d.streams then d
      else Sent(d, t, P.ToClient(d.streams[t.stream]), if good then AtClient else Returning)
    case Back(t) =>
      if t.stream in d.streams then Home(d, t, P.ReturnBuffer(d.streams[t.stream], t.handle).stream) else d
  }

  /** The calls of a stream's life cycle, as distinct from those that move buffers. */
  predicate LifeCycle(s: P.Stream, op: P.Op) {
    match op
    case EndConfigureOp(_, unset) => |unset| == s.Demand()
    case PrepareBufferOp(added) => added.Some? ==> added.value !in s.pool.buffers
    case GetBufferOp(_) => false
    case Wait => false
    case Resume(_) => false
    case Timeout => false
    case ReturnBufferOp(_) => false
    case ToClientOp(_) => false
    case _ => true
  }

  /** The calls of the request thread. One that waited goes on before its stream is configured from scratch. */
  predicate Request(s: P.Stream, op: P.Op) {
    (op.GetBufferOp? || op.Wait? || op.Resume? || op.Timeout?) && Q.ResumesInTime(s, op)
  }

  /**
   What the HAL may say: it brings each buffer once, for the frame it has it for, and says nothing of a refused one.
   */
  predicate FairEvent(d: Device, ev: Event) {
    match ev
    case Mark(_, _, _) => false
    case Result(r) =>
      && r.frame !in d.refused && NoRepeat(r.outputs) && (r.input.Some? ==> r.frame in d.inputs)
      && forall b | b in r.outputs :: Of(b) in d.places && d.places[Of(b)] == AtHal(r.frame)
    case Shutter(f, ts) => ts >= 0 && f !in d.refused
    case Error(_, _) => true
    case Flushing(_) => true
  }

  /** A frame of which the HAL has said nothing. */
  predicate Untouched(d: Device, f: nat) {
    f in d.tracker.pending && d.tracker.pending[f].parked == [] && With(d.places, Lost(f)) == {}
  }

  predicate Fair(d: Device, op: Op) {
    match op
    case StreamOp(k, call) => k in d.streams ==> LifeCycle(d.streams[k], call)
    case Ask(k, request) => k in d.streams ==> Request(d.streams[k], request)
    case GiveUp => true
    case Register(f, _, _) => f !in d.tracker.pending
    case Refuse(f) => Untouched(d, f)
    case Tell(ev) => FairEvent(d, ev)
    case Deliver(t, _) => t in d.places && d.places[t] == Leaving
    case Back(t) => t in d.places && (d.places[t] == AtClient || d.places[t] == Returning)
  }

  function Start(streams: Streams): Device { Device(streams, NEW_TRACKER, map[], {}, {}) }

  function Run(cfg: Config, streams: Streams, ops: seq<Op>): Device {
    if ops == [] then Start(streams) else Advance(cfg, Run(cfg, streams, ops[..|ops| - 1]), ops[|ops| - 1])
  }

  predicate FairRun(cfg: Config, streams: Streams, ops: seq<Op>) {
    ops == [] || (FairRun(cfg, streams, ops[..|ops| - 1])
                  && Fair(Run(cfg, streams, ops[..|ops| - 1]), ops[|ops| - 1]))
  }

  // ---------------------------------------------------------------- the invariant

  /** A frame that is not in flight is waited for by nobody. */
  predicate Gone(places: Places, inputs: set<nat>, refused: set<nat>, f: nat) {
    Due(places, f) == {} && With(places, Parked(f)) == {} && f !in inputs && f !in refused
  }

  /** A frame in flight: its parked buffers, and as many still to come as the tracker counts; none if it was refused. */
  predicate Expected(e: Pending, places: Places, inputs: set<nat>, refused: set<nat>, f: nat) {
    && 0 <= e.remaining && 0 <= e.shutterTS && (e.shutterTS != 0 ==> e.parked == [])
    && NoRepeat(e.parked) && With(places, Parked(f)) == TakenOf(e.parked)
    && (if f in refused then Due(places, f) == {} && e.parked == [] && f !in inputs
        else e.remaining == |Due(places, f)| + if f in inputs then 1 else 0)
  }

  predicate FrameOk(t: Tracker, places: Places, inputs: set<nat>, refused: set<nat>, f: nat) {
    if f in t.pending then Expected(t.pending[f], places, inputs, refused, f) else Gone(places, inputs, refused, f)
  }

  ghost predicate FramesOk(d: Device) {
    forall f: nat :: FrameOk(d.tracker, d.places, d.inputs, d.refused, f)
  }

  /** The buffers out of all streams are exactly those that are somewhere, and the tracker's counts are right. */
  ghost predicate Sound(d: Device) { AllConsistent(d.streams) && d.places.Keys == Out(d.streams) && FramesOk(d) }

  // ---------------------------------------------------------------- streams

  lemma {:induction false} OutSame(streams: Streams, k: nat, s: P.Stream)
    requires k in streams && s.pool.Busy() == streams[k].pool.Busy()
    ensures Out(streams[k := s]) == Out(streams)
  {
    OutAfter(streams, k, s);
    forall t: Taken
      ensures t in Out(streams[k := s]) <==> t in Out(streams)
    {
      if t.stream == k { BusyIsOut(streams, k, t.handle); assert t == Taken(k, t.handle); }
    }
  }

  lemma {:induction false} OutMore(streams: Streams, k: nat, s: P.Stream, h: P.Handle)
    requires k in streams && s.pool.Busy() == streams[k].pool.Busy() + {h}
    ensures Out(streams[k := s]) == Out(streams) + {Taken(k, h)}
  {
    OutAfter(streams, k, s);
    forall t: Taken
      ensures t in Out(streams[k := s]) <==> t in Out(streams) + {Taken(k, h)}
    {
      if t.stream == k { BusyIsOut(streams, k, t.handle); assert t == Taken(k, t.handle); }
    }
  }

  lemma {:induction false} OutLess(streams: Streams, k: nat, s: P.Stream, h: P.Handle)
    requires k in streams && s.pool.Busy() == streams[k].pool.Busy() - {h}
    ensures Out(streams[k := s]) == Out(streams) - {Taken(k, h)}
  {
    OutAfter(streams, k, s);
    forall t: Taken
      ensures t in Out(streams[k := s]) <==> t in Out(streams) - {Taken(k, h)}
    {
      if t.stream == k { BusyIsOut(streams, k, t.handle); assert t == Taken(k, t.handle); }
    }
  }

  lemma {:induction false} EmptyBusy(s: P.Stream)
    requires Q.Consistent(s) && s.pool.pending == 0
    ensures s.pool.Busy() == {}
  {
  }

  lemma {:induction false} EndConfigureMoves(s: P.Stream, id: int, unset: seq<P.Handle>)
    requires Q.Consistent(s)
    ensures P.EndConfigure(s, id, unset).stream.pool.Busy() == s.pool.Busy()
  {
    if s.pool.pending == 0 { EmptyBusy(s); }
    assert P.Pool(s.Demand(), unset, 0, map[], 0).Busy() == {};
  }

  lemma {:induction false} CloseMoves(s: P.Stream)
    requires Q.Consistent(s)
    ensures P.CloseLocked(s).stream.pool.Busy() == s.pool.Busy() && P.TearDown(s).stream.pool.Busy() == s.pool.Busy()
  {
    if s.pool.pending == 0 { EmptyBusy(s); }
  }

  lemma {:induction false} PrepareMoves(s: P.Stream, added: Option<P.Handle>)
    requires added.Some? ==> added.value !in s.pool.buffers
    ensures P.PrepareBuffer(s, added).stream.pool.Busy() == s.pool.Busy()
  {
    if s.status.PrepareActive? && s.pool.Room() && added.Some? {
      assert s.pool.Register(added.value, true).Busy() == s.pool.Busy();
    }
  }

  lemma {:induction false} LifeCycleConsistent(s: P.Stream, op: P.Op)
    requires Q.Consistent(s) && LifeCycle(s, op)
    ensures Q.Consistent(P.Apply(s, op).stream)
  {
    match op
    case EndConfigureOp(id, unset) => Q.EndConfigureConsistent(s, id, unset);
    case PrepareBufferOp(added) => Q.PrepareConsistent(s, added);
    case TearDownOp => Q.TearDownConsistent(s);
    case _ =>
  }

  /** The calls of the life cycle move no buffer, even if they come while buffers are out. */
  lemma {:induction false} LifeCycleMoves(s: P.Stream, op: P.Op)
    requires Q.Consistent(s) && LifeCycle(s, op)
    ensures P.Apply(s, op).stream.pool.Busy() == s.pool.Busy()
  {
    match op
    case EndConfigureOp(id, unset) => EndConfigureMoves(s, id, unset);
    case PrepareBufferOp(added) => PrepareMoves(s, added);
    case TearDownOp => CloseMoves(s);
    case CloseOp => CloseMoves(s);
    case _ =>
  }

  /** A request leaves a consistent stream with the buffer it came by out in addition, or with none. */
  predicate Asks(s: P.Stream, s': P.Stream, got: Option<P.Handle>) {
    && Q.Consistent(s')
    && (got.Some? ==> got.value !in s.pool.Busy() && s'.pool.Busy() == s.pool.Busy() + {got.value})
    && (got.None? ==> s'.pool.Busy() == s.pool.Busy())
  }

  lemma {:induction false} LockedMoves(s: P.Stream, got: Option<P.Handle>)
    requires Q.Consistent(s) && !s.status.ConfigActive?
    ensures var d := P.GetBufferLocked(s, got); Asks(s, d.stream, if d.code == P.OK then got else None)
  {
    Q.GetBufferConsistent(s, got);
    if got.Some? && s.pool.Obtainable(got.value) { PoolTakes(s.pool, got.value); }
  }

  lemma {:induction false} GetMoves(s: P.Stream, got: Option<P.Handle>)
    requires Q.Consistent(s)
    ensures Asks(s, P.Apply(s, P.GetBufferOp(got)).stream, Answered(s, P.GetBufferOp(got)))
  {
    if s.status.Configured? && !P.AllOut(s) {
      assert P.Apply(s, P.GetBufferOp(got)) == P.GetBufferLocked(s, got);
      LockedMoves(s, got);
    } else {
      assert P.Apply(s, P.GetBufferOp(got)) == P.Plain(s, P.ENOSYS);
    }
  }

  lemma {:induction false} ResumeMoves(s: P.Stream, late: Option<P.Handle>)
    requires Q.Consistent(s) && !s.status.ConfigActive?
    ensures Asks(s, P.Apply(s, P.Resume(late)).stream, Answered(s, P.Resume(late)))
  {
    if s.waiters > 0 {
      var s1 := s.(waiters := s.waiters - 1);
      assert P.Apply(s, P.Resume(late)) == P.GetBufferLocked(s1, late);
      LockedMoves(s1, late);
    } else {
      assert P.Apply(s, P.Resume(late)) == P.Plain(s, P.ENOSYS);
    }
  }

  lemma {:induction false} RequestMoves(s: P.Stream, op: P.Op)
    requires Q.Consistent(s) && Request(s, op)
    ensures Asks(s, P.Apply(s, op).stream, Answered(s, op))
  {
    if op.GetBufferOp? {
      GetMoves(s, op.got);
    } else if op.Resume? {
      ResumeMoves(s, op.late);
    } else {
      assert op.Wait? || op.Timeout?;
    }
  }

  lemma {:induction false} ReturnMoves(s: P.Stream, h: P.Handle)
    requires Q.Consistent(s) && h in s.pool.Busy()
    ensures var d := P.ReturnBuffer(s, h);
            d.code == P.OK && Q.Consistent(d.stream) && d.stream.pool.Busy() == s.pool.Busy() - {h}
  {
    Q.ReturnBufferConsistent(s, h);
    Q.TakeBackKeeps(s.pool, h);
  }

  // ---------------------------------------------------------------- buffers of one frame

  lemma {:induction false} TakenSize(bufs: seq<Buffer>)
    requires NoRepeat(bufs)
    ensures |TakenOf(bufs)| == |bufs|
  {
    if bufs != [] {
      var init, last := bufs[..|bufs| - 1], bufs[|bufs| - 1];
      TakenSize(init);
      assert bufs == init + [last];
      assert TakenOf(bufs) == TakenOf(init) + {Of(last)};
    }
  }

  lemma {:induction false} TakenAppend(a: seq<Buffer>, b: seq<Buffer>)
    ensures TakenOf(a + b) == TakenOf(a) + TakenOf(b)
  {
  }

  lemma {:induction false} Joined(a: seq<Buffer>, b: seq<Buffer>)
    requires NoRepeat(a) && NoRepeat(b) && TakenOf(a) !! TakenOf(b)
    ensures NoRepeat(a + b)
  {
    forall i, j | 0 <= i < j < |a + b|
      ensures Of((a + b)[i]) != Of((a + b)[j])
    {
      if i < |a| <= j {
        assert a[i] in a && b[j - |a|] in b;
        assert Of(a[i]) in TakenOf(a) && Of(b[j - |a|]) in TakenOf(b);
      }
    }
  }

  lemma {:induction false} Parted(a: seq<Buffer>, b: seq<Buffer>)
    requires NoRepeat(a + b)
    ensures NoRepeat(b) && TakenOf(a) !! TakenOf(b)
  {
    forall i, j | 0 <= i < j < |b|
      ensures Of(b[i]) != Of(b[j])
    {
      assert (a + b)[|a| + i] == b[i] && (a + b)[|a| + j] == b[j];
    }
    forall x, y | x in a && y in b
      ensures Of(x) != Of(y)
    {
      var i: nat :| i < |a| && a[i] == x;
      var j: nat :| j < |b| && b[j] == y;
      assert (a + b)[i] == x && (a + b)[|a| + j] == y;
    }
  }

  /** What was parked and what was counted is handed over or parked now; nothing twice. */
  predicate Shared(parked: seq<Buffer>, counted: seq<Buffer>, handed: seq<Buffer>, parkedNow: seq<Buffer>) {
    parked + counted == handed + parkedNow
  }

  lemma {:induction false} SharedSets(parked: seq<Buffer>, counted: seq<Buffer>, handed: seq<Buffer>, now: seq<Buffer>)
    requires Shared(parked, counted, handed, now) && NoRepeat(parked) && NoRepeat(counted)
    requires TakenOf(parked) !! TakenOf(counted)
    ensures NoRepeat(now) && TakenOf(handed) !! TakenOf(now)
    ensures TakenOf(handed) + TakenOf(now) == TakenOf(parked) + TakenOf(counted)
  {
    TakenAppend(parked, counted);
    TakenAppend(handed, now);
    Joined(parked, counted);
    Parted(handed, now);
  }

  /** Where the buffers of a frame are afterwards, and those of others. */
  lemma {:induction false} MovedPlaces(places: Places, f: nat, parked: set<Taken>, brought: set<Taken>,
                                       counted: set<Taken>, handed: set<Taken>, now: set<Taken>)
    requires With(places, Parked(f)) == parked && brought <= With(places, AtHal(f))
    requires counted == brought || counted == {}
    requires handed !! now && handed + now == parked + counted
    ensures var after := Moved(places, handed, now, brought, f);
            && after.Keys == places.Keys && With(after, Parked(f)) == now
            && Due(after, f) == Due(places, f) - counted
            && forall g | g != f :: With(after, Parked(g)) == With(places, Parked(g)) && Due(after, g) == Due(places, g)
  {
  }
  // ---------------------------------------------------------------- an event

  predicate IsCounted(cfg: Config, t: Tracker, ev: Event) { ev.Result? && Counted(cfg, t, ev.result) }

  function CountedOutputs(cfg: Config, t: Tracker, ev: Event): seq<Buffer> {
    if IsCounted(cfg, t, ev) then ev.result.outputs else []
  }

  function CountedInput(cfg: Config, t: Tracker, ev: Event): nat {
    if IsCounted(cfg, t, ev) then InputCount(ev.result) else 0
  }

  /** The books of a frame as if nothing had been handed over yet. */
  function OpenLedger(e: Pending): CaptureRuns.Ledger
    requires 0 <= e.remaining
  {
    CaptureRuns.Ledger(e.remaining + |e.parked|, e.parked, [], 0)
  }

  /** What balanced books say of the entry: who shares in what was parked and counted, and what is left to come. */
  predicate Shares(t: Tracker, f: nat, parked: seq<Buffer>, counted: seq<Buffer>, handed: seq<Buffer>, left: int) {
    && Shared(parked, counted, handed, ParkedIn(t, f))
    && if f in t.pending then
         var e := t.pending[f]; e.remaining == left >= 0 && 0 <= e.shutterTS && (e.shutterTS != 0 ==> e.parked == [])
       else left == 0
  }

  lemma {:induction false} BooksShare(t: Tracker, f: nat, e: Pending, counted: seq<Buffer>, input: nat,
                                      handed: seq<Buffer>)
    requires 0 <= e.remaining
    requires CaptureRuns.InBooks(t, f, CaptureRuns.Ledger(e.remaining + |e.parked|, e.parked + counted, handed, input))
    ensures Shares(t, f, e.parked, counted, handed, e.remaining - |counted| - input)
  {
    assert handed + [] == handed;
  }

  /** The tracker's books of the event's own frame. */
  lemma {:induction false} OwnShares(cfg: Config, t: Tracker, ev: Event, f: nat)
    requires f in t.pending && CaptureRuns.Fair(cfg, t, ev) && CaptureRuns.FrameOf(ev) == Some(f) && !ev.Mark?
    requires var e := t.pending[f]; 0 <= e.remaining && 0 <= e.shutterTS && (e.shutterTS != 0 ==> e.parked == [])
    ensures var a, e, outs := Step(cfg, t, ev), t.pending[f], CountedOutputs(cfg, t, ev);
            Shares(a.tracker, f, e.parked, outs, CaptureRuns.HandedFor(a.handed, f),
                   e.remaining - |outs| - CountedInput(cfg, t, ev))
  {
    var a, e, l := Step(cfg, t, ev), t.pending[f], OpenLedger(t.pending[f]);
    var handed := CaptureRuns.HandedFor(a.handed, f);
    assert [] + e.parked == e.parked == e.parked + [];
    CaptureRuns.OwnFrame(cfg, t, ev, f, l);
    var booked := if IsCounted(cfg, t, ev) then CaptureRuns.Receipt(l, ev.result) else l;
    assert CaptureRuns.HandOver(booked, a.handed, f).handed == [] + handed == handed;
    BooksShare(a.tracker, f, e, CountedOutputs(cfg, t, ev), CountedInput(cfg, t, ev), handed);
  }

  lemma {:induction false} UnknownFrame(cfg: Config, t: Tracker, ev: Event, f: nat)
    requires f !in t.pending && CaptureRuns.FrameOf(ev) == Some(f) && !ev.Mark?
    ensures var a := Step(cfg, t, ev); a.tracker.pending == t.pending && a.handed == []
  {
  }

  lemma {:induction false} SubsetSize(a: set<Taken>, b: set<Taken>)
    requires a <= b
    ensures |b - a| == |b| - |a| >= 0
  {
    assert b == a + (b - a);
  }

  /** A fair event about a frame whose buffers and counts are right. */
  predicate Concerns(d: Device, ev: Event, f: nat) {
    FrameOk(d.tracker, d.places, d.inputs, d.refused, f) && FairEvent(d, ev) && CaptureRuns.FrameOf(ev) == Some(f)
  }

  /** The HAL does not bring more than is waited for. */
  lemma {:induction false} BringsNoMore(cfg: Config, d: Device, ev: Event, f: nat)
    requires Concerns(d, ev, f) && f in d.tracker.pending
    ensures CaptureRuns.Fair(cfg, d.tracker, ev)
    ensures NoRepeat(Outputs(ev)) && TakenOf(Outputs(ev)) <= With(d.places, AtHal(f))
  {
    if ev.Result? {
      TakenSize(ev.result.outputs);
      SubsetSize(TakenOf(ev.result.outputs), Due(d.places, f));
    }
  }
  /** An error report leaves the entry in place. */
  lemma {:induction false} ErrorStays(cfg: Config, t: Tracker, ev: Event, f: nat)
    requires ev.Error? && ev.frame == f && f in t.pending
    ensures f in Step(cfg, t, ev).tracker.pending
  {
  }

  /** The places after an event: those of the frame it is about, and those of others, which stay. */
  ghost predicate PlacedAfter(d: Device, d': Device, f: nat, counted: set<Taken>) {
    && d'.places.Keys == d.places.Keys
    && With(d'.places, Parked(f)) == TakenOf(ParkedIn(d'.tracker, f)) && NoRepeat(ParkedIn(d'.tracker, f))
    && Due(d'.places, f) == Due(d.places, f) - counted
    && forall g: nat | g != f ::
         With(d'.places, Parked(g)) == With(d.places, Parked(g)) && Due(d'.places, g) == Due(d.places, g)
  }

  lemma {:induction false} PlacedBy(d: Device, d': Device, f: nat, parked: seq<Buffer>, brought: seq<Buffer>,
                                    counted: seq<Buffer>, handed: seq<Buffer>, now: seq<Buffer>)
    requires Shared(parked, counted, handed, now) && NoRepeat(parked) && With(d.places, Parked(f)) == TakenOf(parked)
    requires NoRepeat(brought) && TakenOf(brought) <= With(d.places, AtHal(f)) && (counted == brought || counted == [])
    requires d'.places == Moved(d.places, TakenOf(handed), TakenOf(now), TakenOf(brought), f)
    requires ParkedIn(d'.tracker, f) == now
    ensures PlacedAfter(d, d', f, TakenOf(counted))
  {
    assert TakenOf([]) == {};
    SharedSets(parked, counted, handed, now);
    MovedPlaces(d.places, f, TakenOf(parked), TakenOf(brought), TakenOf(counted), TakenOf(handed), TakenOf(now));
  }

  lemma {:induction false} KnownMoves(cfg: Config, d: Device, ev: Event, f: nat)
    requires Concerns(d, ev, f) && f in d.tracker.pending
    ensures PlacedAfter(d, Told(cfg, d, ev), f, TakenOf(CountedOutputs(cfg, d.tracker, ev)))
  {
    var a := Step(cfg, d.tracker, ev);
    BringsNoMore(cfg, d, ev, f);
    OwnShares(cfg, d.tracker, ev, f);
    PlacedBy(d, Told(cfg, d, ev), f, d.tracker.pending[f].parked, Outputs(ev), CountedOutputs(cfg, d.tracker, ev),
             CaptureRuns.HandedFor(a.handed, f), ParkedIn(a.tracker, f));
  }

  lemma {:induction false} NothingBrought(d: Device, ev: Event, f: nat)
    requires Gone(d.places, d.inputs, d.refused, f) && FairEvent(d, ev) && CaptureRuns.FrameOf(ev) == Some(f)
    ensures TakenOf(Outputs(ev)) == {}
  {
    assert TakenOf(Outputs(ev)) <= With(d.places, AtHal(f)) <= Due(d.places, f);
  }

  lemma {:induction false} NothingMoves(places: Places, f: nat)
    ensures Moved(places, {}, {}, {}, f) == places
  {
  }

  lemma {:induction false} UnknownMoves(cfg: Config, d: Device, ev: Event, f: nat)
    requires Gone(d.places, d.inputs, d.refused, f) && FairEvent(d, ev) && CaptureRuns.FrameOf(ev) == Some(f)
    requires f !in d.tracker.pending
    ensures Told(cfg, d, ev).places == d.places && Told(cfg, d, ev).tracker.pending == d.tracker.pending
    ensures CountedOutputs(cfg, d.tracker, ev) == []
  {
    UnknownFrame(cfg, d.tracker, ev, f);
    NothingBrought(d, ev, f);
    NothingMoves(d.places, f);
    assert TakenOf([]) == {} && CaptureRuns.HandedFor([], f) == [];
  }

  lemma {:induction false} TellMoves(cfg: Config, d: Device, ev: Event, f: nat)
    requires Concerns(d, ev, f)
    ensures PlacedAfter(d, Told(cfg, d, ev), f, TakenOf(CountedOutputs(cfg, d.tracker, ev)))
  {
    if f in d.tracker.pending {
      KnownMoves(cfg, d, ev, f);
    } else {
      UnknownMoves(cfg, d, ev, f);
    }
  }

  /** What is still waited for is what is still counted. */
  lemma {:induction false} TellCounts(cfg: Config, d: Device, ev: Event, f: nat)
    requires Concerns(d, ev, f)
    requires f in d.tracker.pending && f !in d.refused
    ensures var d' := Told(cfg, d, ev);
            var left := d.tracker.pending[f].remaining - |CountedOutputs(cfg, d.tracker, ev)|
                        - CountedInput(cfg, d.tracker, ev);
            left == |Due(d'.places, f)| + if f in d'.inputs then 1 else 0
  {
    var counted := CountedOutputs(cfg, d.tracker, ev);
    TellMoves(cfg, d, ev, f);
    BringsNoMore(cfg, d, ev, f);
    TakenSize(counted);
    SubsetSize(TakenOf(counted), Due(d.places, f));
  }

  lemma {:induction false} TellOwn(cfg: Config, d: Device, ev: Event, f: nat)
    requires Concerns(d, ev, f)
    ensures var d' := Told(cfg, d, ev); FrameOk(d'.tracker, d'.places, d'.inputs, d'.refused, f)
  {
    TellMoves(cfg, d, ev, f);
    if f !in d.tracker.pending {
      UnknownFrame(cfg, d.tracker, ev, f);
    } else {
      BringsNoMore(cfg, d, ev, f);
      OwnShares(cfg, d.tracker, ev, f);
      if f in d.refused {
        ErrorStays(cfg, d.tracker, ev, f);
      } else {
        TellCounts(cfg, d, ev, f);
      }
    }
  }

  lemma {:induction false} TellOthers(cfg: Config, d: Device, ev: Event, f: nat, g: nat)
    requires Concerns(d, ev, f)
    requires FrameOk(d.tracker, d.places, d.inputs, d.refused, g) && g != f
    ensures var d' := Told(cfg, d, ev); FrameOk(d'.tracker, d'.places, d'.inputs, d'.refused, g)
  {
    TellMoves(cfg, d, ev, f);
    CaptureRuns.OtherFrames(cfg, d.tracker, ev, g);
  }

  lemma {:induction false} TellSound(cfg: Config, d: Device, ev: Event)
    requires Sound(d) && FairEvent(d, ev)
    ensures Sound(Told(cfg, d, ev))
  {
    var d' := Told(cfg, d, ev);
    forall g: nat
      ensures FrameOk(d'.tracker, d'.places, d'.inputs, d'.refused, g)
    {
      assert FrameOk(d.tracker, d.places, d.inputs, d.refused, g);
      if CaptureRuns.FrameOf(ev).Some? {
        var f := CaptureRuns.FrameOf(ev).value;
        if g == f { TellOwn(cfg, d, ev, f); } else { TellOthers(cfg, d, ev, f, g); }
      }
    }
    if CaptureRuns.FrameOf(ev).Some? { TellMoves(cfg, d, ev, CaptureRuns.FrameOf(ev).value); }
  }
  // ---------------------------------------------------------------- the other steps

  predicate Elsewhere(p: Place) { p.InHand? || p.Leaving? || p.AtClient? || p.Returning? }

  /** No frame's buffers change places. */
  ghost predicate FramesStay(places: Places, after: Places) {
    forall f: nat :: Due(after, f) == Due(places, f) && With(after, Parked(f)) == With(places, Parked(f))
  }

  lemma {:induction false} ReplaceStays(places: Places, from: Place, to: Place)
    requires Elsewhere(from) && Elsewhere(to)
    ensures FramesStay(places, Replace(places, from, to)) && Replace(places, from, to).Keys == places.Keys
  {
  }

  lemma {:induction false} PutStays(places: Places, t: Taken, to: Place)
    requires (t in places ==> Elsewhere(places[t])) && Elsewhere(to)
    ensures FramesStay(places, places[t := to]) && places[t := to].Keys == places.Keys + {t}
  {
  }

  lemma {:induction false} RemoveStays(places: Places, t: Taken)
    requires t in places && Elsewhere(places[t])
    ensures FramesStay(places, places - {t}) && (places - {t}).Keys == places.Keys - {t}
  {
  }

  lemma {:induction false} StillOk(d: Device, d': Device)
    requires FramesOk(d) && d'.tracker == d.tracker && d'.inputs == d.inputs && d'.refused == d.refused
    requires FramesStay(d.places, d'.places)
    ensures FramesOk(d')
  {
    forall f: nat
      ensures FrameOk(d'.tracker, d'.places, d'.inputs, d'.refused, f)
    {
      assert FrameOk(d.tracker, d.places, d.inputs, d.refused, f);
    }
  }

  /** One stream takes a step that moves no buffer, and no frame's buffers change places. */
  lemma {:induction false} StreamKeeps(d: Device, k: nat, s: P.Stream, places: Places, d': Device)
    requires Sound(d) && k in d.streams && Q.Consistent(s) && s.pool.Busy() == d.streams[k].pool.Busy()
    requires places.Keys == d.places.Keys && FramesStay(d.places, places)
    requires d' == d.(streams := d.streams[k := s], places := places)
    ensures Sound(d')
  {
    OutSame(d.streams, k, s);
    StillOk(d, d');
  }

  lemma {:induction false} StreamGains(d: Device, k: nat, s: P.Stream, places: Places, h: P.Handle, d': Device)
    requires Sound(d) && k in d.streams && Q.Consistent(s) && s.pool.Busy() == d.streams[k].pool.Busy() + {h}
    requires places.Keys == d.places.Keys + {Taken(k, h)} && FramesStay(d.places, places)
    requires d' == d.(streams := d.streams[k := s], places := places)
    ensures Sound(d')
  {
    OutMore(d.streams, k, s, h);
    StillOk(d, d');
  }

  lemma {:induction false} StreamLoses(d: Device, k: nat, s: P.Stream, places: Places, h: P.Handle, d': Device)
    requires Sound(d) && k in d.streams && Q.Consistent(s) && s.pool.Busy() == d.streams[k].pool.Busy() - {h}
    requires places.Keys == d.places.Keys - {Taken(k, h)} && FramesStay(d.places, places)
    requires d' == d.(streams := d.streams[k := s], places := places)
    ensures Sound(d')
  {
    OutLess(d.streams, k, s, h);
    StillOk(d, d');
  }

  lemma {:induction false} StreamOpSound(cfg: Config, d: Device, k: nat, call: P.Op)
    requires Sound(d) && k in d.streams && LifeCycle(d.streams[k], call)
    ensures Sound(Advance(cfg, d, StreamOp(k, call)))
  {
    LifeCycleConsistent(d.streams[k], call);
    LifeCycleMoves(d.streams[k], call);
    StreamKeeps(d, k, P.Apply(d.streams[k], call).stream, d.places, Advance(cfg, d, StreamOp(k, call)));
  }

  /** A buffer that was not out has no place yet. */
  lemma {:induction false} NewPlace(streams: Streams, places: Places, k: nat, h: P.Handle)
    requires places.Keys == Out(streams) && k in streams && h !in streams[k].pool.Busy()
    ensures FramesStay(places, places[Taken(k, h) := InHand])
    ensures places[Taken(k, h) := InHand].Keys == places.Keys + {Taken(k, h)}
  {
    BusyIsOut(streams, k, h);
    PutStays(places, Taken(k, h), InHand);
  }

  lemma {:induction false} CameOne(d: Device, k: nat, s: P.Stream, h: P.Handle, d': Device)
    requires Sound(d) && k in d.streams && Q.Consistent(s)
    requires h !in d.streams[k].pool.Busy() && s.pool.Busy() == d.streams[k].pool.Busy() + {h}
    requires d' == d.(streams := d.streams[k := s], places := d.places[Taken(k, h) := InHand])
    ensures Sound(d')
  {
    NewPlace(d.streams, d.places, k, h);
    StreamGains(d, k, s, d.places[Taken(k, h) := InHand], h, d');
  }

  lemma {:induction false} CameSound(d: Device, k: nat, s: P.Stream, got: Option<P.Handle>)
    requires Sound(d) && k in d.streams && Asks(d.streams[k], s, got)
    ensures Sound(Came(d, k, s, got))
  {
    if got.Some? {
      CameOne(d, k, s, got.value, Came(d, k, s, got));
    } else {
      StreamKeeps(d, k, s, d.places, Came(d, k, s, got));
    }
  }

  lemma {:induction false} AskSound(d: Device, k: nat, op: P.Op)
    requires Sound(d) && k in d.streams && Request(d.streams[k], op)
    ensures Sound(Asked(d, k, op))
  {
    RequestMoves(d.streams[k], op);
    CameSound(d, k, P.Apply(d.streams[k], op).stream, Answered(d.streams[k], op));
  }

  /** A buffer at a place is out of its stream. */
  lemma {:induction false} PlacedIsBusy(d: Device, t: Taken)
    requires d.places.Keys == Out(d.streams) && t in d.places
    ensures t.stream in d.streams && t.handle in d.streams[t.stream].pool.Busy()
  {
    assert t in Out(d.streams);
  }

  lemma {:induction false} SentSound(d: Device, t: Taken, s: P.Stream, to: Place)
    requires Sound(d) && t in d.places && Elsewhere(d.places[t]) && Elsewhere(to) && t.stream in d.streams
    requires Q.Consistent(s) && s.pool == d.streams[t.stream].pool
    ensures Sound(Sent(d, t, s, to))
  {
    PutStays(d.places, t, to);
    StreamKeeps(d, t.stream, s, d.places[t := to], Sent(d, t, s, to));
  }

  lemma {:induction false} HomeSound(d: Device, t: Taken, s: P.Stream)
    requires Sound(d) && t in d.places && Elsewhere(d.places[t]) && t.stream in d.streams
    requires Q.Consistent(s) && s.pool.Busy() == d.streams[t.stream].pool.Busy() - {t.handle}
    ensures Sound(Home(d, t, s))
  {
    RemoveStays(d.places, t);
    StreamLoses(d, t.stream, s, d.places - {t}, t.handle, Home(d, t, s));
  }

  lemma {:induction false} DeliverSound(d: Device, t: Taken, good: bool)
    requires Sound(d) && t in d.places && d.places[t] == Leaving
    ensures t.stream in d.streams
    ensures Sound(Sent(d, t, P.ToClient(d.streams[t.stream]), if good then AtClient else Returning))
  {
    PlacedIsBusy(d, t);
    Q.ToClientConsistent(d.streams[t.stream]);
    SentSound(d, t, P.ToClient(d.streams[t.stream]), if good then AtClient else Returning);
  }

  /** A buffer that comes back is taken back by its stream, whatever state that is in. */
  lemma {:induction false} BackSound(d: Device, t: Taken)
    requires Sound(d) && t in d.places && (d.places[t] == AtClient || d.places[t] == Returning)
    ensures t.stream in d.streams && P.ReturnBuffer(d.streams[t.stream], t.handle).code == P.OK
    ensures Sound(Home(d, t, P.ReturnBuffer(d.streams[t.stream], t.handle).stream))
  {
    PlacedIsBusy(d, t);
    ReturnMoves(d.streams[t.stream], t.handle);
    HomeSound(d, t, P.ReturnBuffer(d.streams[t.stream], t.handle).stream);
  }

  lemma {:induction false} NoneAt(places: Places, p: Place)
    requires With(places, p) == {}
    ensures forall t | t in places :: places[t] != p
  {
    forall t | t in places
      ensures places[t] != p
    {
      assert t !in With(places, p);
    }
  }

  lemma {:induction false} HandedToHal(places: Places, f: nat)
    requires Due(places, f) == {}
    ensures var after := Replace(places, InHand, AtHal(f));
            && after.Keys == places.Keys && Due(after, f) == With(places, InHand)
            && With(after, Parked(f)) == With(places, Parked(f))
            && forall g: nat | g != f ::
                 Due(after, g) == Due(places, g) && With(after, Parked(g)) == With(places, Parked(g))
  {
    assert With(places, AtHal(f)) == {} && With(places, Lost(f)) == {};
    NoneAt(places, AtHal(f));
    NoneAt(places, Lost(f));
  }

  lemma {:induction false} RegisterSound(cfg: Config, d: Device, f: nat, extras: Extras, input: bool)
    requires Sound(d) && f !in d.tracker.pending
    ensures Sound(Advance(cfg, d, Register(f, extras, input)))
  {
    var d' := Advance(cfg, d, Register(f, extras, input));
    assert FrameOk(d.tracker, d.places, d.inputs, d.refused, f);
    HandedToHal(d.places, f);
    assert TakenOf([]) == {};
    forall g: nat
      ensures FrameOk(d'.tracker, d'.places, d'.inputs, d'.refused, g)
    {
      assert FrameOk(d.tracker, d.places, d.inputs, d.refused, g);
    }
  }

  lemma {:induction false} TakenFromHal(places: Places, f: nat)
    requires With(places, Lost(f)) == {}
    ensures var after := Replace(places, AtHal(f), Returning);
            && after.Keys == places.Keys && Due(after, f) == {} && With(after, Parked(f)) == With(places, Parked(f))
            && forall g: nat | g != f ::
                 Due(after, g) == Due(places, g) && With(after, Parked(g)) == With(places, Parked(g))
  {
  }

  lemma {:induction false} RefuseSound(cfg: Config, d: Device, f: nat)
    requires Sound(d) && Untouched(d, f)
    ensures Sound(Advance(cfg, d, Refuse(f)))
  {
    var d' := Advance(cfg, d, Refuse(f));
    TakenFromHal(d.places, f);
    forall g: nat
      ensures FrameOk(d'.tracker, d'.places, d'.inputs, d'.refused, g)
    {
      assert FrameOk(d.tracker, d.places, d.inputs, d.refused, g);
    }
  }

  /** Every step keeps every buffer that is out in exactly one place, and the tracker's counts right. */
  lemma {:induction false} StepSound(cfg: Config, d: Device, op: Op)
    requires Sound(d) && Fair(d, op)
    ensures Sound(Advance(cfg, d, op))
  {
    match op
    case StreamOp(k, call) => if k in d.streams { StreamOpSound(cfg, d, k, call); }
    case Ask(k, request) => if k in d.streams { AskSound(d, k, request); }
    case GiveUp =>
      ReplaceStays(d.places, InHand, Returning);
      StillOk(d, Advance(cfg, d, GiveUp));
    case Register(f, extras, input) => RegisterSound(cfg, d, f, extras, input);
    case Refuse(f) => RefuseSound(cfg, d, f);
    case Tell(ev) => TellSound(cfg, d, ev);
    case Deliver(t, good) => DeliverSound(d, t, good);
    case Back(t) => BackSound(d, t);
  }

  /** Streams to begin with: consistent, and no buffer out. */
  predicate Fresh(streams: Streams) { AllConsistent(streams) && Out(streams) == {} }

  lemma {:induction false} StartSound(streams: Streams)
    requires Fresh(streams)
    ensures Sound(Start(streams))
  {
    var d := Start(streams);
    forall f: nat
      ensures FrameOk(d.tracker, d.places, d.inputs, d.refused, f)
    {
      assert Due(d.places, f) == {} && With(d.places, Parked(f)) == {};
    }
  }

  /**
   Over whole runs, for any number of streams on one device, in any interleaving of submissions, HAL messages,
   deliveries, returns, waits and reconfigurations: the buffers out of all streams are exactly those in the request
   thread's hand, owed by the HAL, parked in the tracker, on their way, at the client, or lost; those parked for a frame
   are the ones its entry holds; and its entry counts as remaining exactly those owed or lost, and its input buffer.
   */
  lemma {:induction false} RunSound(cfg: Config, streams: Streams, ops: seq<Op>)
    requires Fresh(streams) && FairRun(cfg, streams, ops)
    ensures Sound(Run(cfg, streams, ops))
  {
    if ops == [] {
      StartSound(streams);
    } else {
      RunSound(cfg, streams, ops[..|ops| - 1]);
      StepSound(cfg, Run(cfg, streams, ops[..|ops| - 1]), ops[|ops| - 1]);
    }
  }
  // ---------------------------------------------------------------- what follows

  /** With nothing in flight, in hand or on its way, what is out is what the client holds. */
  lemma {:induction false} QuietDevice(d: Device)
    requires Sound(d) && d.tracker.pending == map[]
    requires With(d.places, InHand) == {} && With(d.places, Leaving) == {} && With(d.places, Returning) == {}
    ensures Out(d.streams) == With(d.places, AtClient)
  {
    forall t | t in d.places
      ensures d.places[t] == AtClient
    {
      match d.places[t]
      case AtHal(f) => GoneNone(d, f, t);
      case Parked(f) => GoneNone(d, f, t);
      case Lost(f) => GoneNone(d, f, t);
      case InHand => NoneAt(d.places, InHand);
      case Leaving => NoneAt(d.places, Leaving);
      case Returning => NoneAt(d.places, Returning);
      case AtClient =>
    }
  }

  lemma {:induction false} GoneNone(d: Device, f: nat, t: Taken)
    requires FramesOk(d) && f !in d.tracker.pending && t in d.places
    ensures d.places[t] != AtHal(f) && d.places[t] != Parked(f) && d.places[t] != Lost(f)
  {
    assert FrameOk(d.tracker, d.places, d.inputs, d.refused, f);
    assert With(d.places, AtHal(f)) == {} && With(d.places, Lost(f)) == {};
    NoneAt(d.places, AtHal(f));
    NoneAt(d.places, Lost(f));
    NoneAt(d.places, Parked(f));
  }

  /** Where the tracker puts what it had parked and what it counted. */
  lemma {:induction false} TellSplits(cfg: Config, d: Device, ev: Event, f: nat)
    requires Concerns(d, ev, f)
    ensures var a := Step(cfg, d.tracker, ev);
            TakenOf(CaptureRuns.HandedFor(a.handed, f)) + TakenOf(ParkedIn(a.tracker, f))
            == With(d.places, Parked(f)) + TakenOf(CountedOutputs(cfg, d.tracker, ev))
  {
    if f in d.tracker.pending {
      var a := Step(cfg, d.tracker, ev);
      BringsNoMore(cfg, d, ev, f);
      OwnShares(cfg, d.tracker, ev, f);
      SharedSets(d.tracker.pending[f].parked, CountedOutputs(cfg, d.tracker, ev), CaptureRuns.HandedFor(a.handed, f),
                 ParkedIn(a.tracker, f));
    } else {
      UnknownFrame(cfg, d.tracker, ev, f);
      UnknownMoves(cfg, d, ev, f);
      assert TakenOf([]) == {} && CaptureRuns.HandedFor([], f) == [];
    }
  }

  lemma {:induction false} CountedFromHal(cfg: Config, d: Device, ev: Event, f: nat)
    requires FairEvent(d, ev) && CaptureRuns.FrameOf(ev) == Some(f)
    ensures TakenOf(CountedOutputs(cfg, d.tracker, ev)) <= TakenOf(Outputs(ev)) <= With(d.places, AtHal(f))
  {
  }

  lemma {:induction false} MovedTo(places: Places, handed: set<Taken>, parked: set<Taken>, brought: set<Taken>, f: nat,
                                   t: Taken)
    requires t in places
    ensures var after := Moved(places, handed, parked, brought, f);
            && t in after
            && (t in brought ==> (after[t] == Lost(f) <==> t !in handed && t !in parked))
            && (t !in brought && t !in handed && t !in parked ==> after[t] == places[t])
  {
  }

  /** A buffer the HAL brings is lost if and only if the tracker does not count the result it comes with. */
  lemma {:induction false} LostIff(cfg: Config, d: Device, r: HalResult, b: Buffer)
    requires Sound(d) && FairEvent(d, Result(r)) && b in r.outputs
    ensures Told(cfg, d, Result(r)).places[Of(b)] == Lost(r.frame) <==> !Counted(cfg, d.tracker, r)
  {
    assert FrameOk(d.tracker, d.places, d.inputs, d.refused, r.frame);
    BroughtTo(cfg, d, r, Of(b));
  }

  lemma {:induction false} BroughtTo(cfg: Config, d: Device, r: HalResult, t: Taken)
    requires FrameOk(d.tracker, d.places, d.inputs, d.refused, r.frame) && FairEvent(d, Result(r))
    requires t in TakenOf(r.outputs) && t in d.places && d.places[t] == AtHal(r.frame)
    ensures Told(cfg, d, Result(r)).places[t] == Lost(r.frame) <==> !Counted(cfg, d.tracker, r)
  {
    var a := Step(cfg, d.tracker, Result(r));
    var handed, now := TakenOf(CaptureRuns.HandedFor(a.handed, r.frame)), TakenOf(ParkedIn(a.tracker, r.frame));
    TellSplits(cfg, d, Result(r), r.frame);
    assert t !in With(d.places, Parked(r.frame));
    assert t in handed + now <==> Counted(cfg, d.tracker, r);
    MovedTo(d.places, handed, now, TakenOf(r.outputs), r.frame, t);
  }

  lemma {:induction false} LostThroughAsk(d: Device, k: nat, request: P.Op, t: Taken, f: nat)
    requires Sound(d) && k in d.streams && Request(d.streams[k], request) && t in d.places && d.places[t] == Lost(f)
    ensures t in Asked(d, k, request).places && Asked(d, k, request).places[t] == Lost(f)
  {
    RequestMoves(d.streams[k], request);
    PlacedIsBusy(d, t);
  }

  lemma {:induction false} LostThroughEvent(cfg: Config, d: Device, ev: Event, g: nat, t: Taken, f: nat)
    requires Concerns(d, ev, g)
    requires t in d.places && d.places[t] == Lost(f)
    ensures t in Told(cfg, d, ev).places && Told(cfg, d, ev).places[t] == Lost(f)
  {
    var a := Step(cfg, d.tracker, ev);
    var handed, now := TakenOf(CaptureRuns.HandedFor(a.handed, g)), TakenOf(ParkedIn(a.tracker, g));
    TellSplits(cfg, d, ev, g);
    CountedFromHal(cfg, d, ev, g);
    assert t !in With(d.places, Parked(g)) && t !in With(d.places, AtHal(g));
    MovedTo(d.places, handed, now, TakenOf(Outputs(ev)), g, t);
  }

  lemma {:induction false} LostThroughRest(cfg: Config, d: Device, op: Op, t: Taken, f: nat)
    requires Fair(d, op) && t in d.places && d.places[t] == Lost(f) && !op.Ask? && !op.Tell?
    ensures t in Advance(cfg, d, op).places && Advance(cfg, d, op).places[t] == Lost(f)
  {
  }

  /** Once lost, a buffer stays lost, and so it stays out of its stream. */
  lemma {:induction false} LostStays(cfg: Config, d: Device, op: Op, t: Taken, f: nat)
    requires Sound(d) && Fair(d, op) && t in d.places && d.places[t] == Lost(f)
    ensures t in Advance(cfg, d, op).places && Advance(cfg, d, op).places[t] == Lost(f)
  {
    match op
    case Ask(k, request) => if k in d.streams { LostThroughAsk(d, k, request, t, f); }
    case Tell(ev) =>
      if CaptureRuns.FrameOf(ev).Some? {
        var g := CaptureRuns.FrameOf(ev).value;
        assert FrameOk(d.tracker, d.places, d.inputs, d.refused, g);
        LostThroughEvent(cfg, d, ev, g, t, f);
      }
    case _ => LostThroughRest(cfg, d, op, t, f);
  }

  lemma {:induction false} RunAdds(cfg: Config, streams: Streams, ops: seq<Op>, op: Op)
    ensures Run(cfg, streams, ops + [op]) == Advance(cfg, Run(cfg, streams, ops), op)
  {
    assert (ops + [op])[..|ops|] == ops;
  }

  predicate IsLost(d: Device, t: Taken, f: nat) { t in d.places && d.places[t] == Lost(f) }

  lemma {:induction false} StaysLost(cfg: Config, streams: Streams, ops: seq<Op>, more: seq<Op>, t: Taken, f: nat)
    requires Fresh(streams) && FairRun(cfg, streams, ops + more) && IsLost(Run(cfg, streams, ops), t, f)
    ensures IsLost(Run(cfg, streams, ops + more), t, f)
  {
    if more == [] {
      assert ops + more == ops;
    } else {
      var most, op := ops + more[..|more| - 1], more[|more| - 1];
      assert ops + more == most + [op] && (most + [op])[..|most|] == most;
      StaysLost(cfg, streams, ops, more[..|more| - 1], t, f);
      RunSound(cfg, streams, most);
      LostStays(cfg, Run(cfg, streams, most), op, t, f);
      RunAdds(cfg, streams, most, op);
    }
  }

  /** However a run goes on, a lost buffer never comes back. */
  lemma {:induction false} NeverBack(cfg: Config, streams: Streams, ops: seq<Op>, more: seq<Op>, t: Taken, f: nat)
    requires Fresh(streams) && FairRun(cfg, streams, ops + more) && IsLost(Run(cfg, streams, ops), t, f)
    ensures t in Out(Run(cfg, streams, ops + more).streams)
  {
    StaysLost(cfg, streams, ops, more, t, f);
    RunSound(cfg, streams, ops + more);
  }

  /** Nothing more is said of a frame the HAL refused, so its entry stays. */
  lemma {:induction false} RefusedStays(cfg: Config, d: Device, op: Op, f: nat)
    requires Sound(d) && Fair(d, op) && f in d.refused
    ensures f in Advance(cfg, d, op).refused && f in Advance(cfg, d, op).tracker.pending
  {
    StepSound(cfg, d, op);
    var d' := Advance(cfg, d, op);
    assert FrameOk(d'.tracker, d'.places, d'.inputs, d'.refused, f);
  }
  // ---------------------------------------------------------------- two runs

  /** A configured stream of one buffer. */
  const READY := P.Stream(P.Configured, P.Pool(1, [0], 0, map[], 0), 0, 0, 0, false, 0, P.Ask(0, 1), P.Ask(0, 1),
                          P.Ask(0, 1), 0)

  const BUFFER := Buffer(0, 5, StatusOk)

  /** A request for that buffer. */
  function Requested(extras: Extras): seq<Op> { [Ask(0, P.GetBufferOp(Some(5)))] + [Register(0, extras, false)] }

  /** Frame 0 waits for the buffer, which is at the HAL. */
  predicate Waiting(d: Device, extras: Extras) {
    && 0 in d.streams && d.places == map[Of(BUFFER) := AtHal(0)] && d.inputs == {} && d.refused == {}
    && d.tracker == NEW_TRACKER.Put(0, FreshPending(1, extras))
  }

  lemma {:induction false} ReadyIsFresh()
    ensures Fresh(map[0 := READY])
  {
  }

  lemma {:induction false} AskedRun(cfg: Config)
    ensures FairRun(cfg, map[0 := READY], [Ask(0, P.GetBufferOp(Some(5)))])
    ensures var d := Run(cfg, map[0 := READY], [Ask(0, P.GetBufferOp(Some(5)))]);
            && 0 in d.streams && d.places == map[Of(BUFFER) := InHand] && d.inputs == {} && d.refused == {}
            && d.tracker == NEW_TRACKER
  {
    var streams, ask := map[0 := READY], Ask(0, P.GetBufferOp(Some(5)));
    assert [] + [ask] == [ask] && [ask][..0] == [];
    assert FairRun(cfg, streams, []) && Fair(Run(cfg, streams, []), ask);
    RunAdds(cfg, streams, [], ask);
    assert Answered(READY, P.GetBufferOp(Some(5))) == Some(5);
  }

  lemma {:induction false} RequestedRun(cfg: Config, extras: Extras)
    ensures FairRun(cfg, map[0 := READY], Requested(extras))
    ensures Waiting(Run(cfg, map[0 := READY], Requested(extras)), extras)
  {
    var streams, asks := map[0 := READY], [Ask(0, P.GetBufferOp(Some(5)))];
    AskedRun(cfg);
    RunAdds(cfg, streams, asks, Register(0, extras, false));
    assert With(Run(cfg, streams, asks).places, InHand) == {Of(BUFFER)};
    assert Requested(extras)[..1] == asks;
  }

  /** A run that loses a buffer: its result has metadata with the wrong partial count, and is refused whole. */
  lemma {:induction false} BufferStranded(cfg: Config, extras: Extras, meta: Metadata)
    requires !cfg.Partials()
    ensures var bad := Tell(Result(HalResult(0, Some(meta), 0, [BUFFER], None)));
            && Fresh(map[0 := READY]) && FairRun(cfg, map[0 := READY], Requested(extras) + [bad])
            && Run(cfg, map[0 := READY], Requested(extras) + [bad]).places == map[Of(BUFFER) := Lost(0)]
  {
    var streams, r := map[0 := READY], HalResult(0, Some(meta), 0, [BUFFER], None);
    ReadyIsFresh();
    RequestedRun(cfg, extras);
    RunAdds(cfg, streams, Requested(extras), Tell(Result(r)));
    assert (Requested(extras) + [Tell(Result(r))])[..2] == Requested(extras);
    var d := Run(cfg, streams, Requested(extras));
    assert Step(cfg, d.tracker, Result(r)).handed == [] && CaptureRuns.HandedFor([], 0) == [];
    assert ParkedIn(d.tracker, 0) == [] && TakenOf([]) == {} && TakenOf([BUFFER]) == {Of(BUFFER)};
  }

  /** A run with a refused request: nothing is due for its frame any more, and yet its entry waits for a buffer. */
  lemma {:induction false} RefusedLingers(cfg: Config, extras: Extras)
    ensures var d := Run(cfg, map[0 := READY], Requested(extras) + [Refuse(0)]);
            && FairRun(cfg, map[0 := READY], Requested(extras) + [Refuse(0)])
            && Due(d.places, 0) == {} && 0 in d.tracker.pending && d.tracker.pending[0].remaining == 1
  {
    RequestedRun(cfg, extras);
    RunAdds(cfg, map[0 := READY], Requested(extras), Refuse(0));
    assert (Requested(extras) + [Refuse(0)])[..2] == Requested(extras);
  }
}
