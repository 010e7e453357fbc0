/**
 Where request ids come from. A caller reads the next id before it takes the lock under which its list of requests gets
 its ids and is queued. As long as no other list comes in between, every id stands for one set of settings, which is
 what sending settings on a change of id relies on; a list that does come in between breaks it.
 */
module RequestIds {
  import opened Common
  import opened RequestScheduler
  import S = SentSettings

  /** The handler with the HAL, the next id, the id each caller has read, and the settings given to each id. */
  datatype Device = Device(history: S.History, nextId: nat, read: map<nat, nat>, issued: S.Catalog)

  const START := Device(S.START, 0, map[], map[])

  datatype Op =
    | ReadId(reader: nat)
    | SubmitList(caller: nat, settings: seq<nat>, streaming: bool, added: bool)
    | HandlerOp(op: RequestScheduler.Op)

  /** A list of requests with consecutive ids. */
  function Numbered(id: nat, settings: seq<nat>): (rs: seq<Request>)
    ensures |rs| == |settings|
  {
    seq(|settings|, i requires 0 <= i < |settings| => Request(id + i, settings[i], false))
  }

  function Issue(issued: S.Catalog, id: nat, settings: seq<nat>): S.Catalog {
    issued + map r | r in Numbered(id, settings) :: r.id := r.settings
  }

  function Queued(h: S.History, requests: seq<Request>, streaming: bool): S.History {
    S.Advance(h, if streaming then RepeatOp(requests) else QueueOp(requests))
  }

  /** `added` is false if the handler refuses the list, whose ids are used up all the same. */
  function Advance(d: Device, op: Op): Device {
    match op
    case ReadId(caller) => d.(read := d.read[caller := d.nextId])
    case SubmitList(caller, settings, streaming, added) =>
      if caller !in d.read || settings == [] then d
      else
        var id := d.read[caller];
        Device(if added then Queued(d.history, Numbered(id, settings), streaming) else d.history,
               id + |settings|, d.read - {caller}, Issue(d.issued, id, settings))
    case HandlerOp(op) =>
      if op.QueueOp? || op.RepeatOp? then d else d.(history := S.Advance(d.history, op))
  }

  function Run(ops: seq<Op>): Device {
    if ops == [] then START else Advance(Run(ops[..|ops| - 1]), ops[|ops| - 1])
  }

  /**
   No list is submitted between another caller's look at the next id and its submission; the streams are configured
   while no request is in hand; and a submission that carries settings is accepted.
   */
  predicate Fair(d: Device, op: Op) {
    match op
    case ReadId(_) => true
    case SubmitList(caller, _, _, _) => caller in d.read ==> d.read[caller] == d.nextId
    case HandlerOp(ConfiguredOp) => d.history.handler.held.None?
    case HandlerOp(SubmitOp(accepted)) => Carries(d.history.handler) ==> accepted
    case HandlerOp(_) => true
  }

  predicate FairRun(ops: seq<Op>) {
    ops == [] || (FairRun(ops[..|ops| - 1]) && Fair(Run(ops[..|ops| - 1]), ops[|ops| - 1]))
  }

  /** The ids given out are those below the next one, and each stands for the settings of its requests. */
  ghost predicate Sound(d: Device) {
    (forall id: nat :: id in d.issued <==> id < d.nextId) && S.Sound(d.issued, d.history)
  }

  lemma {:induction false} CataloguedMore(catalog: S.Catalog, more: S.Catalog, requests: seq<Request>)
    requires S.Catalogued(catalog, requests)
    requires forall id | id in catalog :: id in more && more[id] == catalog[id]
    ensures S.Catalogued(more, requests)
  {
  }

  /** New ids leave what was said of the old ones. */
  lemma {:induction false} SoundMore(catalog: S.Catalog, more: S.Catalog, h: S.History)
    requires S.Sound(catalog, h) && forall id | id in catalog :: id in more && more[id] == catalog[id]
    ensures S.Sound(more, h)
  {
    CataloguedMore(catalog, more, h.handler.queue);
    CataloguedMore(catalog, more, h.handler.streaming);
    if h.handler.held.Some? { CataloguedMore(catalog, more, [h.handler.held.value.request]); }
  }

  lemma {:induction false} NumberedCatalogued(issued: S.Catalog, id: nat, settings: seq<nat>)
    ensures S.Catalogued(Issue(issued, id, settings), Numbered(id, settings))
  {
  }

  lemma {:induction false} IssueKeys(issued: S.Catalog, id: nat, settings: seq<nat>, k: nat)
    ensures k in Issue(issued, id, settings) <==> k in issued || id <= k < id + |settings|
  {
    var requests := Numbered(id, settings);
    if id <= k < id + |settings| {
      var r := requests[k - id];
      assert r in requests && r.id == k;
    }
  }

  lemma {:induction false} SubmitSound(d: Device, id: nat, settings: seq<nat>, streaming: bool)
    requires Sound(d) && id == d.nextId
    ensures S.Sound(Issue(d.issued, id, settings), d.history)
    ensures S.Sound(Issue(d.issued, id, settings), Queued(d.history, Numbered(id, settings), streaming))
  {
    var more, requests := Issue(d.issued, id, settings), Numbered(id, settings);
    SoundMore(d.issued, more, d.history);
    NumberedCatalogued(d.issued, id, settings);
    S.StepSound(more, d.history, if streaming then RepeatOp(requests) else QueueOp(requests));
  }

  lemma {:induction false} StepSound(d: Device, op: Op)
    requires Sound(d) && Fair(d, op)
    ensures Sound(Advance(d, op))
  {
    match op
    case ReadId(_) =>
    case SubmitList(caller, settings, streaming, _) =>
      if caller in d.read {
        SubmitSound(d, d.nextId, settings, streaming);
        forall k: nat {
          IssueKeys(d.issued, d.nextId, settings, k);
        }
      }
    case HandlerOp(op) =>
      if !op.QueueOp? && !op.RepeatOp? { S.StepSound(d.issued, d.history, op); }
  }

  /**
   Over whole runs, from the lists of requests the callers submit to the HAL: each id stands for one set of settings,
   and every accepted request is worked on with its own.
   */
  lemma {:induction false} RunSound(ops: seq<Op>)
    requires FairRun(ops)
    ensures Sound(Run(ops))
    ensures forall s | s in Run(ops).history.accepted :: s.used == Some(s.request.settings)
  {
    if ops != [] {
      RunSound(ops[..|ops| - 1]);
      StepSound(Run(ops[..|ops| - 1]), ops[|ops| - 1]);
    }
  }

  /** The ids of a list are new if and only if no other list came in between. */
  lemma {:induction false} FreshIff(d: Device, caller: nat, settings: seq<nat>)
    requires Sound(d) && caller in d.read && d.read[caller] <= d.nextId && settings != []
    ensures (forall r | r in Numbered(d.read[caller], settings) :: r.id !in d.issued) <==> d.read[caller] == d.nextId
  {
    var rs := Numbered(d.read[caller], settings);
    assert rs[0] in rs;
  }

  lemma {:induction false} RunAdds(ops: seq<Op>, op: Op)
    ensures Run(ops + [op]) == Advance(Run(ops), op)
  {
    assert (ops + [op])[..|ops|] == ops;
  }

  /** Two callers that read the same id. */
  const BOTH_READ := [ReadId(0)] + [ReadId(1)]

  /** A list of one request, worked on at once. */
  function Worked(caller: nat, settings: nat): seq<Op> {
    [SubmitList(caller, [settings], false, true)] + [HandlerOp(GetOp)] + [HandlerOp(SubmitOp(true))]
  }

  /** The handler is idle and the caller has read id 0. */
  predicate Poised(d: Device, caller: nat) {
    && caller in d.read && d.read[caller] == 0
    && d.history.handler.queue == [] && d.history.handler.streaming == [] && d.history.handler.held.None?
    && !d.history.handler.configUpdate
  }

  lemma {:induction false} WorkedOff(ops: seq<Op>, caller: nat, settings: nat)
    requires Poised(Run(ops), caller)
    ensures var d, d' := Run(ops), Run(ops + Worked(caller, settings));
            var carried := d.history.handler.oldId != 0;
            && d'.read == d.read - {caller} && d'.history.handler.oldId == 0
            && d'.history.handler.(nextFrame := 0, oldId := 0) == d.history.handler.(nextFrame := 0, oldId := 0)
            && d'.history.hal == (if carried then Some(settings) else d.history.hal)
            && d'.history.accepted
               == d.history.accepted + [S.Submission(Request(0, settings, false), carried, d'.history.hal)]
  {
    var o1 := ops + [SubmitList(caller, [settings], false, true)];
    var o2 := o1 + [HandlerOp(GetOp)];
    RunAdds(ops, SubmitList(caller, [settings], false, true));
    RunAdds(o1, HandlerOp(GetOp));
    RunAdds(o2, HandlerOp(SubmitOp(true)));
    assert ops + Worked(caller, settings) == o2 + [HandlerOp(SubmitOp(true))];
    assert Numbered(0, [settings]) == [Request(0, settings, false)];
    assert Run(o1).history.handler.queue == [Request(0, settings, false)];
    assert Run(o2).history.handler.held.value.request == Request(0, settings, false);
  }

  /** A run that breaks it: two callers read the same id, and the second request gets the settings of the first. */
  lemma {:induction false} IdsCollide(a: nat, b: nat)
    ensures Run(BOTH_READ + Worked(0, a) + Worked(1, b)).history.accepted
         == [S.Submission(Request(0, a, false), true, Some(a)), S.Submission(Request(0, b, false), false, Some(a))]
  {
    RunAdds([], ReadId(0));
    assert [] + [ReadId(0)] == [ReadId(0)];
    RunAdds([ReadId(0)], ReadId(1));
    WorkedOff(BOTH_READ, 0, a);
    WorkedOff(BOTH_READ + Worked(0, a), 1, b);
  }
}
