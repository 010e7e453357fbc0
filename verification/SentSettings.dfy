/**
 Sending settings only when the request id changes refines sending them always: over every run the settings the HAL
 works with are those of the request it is given.
 */
module SentSettings {
  import opened Common
  import opened RequestScheduler

  /** The settings of each request id: copies of a request share its id and its settings. */
  type Catalog = map<nat, nat>

  /** A request the HAL accepted and the settings it works with: the ones sent with it, or the last ones sent. */
  datatype Submission = Submission(request: Request, carried: bool, used: Option<nat>)

  /** A handler, the last settings the HAL was sent since it was configured, and the submissions it accepted. */
  datatype History = History(handler: Handler, hal: Option<nat>, accepted: seq<Submission>)

  const START := History(NewHandler(true), None, [])

  function Advance(h: History, op: Op): History {
    var handler := Apply(h.handler, op).0;
    match op
    case ConfiguredOp => History(handler, None, h.accepted)
    case SubmitOp(accepted) =>
      if h.handler.held.None? || !accepted then h.(handler := handler)
      else
        var r, carried := h.handler.held.value.request, Carries(h.handler);
        var used := if carried then Some(r.settings) else h.hal;
        History(handler, used, h.accepted + [Submission(r, carried, used)])
    case _ => h.(handler := handler)
  }

  function Run(ops: seq<Op>): History {
    if ops == [] then START else Advance(Run(ops[..|ops| - 1]), ops[|ops| - 1])
  }

  predicate Catalogued(catalog: Catalog, requests: seq<Request>) {
    forall r | r in requests :: r.id in catalog && catalog[r.id] == r.settings
  }

  /**
   Requests have the settings of their id, the streams are configured while no request is in hand, and a submission
   that carries settings is accepted.
   */
  predicate Fair(catalog: Catalog, h: Handler, op: Op) {
    match op
    case QueueOp(requests) => Catalogued(catalog, requests)
    case RepeatOp(requests) => Catalogued(catalog, requests)
    case ConfiguredOp => h.held.None?
    case SubmitOp(accepted) => Carries(h) ==> accepted
    case _ => true
  }

  predicate FairRun(catalog: Catalog, ops: seq<Op>) {
    ops == [] || (FairRun(catalog, ops[..|ops| - 1]) && Fair(catalog, Run(ops[..|ops| - 1]).handler, ops[|ops| - 1]))
  }

  /** What the handler believes it sent last is what the HAL was sent last. */
  predicate InSync(catalog: Catalog, h: Handler, hal: Option<nat>) {
    h.oldId == NO_ID || h.configUpdate || (h.oldId in catalog && hal == Some(catalog[h.oldId]))
  }

  predicate Sound(catalog: Catalog, h: History) {
    && Catalogued(catalog, h.handler.queue) && Catalogued(catalog, h.handler.streaming)
    && (h.handler.held.Some? ==> Catalogued(catalog, [h.handler.held.value.request]) && !h.handler.configUpdate)
    && (h.handler.configUpdate ==> h.hal == None)
    && InSync(catalog, h.handler, h.hal)
    && forall s | s in h.accepted :: s.used == Some(s.request.settings)
  }

  lemma {:induction false} StepSound(catalog: Catalog, h: History, op: Op)
    requires Sound(catalog, h) && Fair(catalog, h.handler, op)
    ensures Sound(catalog, Advance(h, op))
  {
  }

  /** Over whole runs, every accepted request is worked on with its own settings, as if they were always sent. */
  lemma {:induction false} RunSound(catalog: Catalog, ops: seq<Op>)
    requires FairRun(catalog, ops)
    ensures Sound(catalog, Run(ops))
  {
    if ops != [] {
      RunSound(catalog, ops[..|ops| - 1]);
      StepSound(catalog, Run(ops[..|ops| - 1]), ops[|ops| - 1]);
    }
  }

  /**
   The first submission the HAL accepts after a configuration carries settings: it has none of its own to fall back on.
   */
  lemma {:induction false} FirstCarries(catalog: Catalog, ops: seq<Op>, more: seq<Op>)
    requires FairRun(catalog, ops + [ConfiguredOp] + more)
    requires |Run(ops + [ConfiguredOp] + more).accepted| > |Run(ops).accepted|
    ensures Run(ops + [ConfiguredOp] + more).accepted[|Run(ops).accepted|].carried
  {
    AfterConfiguration(ops, more);
    RunSound(catalog, ops + [ConfiguredOp] + more);
    var n := |Run(ops).accepted|;
    var s := Run(ops + [ConfiguredOp] + more).accepted[n];
    assert s in Run(ops + [ConfiguredOp] + more).accepted;
  }

  /**
   Until a submission is accepted after a configuration the HAL has no settings, so the first one carries its own or
   none are used.
   */
  lemma {:induction false} AfterConfiguration(ops: seq<Op>, more: seq<Op>)
    ensures OwnSettings(Run(ops + [ConfiguredOp] + more), |Run(ops).accepted|)
  {
    var all := ops + [ConfiguredOp] + more;
    if more == [] {
      assert all[..|all| - 1] == ops;
    } else {
      AfterConfiguration(ops, more[..|more| - 1]);
      assert all[..|all| - 1] == ops + [ConfiguredOp] + more[..|more| - 1];
      OwnSettingsStay(Run(all[..|all| - 1]), more[|more| - 1], |Run(ops).accepted|);
    }
  }

  /** No settings at the HAL before the n-th accepted submission, which then has none but its own. */
  predicate OwnSettings(h: History, n: nat) {
    && n <= |h.accepted|
    && (|h.accepted| == n ==> h.hal == None)
    && (|h.accepted| > n ==> h.accepted[n].carried || h.accepted[n].used == None)
  }

  lemma {:induction false} OwnSettingsStay(h: History, op: Op, n: nat)
    requires OwnSettings(h, n)
    ensures OwnSettings(Advance(h, op), n)
  {
  }

  /** The id of the last request submitted since the streams were configured, whatever became of it. */
  function LastTried(ops: seq<Op>): Option<nat> {
    if ops == [] then None
    else
      var held := Run(ops[..|ops| - 1]).handler.held;
      match ops[|ops| - 1]
      case ConfiguredOp => None
      case SubmitOp(_) => if held.Some? then Some(held.value.request.id) else LastTried(ops[..|ops| - 1])
      case _ => LastTried(ops[..|ops| - 1])
  }

  /** The streams are never configured while a request is in hand. */
  predicate ConfiguredIdle(ops: seq<Op>) {
    ops != [] ==>
      && ConfiguredIdle(ops[..|ops| - 1])
      && (ops[|ops| - 1].ConfiguredOp? ==> Run(ops[..|ops| - 1]).handler.held.None?)
  }

  /** What the handler remembers of that id. */
  predicate Remembers(h: Handler, last: Option<nat>) {
    if h.configUpdate then last == None && h.held.None?
    else h.oldId == if last.Some? then last.value else NO_ID
  }

  lemma {:induction false} TriedRemembered(ops: seq<Op>)
    requires ConfiguredIdle(ops)
    ensures Remembers(Run(ops).handler, LastTried(ops))
  {
    if ops != [] { TriedRemembered(ops[..|ops| - 1]); }
  }

  /**
   In every run, also with failures, settings go along exactly if none were submitted since the configuration, or those
   of another id were submitted last.
   */
  lemma {:induction false} CarriesIff(ops: seq<Op>)
    requires ConfiguredIdle(ops) && Run(ops).handler.held.Some?
    ensures Carries(Run(ops).handler) <==> LastTried(ops) != Some(Run(ops).handler.held.value.request.id)
  {
    TriedRemembered(ops);
  }

  /** A submission leaves nothing in hand, so that none is made twice. */
  lemma {:induction false} SubmittedOnce(h: History, accepted: bool, again: bool)
    ensures Advance(Advance(h, SubmitOp(accepted)), SubmitOp(again)) == Advance(h, SubmitOp(accepted))
    ensures h.handler.held.Some? ==>
              |Advance(h, SubmitOp(accepted)).accepted| == |h.accepted| + if accepted then 1 else 0
  {
  }

  /**
   The condition on failures is exact: a submission keeps handler and HAL in step if and only if it is accepted, or
   carries nothing, or the HAL happens to have those settings already.
   */
  lemma {:induction false} SubmitInSyncIff(catalog: Catalog, h: History, accepted: bool)
    requires Sound(catalog, h) && h.handler.held.Some?
    ensures InSync(catalog, Advance(h, SubmitOp(accepted)).handler, Advance(h, SubmitOp(accepted)).hal)
       <==> accepted || !Carries(h.handler) || h.hal == Some(h.handler.held.value.request.settings)
  {
  }

  /** A run that breaks it: the first copy of a repeating request fails, and the next is accepted without settings. */
  lemma {:induction false} LostSettings()
    ensures var r := Request(0, 42, false);
            var ops := [RepeatOp([r]), GetOp, SubmitOp(false), GetOp, SubmitOp(true)];
            Run(ops).accepted == [Submission(r, false, None)]
  {
    var r := Request(0, 42, false);
    var o1, o2 := [RepeatOp([r])], [RepeatOp([r]), GetOp];
    var o3, o4 := [RepeatOp([r]), GetOp, SubmitOp(false)], [RepeatOp([r]), GetOp, SubmitOp(false), GetOp];
    var o5 := [RepeatOp([r]), GetOp, SubmitOp(false), GetOp, SubmitOp(true)];
    assert o1[..0] == [] && o2[..1] == o1 && o3[..2] == o2 && o4[..3] == o3 && o5[..4] == o4;
    assert Run(o1) == START.(handler := START.handler.(streaming := [r]));
    assert Run(o2).handler.held == Some(Held(r, 0));
    assert Run(o2).handler.oldId == NO_ID && Run(o2).hal == None && Run(o2).accepted == [];
    assert Run(o3).handler.oldId == 0 && Run(o3).hal == None && Run(o3).accepted == [];
    assert Run(o4).handler.held == Some(Held(r, 1)) && Run(o4).handler.oldId == 0;
    assert Run(o4).hal == None && Run(o4).accepted == [];
  }
}
