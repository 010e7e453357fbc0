/**
 The request handler as values: a queue of requests, a repeating list expanded whenever the queue runs dry, frame
 numbers promised before they are given, and settings sent to the HAL only when the request id changes.
 */
module RequestScheduler {
  import opened Common

  /** Returned when no copy of a repeating list was ever taken. */
  const NO_FRAMES := -1

  /** Request ids are not negative; this one marks a cleared request. */
  const NO_ID := -1

  /** A capture request; `settings` stands for its metadata, `input` for a reprocess request. */
  datatype Request = Request(id: nat, settings: nat, input: bool)

  datatype Held = Held(request: Request, frame: nat)

  datatype Handler = Handler(
    queue: seq<Request>,
    streaming: seq<Request>,
    nextFrame: nat,
    nextInputFrame: nat,
    streamingLast: int,
    configUpdate: bool,
    oldId: int,
    held: Option<Held>,
    hasErrorCb: bool)

  function NewHandler(hasErrorCb: bool): Handler {
    Handler([], [], 0, 0, NO_FRAMES, false, NO_ID, None, hasErrorCb)
  }

  function Later(frame: nat, steps: nat): nat { (frame + steps) % FRAME_LIMIT }

  // ---------------------------------------------------------------- client calls

  function QueueRequestList(h: Handler, requests: seq<Request>): (Handler, int) {
    var queue := h.queue + requests;
    (h.(queue := queue), h.nextFrame + |queue| - 1)
  }

  function SetRepeatingRequests(h: Handler, requests: seq<Request>): (Handler, int) {
    (h.(streaming := requests, streamingLast := NO_FRAMES), h.streamingLast)
  }

  function ClearRepeatingRequests(h: Handler): (Handler, int) { SetRepeatingRequests(h, []) }

  /** A flush: with an error callback every queued request still gets its number, reported as an error. */
  function Clear(h: Handler): (Handler, int) {
    (h.(streaming := [], queue := [], streamingLast := NO_FRAMES,
        nextFrame := if h.hasErrorCb then Later(h.nextFrame, |h.queue|) else h.nextFrame),
     h.streamingLast)
  }

  function FinishConfiguration(h: Handler): Handler { h.(configUpdate := true) }

  // ---------------------------------------------------------------- the request thread

  /** The place of the first reprocess request in the queue; its length if there is none. */
  function FirstInput(queue: seq<Request>): (i: nat)
    ensures i <= |queue|
    ensures i < |queue| ==> queue[i].input
    ensures forall j | 0 <= j < i :: !queue[j].input
  {
    if queue == [] || queue[0].input then 0 else 1 + FirstInput(queue[1..])
  }

  /** A request is in hand; after a new configuration the last settings sent no longer count. */
  function Take(h: Handler, request: Request, frame: nat): Handler {
    h.(held := Some(Held(request, frame)), configUpdate := false, oldId := if h.configUpdate then NO_ID else h.oldId)
  }

  /**
   Takes the next request: a copy of the repeating list if the queue is empty, else a reprocess request, else the first.
   */
  function GetRequest(h: Handler): Handler {
    if h.queue == [] then
      if h.streaming == [] then h
      else
        Take(h.(queue := h.streaming[1..], streamingLast := h.nextFrame + |h.streaming| - 1,
                nextFrame := NextFrame(h.nextFrame)),
             h.streaming[0], h.nextFrame)
    else
      var i := FirstInput(h.queue);
      if i < |h.queue| then
        Take(h.(queue := h.queue[..i] + h.queue[i + 1..], nextInputFrame := NextFrame(h.nextInputFrame)),
             h.queue[i], h.nextInputFrame)
      else
        Take(h.(queue := h.queue[1..], nextFrame := NextFrame(h.nextFrame)), h.queue[0], h.nextFrame)
  }

  /** The submission carries settings when the request id differs from that of the last one that did. */
  predicate Carries(h: Handler) { h.held.Some? && h.oldId != h.held.value.request.id }

  /** The request in hand goes to the HAL, or fails on the way; either way its settings count as sent. */
  function SubmitRequest(h: Handler): Handler {
    if h.held.None? then h
    else h.(held := None, oldId := if Carries(h) then h.held.value.request.id else h.oldId)
  }

  datatype Op =
    | QueueOp(requests: seq<Request>)
    | RepeatOp(requests: seq<Request>)
    | StopRepeatOp
    | FlushOp
    | ConfiguredOp
    | GetOp
    | SubmitOp(accepted: bool)

  /** The new handler and the frame number replied, where the call replies one. */
  function Apply(h: Handler, op: Op): (Handler, int) {
    match op
    case QueueOp(requests) => QueueRequestList(h, requests)
    case RepeatOp(requests) => SetRepeatingRequests(h, requests)
    case StopRepeatOp => ClearRepeatingRequests(h)
    case FlushOp => Clear(h)
    case ConfiguredOp => (FinishConfiguration(h), NO_FRAMES)
    case GetOp => (GetRequest(h), NO_FRAMES)
    case SubmitOp(_) => (SubmitRequest(h), NO_FRAMES)
  }
}
