/**
 The request handler object: the client calls and the steps of its thread, which update the lists and counters in place,
 each proved against the corresponding function on handler values.
 */
module Camera3RequestHandler {
  import opened Common
  import opened RequestScheduler
  import opened FrameNumbers

  class RequestHandler {
    const hasErrorCb: bool
    var requests: seq<Request>
    var streamingRequests: seq<Request>
    var currentFrameNumber: nat
    var currentInputFrameNumber: nat
    var streamingLastFrameNumber: int
    var configurationUpdate: bool
    var oldRequestId: int
    var currentRequest: Option<Held>

    /** The requests reported through the error callback so far, with their numbers. */
    var errors: seq<Given>

    ghost function View(): Handler
      reads this
    {
      Handler(requests, streamingRequests, currentFrameNumber, currentInputFrameNumber, streamingLastFrameNumber,
              configurationUpdate, oldRequestId, currentRequest, hasErrorCb)
    }

    constructor (hasErrorCb: bool)
      ensures View() == NewHandler(hasErrorCb) && errors == []
    {
      this.hasErrorCb := hasErrorCb;
      requests, streamingRequests := [], [];
      currentFrameNumber, currentInputFrameNumber, streamingLastFrameNumber := 0, 0, NO_FRAMES;
      configurationUpdate, oldRequestId, currentRequest := false, NO_ID, None;
      errors := [];
    }

    method FinishConfiguration()
      modifies this`configurationUpdate
      ensures View() == RequestScheduler.FinishConfiguration(old(View()))
    {
      configurationUpdate := true;
    }

    method QueueRequestList(list: seq<Request>) returns (lastFrameNumber: int)
      modifies this`requests
      ensures (View(), lastFrameNumber) == RequestScheduler.QueueRequestList(old(View()), list)
    {
      for i := 0 to |list|
        invariant requests == old(requests) + list[..i]
      {
        requests := requests + [list[i]];
      }
      assert list[..|list|] == list;
      lastFrameNumber := currentFrameNumber + |requests| - 1;
    }

    method SetRepeatingRequests(list: seq<Request>) returns (lastFrameNumber: int)
      modifies this`streamingRequests, this`streamingLastFrameNumber
      ensures (View(), lastFrameNumber) == RequestScheduler.SetRepeatingRequests(old(View()), list)
    {
      lastFrameNumber := streamingLastFrameNumber;
      streamingRequests := list;
      streamingLastFrameNumber := NO_FRAMES;
    }

    method ClearRepeatingRequests() returns (lastFrameNumber: int)
      modifies this`streamingRequests, this`streamingLastFrameNumber
      ensures (View(), lastFrameNumber) == RequestScheduler.ClearRepeatingRequests(old(View()))
    {
      streamingRequests := [];
      lastFrameNumber := streamingLastFrameNumber;
      streamingLastFrameNumber := NO_FRAMES;
    }

    /** A flush; with a request in hand it then waits for that to be submitted, `waited` being how the wait ends. */
    method Clear(waited: int) returns (code: int, lastFrameNumber: int)
      requires currentFrameNumber < FRAME_LIMIT
      modifies this`streamingRequests, this`streamingLastFrameNumber, this`requests, this`currentFrameNumber
      modifies this`errors
      ensures (View(), lastFrameNumber) == RequestScheduler.Clear(old(View()))
      ensures errors == old(errors) + Giving(old(View()), FlushOp)
      ensures code == if currentRequest.Some? then waited else 0
    {
      streamingRequests := [];
      if hasErrorCb {
        ghost var first := currentFrameNumber;
        for i := 0 to |requests|
          modifies this`currentFrameNumber, this`errors
          invariant currentFrameNumber == Later(first, i)
          invariant errors == old(errors) + Numbered(requests, first)[..i]
        {
          errors := errors + [Given(requests[i], currentFrameNumber)];
          currentFrameNumber := NextFrame(currentFrameNumber);
        }
        assert Numbered(requests, first)[..|requests|] == Numbered(requests, first);
      }
      requests := [];
      lastFrameNumber := streamingLastFrameNumber;
      streamingLastFrameNumber := NO_FRAMES;
      code := if currentRequest.Some? then waited else 0;
    }

    /** The place of the first reprocess request in the queue, or its length. */
    method FindInput() returns (i: nat)
      ensures i == FirstInput(requests)
    {
      i := 0;
      while i < |requests| && !requests[i].input
        invariant i <= FirstInput(requests)
        decreases |requests| - i
      {
        i := i + 1;
      }
    }

    method GetRequest()
      modifies this
      ensures View() == RequestScheduler.GetRequest(old(View())) && errors == old(errors)
    {
      var next, frame := None, 0;
      if requests == [] {
        if streamingRequests == [] {
          return;
        }
        next, frame := Some(streamingRequests[0]), currentFrameNumber;
        requests := requests + streamingRequests[1..];
        streamingLastFrameNumber := currentFrameNumber + |streamingRequests| - 1;
        currentFrameNumber := NextFrame(currentFrameNumber);
      } else {
        var i := FindInput();
        if i < |requests| {
          next, frame := Some(requests[i]), currentInputFrameNumber;
          requests := requests[..i] + requests[i + 1..];
          currentInputFrameNumber := NextFrame(currentInputFrameNumber);
        } else {
          next, frame := Some(requests[0]), currentFrameNumber;
          requests := requests[1..];
          currentFrameNumber := NextFrame(currentFrameNumber);
        }
      }
      if configurationUpdate {
        oldRequestId := NO_ID;
        configurationUpdate := false;
      }
      currentRequest := Some(Held(next.value, frame));
    }

    /** The settings that go to the HAL with the request in hand, if any. */
    method SubmitRequest() returns (settings: Option<nat>)
      requires currentRequest.Some?
      modifies this`oldRequestId, this`currentRequest
      ensures View() == RequestScheduler.SubmitRequest(old(View()))
      ensures settings == if Carries(old(View())) then Some(old(currentRequest).value.request.settings) else None
    {
      settings := None;
      var next := currentRequest.value.request;
      if oldRequestId != next.id {
        settings := Some(next.settings);
        oldRequestId := next.id;
      }
      currentRequest := None;
    }
  }
}
