/**
 The device client itself: the critical sections that update the pending requests in place and call out,
 each proved against the corresponding function on tracker values.
 */
module CameraDeviceClient {
  import opened Common
  import opened CaptureTracker

  /** Dispatching overwrites the entry, so it does not matter that the entry was stored before. */
  lemma DispatchPut(cfg: Config, t: Tracker, e: Pending, collected: Metadata, r: HalResult)
    ensures Dispatch(cfg, t.Put(r.frame, e), e, collected, r) == Dispatch(cfg, t, e, collected, r)
  {
  }

  lemma {:induction false} Regroup(a: seq<Output>, b: seq<Output>, c: seq<Output>, d: seq<Output>, e: seq<Output>)
    ensures a + b + c + d + e == a + (b + c + d + e)
  {
  }

  class DeviceClient {
    const cfg: Config
    var pendingRequests: map<nat, Pending>
    var pendingErrorRequests: set<nat>
    var nextShutter: Cursors
    var nextResult: Cursors
    var flushOnGoing: bool

    /** The calls made to the client and to the streams so far. */
    var client: seq<Output>
    var handed: seq<Handover>

    ghost function View(): Tracker
      reads this
    {
      Tracker(pendingRequests, pendingErrorRequests, nextShutter, nextResult, flushOnGoing)
    }

    /** The state and the calls made are those of `a`, on top of earlier calls. */
    ghost predicate Did(a: After, oldClient: seq<Output>, oldHanded: seq<Handover>)
      reads this
    {
      View() == a.tracker && client == oldClient + a.client && handed == oldHanded + a.handed
    }

    constructor (cfg: Config)
      ensures this.cfg == cfg && View() == NEW_TRACKER && client == [] && handed == []
    {
      this.cfg := cfg;
      pendingRequests, pendingErrorRequests := map[], {};
      nextShutter, nextResult := Cursors(0, 0), Cursors(0, 0);
      flushOnGoing := false;
      client, handed := [], [];
    }

    method MarkPendingRequest(frame: nat, buffers: nat, extras: Extras)
      modifies this
      ensures View() == OnMark(old(View()), frame, buffers, extras)
      ensures client == old(client) && handed == old(handed)
    {
      pendingRequests := pendingRequests[frame := FreshPending(buffers, extras)];
    }

    method SetFlushing(on: bool)
      modifies this
      ensures Did(Step(cfg, old(View()), Flushing(on)), old(client), old(handed))
    {
      flushOnGoing := on;
    }

    method SendCaptureResult(final: Metadata, extras: Extras, collected: Metadata, frame: nat)
      modifies this`nextResult, this`client
      ensures nextResult == CursorsAfterSend(cfg, old(nextResult), final, extras, frame)
      ensures client == old(client) + SentOutputs(cfg, old(nextResult), final, extras, collected, frame)
    {
      if final == [] || !cfg.hasResultCb {
        return;
      }
      if frame < nextResult.At(extras.input) {
        client := client + [DeviceError(frame)];
        return;
      }
      nextResult := nextResult.Set(extras.input, NextFrame(frame));
      var metadata := Update(final, FrameCount, [frame]);
      if cfg.Partials() && collected != [] {
        metadata := metadata + collected;
      }
      assert metadata == Merged(cfg, final, collected, frame);
      if Find(metadata, SensorTimestamp) == [] {
        client := client + [DeviceError(frame)];
        return;
      }
      client := client + [ResultCb(frame, extras, metadata)];
    }

    /** Hands the buffers to their streams one by one; a failed one marks the frame and is reported. */
    method ReturnOutputBuffers(buffers: seq<Buffer>, ts: int, frame: nat)
      requires frame in pendingRequests
      modifies this`pendingRequests, this`client, this`handed
      ensures var e := old(pendingRequests)[frame];
              && pendingRequests
                 == old(pendingRequests)[frame := e.(status := StatusAfter(e.status, buffers, flushOnGoing))]
              && client == old(client) + BufferErrors(buffers, frame, e.extras, flushOnGoing)
      ensures handed == old(handed) + [Handover(frame, buffers, ts)]
    {
      var e := pendingRequests[frame];
      var batch: seq<Buffer> := [];
      for i := 0 to |buffers|
        invariant batch == buffers[..i]
        invariant handed == old(handed)
        invariant pendingRequests
               == old(pendingRequests)[frame := e.(status := StatusAfter(e.status, buffers[..i], flushOnGoing))]
        invariant client == old(client) + BufferErrors(buffers[..i], frame, e.extras, flushOnGoing)
      {
        assert buffers[..i + 1][..i] == buffers[..i] && buffers[..i + 1] == buffers[..i] + [buffers[i]];
        batch := batch + [buffers[i]];
        if buffers[i].status.StatusError? && !flushOnGoing {
          pendingRequests := pendingRequests[frame := pendingRequests[frame].(status := MSG_ERROR_BUFFER)];
          client := client + [ErrorCb(frame, ErrorBuffer, Some(e.extras))];
        }
      }
      assert buffers[..|buffers|] == buffers;
      handed := handed + [Handover(frame, batch, ts)];
    }

    method RemovePendingRequestLocked(frame: nat)
      requires frame in pendingRequests
      modifies this
      ensures Did(Retire(old(View()), frame), old(client), old(handed))
    {
      var request := pendingRequests[frame];
      if request.remaining == 0 && (request.status != 0 || (request.metaPresent && request.shutterTS != 0)) {
        if request.status == 0 && request.sensorTS != request.shutterTS {
          client := client + [DeviceError(frame)];
        }
        ReturnOutputBuffers(request.parked, 0, frame);
        request := pendingRequests[frame];
        if request.status != 0 && (!request.metaPresent || request.shutterTS == 0) {
          pendingErrorRequests := pendingErrorRequests + {frame};
        }
        pendingRequests := pendingRequests - {frame};
        assert pendingRequests == old(pendingRequests) - {frame};
      }
    }

    /** An in-order shutter: moves the cursor, then delivers and hands over what was parked for the frame. */
    method ExposeRequest(frame: nat, ts: int)
      requires frame in pendingRequests
      modifies this
      ensures Did(Expose(cfg, old(View()), frame, ts), old(client), old(handed))
    {
      var r := pendingRequests[frame];
      nextShutter := nextShutter.Set(r.extras.input, NextFrame(frame));
      pendingRequests := pendingRequests[frame := r.(shutterTS := ts)];
      SendCaptureResult(r.parkedMeta, r.extras, r.composed, frame);
      ReturnOutputBuffers(r.parked, ts, frame);
      pendingRequests := pendingRequests[frame := pendingRequests[frame].(parked := [])];
      assert pendingRequests == Expose(cfg, old(View()), frame, ts).tracker.pending;
    }

    method NotifyShutter(frame: nat, ts: int)
      modifies this
      ensures Did(OnShutter(cfg, old(View()), frame, ts), old(client), old(handed))
    {
      if frame !in pendingRequests {
        client := client + [DeviceError(frame)];
        return;
      }
      var r := pendingRequests[frame];
      if cfg.hasShutterCb {
        client := client + [ShutterCb(frame, r.extras, ts)];
      }
      if frame < nextShutter.At(r.extras.input) {
        client := client + [DeviceError(frame)];
        return;
      }
      ghost var called, d := client[|old(client)|..], Expose(cfg, View(), frame, ts);
      ExposeRequest(frame, ts);
      RemovePendingRequestLocked(frame);
      Regroup(old(client), called, d.client, Retire(d.tracker, frame).client, []);
    }

    method NotifyError(frame: nat, code: int)
      modifies this
      ensures Did(OnError(old(View()), frame, code), old(client), old(handed))
    {
      if code != MSG_ERROR_REQUEST && code != MSG_ERROR_RESULT && code != MSG_ERROR_BUFFER {
        client := client + [DeviceError(frame)];
        return;
      }
      var known := None;
      if frame in pendingRequests {
        var r := pendingRequests[frame].(status := code);
        pendingRequests := pendingRequests[frame := r];
        known := Some(r.extras);
      }
      if !flushOnGoing {
        client := client + [ErrorCb(frame, ErrorKind(code), known)];
      }
    }

    /** The checks and the buffer count of one result against its entry, and the partial callback it causes. */
    method TakeInResult(entry: Pending, result: HalResult) returns (intake: Intake)
      ensures intake == TakeIn(cfg, entry, result)
    {
      var request := entry;
      var outs: seq<Output> := [];
      var collected: Metadata := [];
      if result.partial != 0 {
        request := request.(extras := request.extras.(partialResultCount := result.partial));
      }
      var isPartial := false;
      if cfg.Partials() && result.meta.Some? {
        if result.partial > cfg.partialCount || result.partial < 1 {
          return Rejected(request, [DeviceError(result.frame)]);
        }
        isPartial := result.partial < cfg.partialCount;
        if isPartial {
          request := request.(composed := request.composed + result.meta.value);
          outs := PartialOutput(cfg, result.frame, request);
        }
      }
      if result.meta.Some? && !isPartial {
        if request.metaPresent {
          return Rejected(request, outs + [DeviceError(result.frame)]);
        }
        if cfg.Partials() {
          collected := request.composed;
          request := request.(composed := []);
        }
        request := request.(metaPresent := true);
      }
      request := request.(remaining := request.remaining - |result.outputs|);
      if result.input.Some? {
        request := request.(remaining := request.remaining - 1);
      }
      if request.remaining < 0 {
        return Rejected(request, outs + [DeviceError(result.frame)]);
      }
      if result.meta.Some? {
        var found := Find(result.meta.value, SensorTimestamp);
        if |found| == 1 {
          request := request.(sensorTS := found[0]);
        }
      }
      return Accepted(request, outs, collected);
    }

    /** Before the shutter, what an accepted result carries is parked. */
    method ParkResult(result: HalResult, collected: Metadata)
      requires result.frame in pendingRequests && pendingRequests[result.frame].shutterTS == 0
      modifies this`pendingRequests
      ensures var e := old(pendingRequests)[result.frame];
              pendingRequests
                 == old(pendingRequests)[result.frame := DispatchedEntry(cfg, e, collected, result, flushOnGoing)]
    {
      var request := pendingRequests[result.frame];
      request := request.(parked := request.parked + result.outputs);
      if IsFinal(cfg, result) {
        request := request.(parkedMeta := result.meta.value, composed := collected);
      }
      pendingRequests := pendingRequests[result.frame := request];
    }

    /** After it, the metadata is delivered and, for a positive shutter time, the buffers are handed over. */
    method DeliverResult(result: HalResult, collected: Metadata)
      requires result.frame in pendingRequests && pendingRequests[result.frame].shutterTS != 0
      modifies this`pendingRequests, this`nextResult, this`client, this`handed
      ensures Did(Dispatch(cfg, old(View()), old(pendingRequests)[result.frame], collected, result),
                  old(client), old(handed))
    {
      var frame := result.frame;
      var request := pendingRequests[frame];
      if IsFinal(cfg, result) {
        SendCaptureResult(result.meta.value, request.extras, collected, frame);
      }
      if 0 < request.shutterTS {
        ReturnOutputBuffers(result.outputs, request.shutterTS, frame);
      }
      assert pendingRequests
          == old(pendingRequests)[frame := DispatchedEntry(cfg, request, collected, result, flushOnGoing)];
    }

    /** Parks or delivers what an accepted result carries. */
    method DispatchResult(result: HalResult, collected: Metadata)
      requires result.frame in pendingRequests
      modifies this`pendingRequests, this`nextResult, this`client, this`handed
      ensures Did(Dispatch(cfg, old(View()), old(pendingRequests)[result.frame], collected, result),
                  old(client), old(handed))
    {
      if pendingRequests[result.frame].shutterTS == 0 {
        ParkResult(result, collected);
      } else {
        DeliverResult(result, collected);
      }
    }

    method HandleCaptureResult(result: HalResult)
      modifies this
      ensures Did(OnResult(cfg, old(View()), result), old(client), old(handed))
    {
      var frame := result.frame;
      if result.meta.None? && result.outputs == [] && result.input.None? {
        client := client + [DeviceError(frame)];
        return;
      }
      if !cfg.Partials() && result.meta.Some? && result.partial != 1 {
        client := client + [DeviceError(frame)];
        return;
      }
      if frame !in pendingRequests {
        if frame in pendingErrorRequests {
          pendingErrorRequests := pendingErrorRequests - {frame};
          return;
        }
        client := client + [DeviceError(frame)];
        return;
      }
      var intake := TakeInResult(pendingRequests[frame], result);
      if intake.Rejected? {
        pendingRequests := pendingRequests[frame := intake.entry];
        client := client + intake.outs;
        return;
      }
      AcceptResult(result, intake);
    }

    /** Books the entry, makes the callbacks of the intake, and parks or delivers. */
    method BookResult(result: HalResult, intake: Intake)
      requires result.frame in pendingRequests && intake.Accepted?
      modifies this`pendingRequests, this`nextResult, this`client, this`handed
      ensures var d := Dispatch(cfg, old(View()), intake.entry, intake.collected, result);
              View() == d.tracker && client == old(client) + intake.outs + d.client && handed == old(handed) + d.handed
    {
      pendingRequests := pendingRequests[result.frame := intake.entry];
      client := client + intake.outs;
      DispatchPut(cfg, old(View()), intake.entry, intake.collected, result);
      DispatchResult(result, intake.collected);
    }

    /**
     An accepted result: books the entry, parks or delivers, removes the entry if complete, returns the input buffer.
     */
    method AcceptResult(result: HalResult, intake: Intake)
      requires result.frame in pendingRequests && intake.Accepted?
      modifies this
      ensures Did(Accept(cfg, old(View()), intake, result), old(client), old(handed))
    {
      ghost var d := Dispatch(cfg, View(), intake.entry, intake.collected, result);
      BookResult(result, intake);
      RemovePendingRequestLocked(result.frame);
      ReturnInput(result);
      Regroup(old(client), intake.outs, d.client, Retire(d.tracker, result.frame).client, InputOutputs(result));
    }

    method ReturnInput(result: HalResult)
      modifies this`client
      ensures client == old(client) + InputOutputs(result)
    {
      if result.input.Some? {
        client := client + [InputOut(result.frame, result.input.value)];
      }
    }
  }
}
