# Verified core of the multimedia recorder

This project models, in Dafny, the parts of the QMMF recorder whose correctness lies in state that many calls share:
the tracker of captures in flight, the stream buffer pool with the request scheduler and the idle monitor, the Exif
writer and parser, the packet queue, the packed tag container and the resizer's arithmetic. Every method of these
objects runs under a lock, so one call is one atomic step. Most parts come in two layers: step functions on values,
about which properties of whole runs are proved, and classes whose methods update fields, arrays and heap nodes in
place and are proved to do exactly what those step functions say.

| files | what they hold |
|---|---|
| `Common` | optional values, and frame numbers with their 32-bit wrap |
| `CaptureTracker`, `CaptureRuns`, `CaptureOrder`, `CaptureCompletion`, `CaptureErrors`, `CaptureReports`, `CameraDeviceClient` | captures in flight: the steps, conservation of buffers, delivery order, completion of a frame, frames in error, what is counted and told, the object |
| `StreamPool`, `StreamRuns`, `StreamLaws`, `Camera3Stream` | the buffer pool of a stream with its six-state lifecycle: the steps, what every run keeps, what callers rely on, the object with its slot array |
| `CameraMonitor`, `MonitorLaws`, `StreamActivity` | the idle monitor, what its client and its callers rely on, and any number of streams on one monitor |
| `RequestScheduler`, `FrameNumbers`, `RepeatingRuns`, `SentSettings`, `RequestIds`, `Camera3RequestHandler`, `BufferAcquisition` | the request queue with its repeating list, promised frame numbers, what is repeated and for how long, settings sent on change only, the ids this relies on, the object, all-or-nothing acquisition |
| `Bytes`, `ExifFormat`, `ExifWriter`, `ExifBlock`, `ExifGenerator`, `ExifParser`, `ExifConverter`, `ExifRoundTrip`, `ExifTags`, `ExifValues`, `ExifLayout` | the APP1 block (section 4.6.2 of Exif 2.2, section 2 of TIFF 6.0): layout, the writer with its two buffers and its relocation, the parser, the round trip, the tags the program itself writes, what is read back of them, the bytes |
| `DeviceRuns` | streams and tracker together: every buffer from its stream through request thread, HAL, tracker and client and back |
| `AvQueue`, `AvQueueAbort`, `AvQueueRing` | the packet queue as a sequence, what emptying it hands over, and the circular doubly linked list on the heap |
| `PackedTags`, `ExtraParam` | the packed tag container as bytes and as an object |
| `Resizer`, `NeonResizer` | fixed-point tables, bands of rows, addresses of rows; the loops that compute them |

`dafny verify dfyconfig.toml` checks the whole project.

Conditions that the properties need, and where the code does not meet them on its own:

- A negative shutter time loses buffers: `CaptureRuns.NegativeShutterLosesOutputs` says exactly which, with a run in
  `CaptureRuns.BufferLost`.
- The delivery order ends with the last 32-bit frame number: `CaptureOrder.OrderEndsAtWrap`, with a run whose results
  come out in decreasing order in `CaptureOrder.OrderBroken`.
- A result the tracker refuses loses the buffers it brings for good: `DeviceRuns.LostIff` and `DeviceRuns.NeverBack`,
  with a run in `DeviceRuns.BufferStranded`.
- A frame that got more buffers than it was marked with never leaves, not even in error or by a flush:
  `CaptureReports.TooManyRefused` and `CaptureReports.OverdrawnForEver`.
- A request the HAL refuses stays registered although nothing is due for it any more: `DeviceRuns.RefusedStays`, with a
  run in `DeviceRuns.RefusedLingers`.
- A caller reads the next request id before it takes the lock, so two callers can get the same ids, and then requests go
  with the settings of others: `RequestIds.FreshIff`, with a run in `RequestIds.IdsCollide`.
- A caller that waited for a buffer and goes on while its stream is being configured from scratch gets a buffer that is
  then freed while it is out: `StreamRuns.ResumeConsistentIff`, with a run in `StreamRuns.LateResumeFreesWhileOut`.
- A configuration that is aborted leaves a configured stream as it was but without its monitor: `StreamLaws.AbortRestores`.
- The preparation of a stream completes by itself only if its pool was empty: `StreamLaws.PrepareCompletesIff`.
- A stream that ends a configuration with a buffer out is idle for the monitor although it is not:
  `StreamActivity.EndLinkIff`, with a run in `StreamActivity.IdleWithBufferOut`.
- A submission that carries settings and fails leaves the handler believing they were sent: `SentSettings.SubmitInSyncIff`,
  with a run in `SentSettings.LostSettings`.
- A flush without an error callback breaks the frame numbers promised: `FrameNumbers.FlushKeepsPromisesIff`, with a run
  in `FrameNumbers.PromiseBroken`.
- The packet queue's initialization lets a delay below one through, and then a run takes the size below zero:
  `AvQueue.DelayBoundExact`, with the run in `AvQueue.BadRunFails`.
- The Exif parser shifts a byte out of its eight bits, so a byte survives only if it is zero, and does not read undefined
  or signed values, unknown ids or more than one short or long: `ExifParser.ReadTagIff`. Of the program's own tags only
  the altitude reference is a byte: a position below sea level is read back as one above, `ExifTags.OwnRoundTrip`.
- The Exif writer never forgets an overflow: if it comes before the first good block, every later block reports size
  zero; after a good block a size is reported even for a block that overflows: `ExifGenerator.Generator.WriteExifData`.
- The Exif writer does not check the copy of the helper buffer, so the data area of the last directory may pass the
  65535 bytes of a block without an overflow. The parser still reads such a block, and its length field has lost bits:
  `ExifRoundTrip.LengthFieldIff`. The lengths of the maker's name that lead there are in `ExifTags.LongBlockIff`.
- A destination width that is not a multiple of eight makes the rows of a band drift: `Resizer.RowPlaceIff`, with an
  instance in `Resizer.TwelveColumnsDrift`.
- A table whose last source offset exceeds 16 bits loses bits: `Resizer.TableExactIff`, with an input in
  `Resizer.WideSourceLoses`.

## Model

| member | source | states |
|---|---|---|
| `CaptureCompletion.FrameCompletes` | common/cameraadaptor/qmmf_camera3_device_client.cc:1050-1198 | A frame marked with n buffers, under every interleaving of its shutter, its partial and final metadata and its buffers and any traffic for other frames, leaves the map exactly when everything has arrived; its buffers are handed over once each, in order, with the shutter time; the client is told of the shutter with that time, of each partial with all that came before it, of the input buffer's handle, and of one result, the same whichever of shutter and metadata came first, which holds the frame count, every entry of the partials, and for each other tag what the final metadata says or else the partials; no error is raised for it |
| `CaptureRuns.RunConserves` | common/cameraadaptor/qmmf_camera3_device_client.cc:1138-1178 | In every run, errors and flushes included, the buffers marked for a frame are those remaining, parked, handed over or counted as input; a known shutter time means nothing is parked; a frame that left has nothing remaining and handed over each received output exactly once, in order |
| `CaptureRuns.StepConserves` | common/cameraadaptor/qmmf_camera3_device_client.cc:1050-1198 | One event that does not return too many buffers keeps the books of every frame balanced |
| `CaptureRuns.RetireBalance` | common/cameraadaptor/qmmf_camera3_device_client.cc:1447-1476 | Removal hands over exactly what was parked and only when nothing more is owed |
| `CaptureRuns.OtherFrames` | common/cameraadaptor/qmmf_camera3_device_client.cc:1050-1198 | An event leaves the entries of all other frames and has no effect that concerns them |
| `CaptureRuns.NegativeShutterLosesOutputs` | common/cameraadaptor/qmmf_camera3_device_client.cc:1154-1175 | After a negative shutter time a counted result keeps the books balanced if and only if it carries no outputs |
| `CaptureRuns.BufferLost` | common/cameraadaptor/qmmf_camera3_device_client.cc:1154-1175 | A run from the start in which a frame of one buffer is exposed with a negative time and its buffer, once received, is neither parked nor handed over |
| `CaptureOrder.RunOrdered` | common/cameraadaptor/qmmf_camera3_device_client.cc:1320-1347 | In every run the next expected result of a request kind never exceeds the next expected shutter, delivered results strictly increase, and none precedes its frame's shutter |
| `CaptureOrder.StepKeepsOrder` | common/cameraadaptor/qmmf_camera3_device_client.cc:1280-1305 | Every event with a frame number below the wrap keeps the delivery order |
| `CaptureOrder.OrderEndsAtWrap` | common/cameraadaptor/qmmf_camera3_device_client.cc:1280-1305 | An in-order shutter of a frame that stays in flight keeps the delivery order if and only if the 32-bit cursor does not wrap |
| `CaptureOrder.OrderBroken` | common/cameraadaptor/qmmf_camera3_device_client.cc:1280-1347 | A run of two whole frames, the last frame number and then 0, in which both results are delivered, in decreasing order |
| `CaptureCompletion.UpdateKeeps` | common/cameraadaptor/qmmf_camera3_device_client.cc:987-994 | An updated tag is what is found for it afterwards, and every other tag is found as before |
| `CaptureTracker.OneReportEach` | common/cameraadaptor/qmmf_camera3_device_client.cc:1375-1399 | Handing over buffers reports one buffer error for each failed one, and none during a flush |
| `CaptureCompletion.MergedRight` | common/cameraadaptor/qmmf_camera3_device_client.cc:1349-1372 | A delivered result holds every entry of the collected partials; the frame count found in it is the frame's, and every other tag is found as in the final metadata, or as in the partials if it is not there |
| `CaptureCompletion.PartialRight` | common/cameraadaptor/qmmf_camera3_device_client.cc:926-961 | A partial callback shows all entries received so far, with the frame count, the request id and, where the HAL calls for it, the mark of a partial |
| `CaptureErrors.ErrorRecorded` | common/cameraadaptor/qmmf_camera3_device_client.cc:1234-1250 | An error puts the entry of its frame in error and leaves everything else |
| `CaptureErrors.ErrorTold` | common/cameraadaptor/qmmf_camera3_device_client.cc:1220-1266 | The client is told once, with the kind of error its code stands for and the request it concerns; during a flush not at all |
| `CaptureErrors.ErrorLeaves` | common/cameraadaptor/qmmf_camera3_device_client.cc:1447-1476 | A frame in error leaves with the message after which nothing is to come, even without its metadata or its shutter; all its outputs, parked ones included, are handed over in order; it is remembered exactly if metadata or shutter is missing |
| `CaptureErrors.ErrorEnds` | common/cameraadaptor/qmmf_camera3_device_client.cc:1220-1266 | In every run, after an error for a frame in flight, the frame stays only while something of it is to come or nothing was heard of it since; once it has left every output received was handed over exactly once |
| `CaptureErrors.LateIgnored` | common/cameraadaptor/qmmf_camera3_device_client.cc:1078-1097 | What still comes for a remembered frame is ignored once and then refused |
| `CaptureErrors.NoSilentRefusal` | common/cameraadaptor/qmmf_camera3_device_client.cc:1050-1198 | A result that is not counted is reported as a device error, except a late one |
| `CaptureErrors.ShutterRefused` | common/cameraadaptor/qmmf_camera3_device_client.cc:1268-1318 | A shutter of an unknown frame, or out of order, exposes nothing and is reported |
| `CaptureErrors.MismatchReported` | common/cameraadaptor/qmmf_camera3_device_client.cc:1447-1476 | A frame without error that leaves is reported if and only if the times of its metadata and its shutter differ |
| `CaptureErrors.DeliveredIff` | common/cameraadaptor/qmmf_camera3_device_client.cc:1320-1373 | A final result is delivered if and only if it is in order and has a timestamp, and reported otherwise |
| `CaptureReports.Marked` | common/cameraadaptor/qmmf_camera3_device_client.cc:912-924 | A marked frame expects its buffers and has nothing else, whatever there was before; all other frames are as they were |
| `CaptureReports.CountedIff` | common/cameraadaptor/qmmf_camera3_device_client.cc:1050-1152 | A result is counted if and only if it brings something, its part number is in range, its frame is in flight, its final metadata is the first, and it brings no more buffers than are to come |
| `CaptureReports.EachFailureTold` | common/cameraadaptor/qmmf_camera3_device_client.cc:1375-1399 | Every failed buffer that a result or a shutter hands over, at once, from what was parked, or at removal, is reported to the client exactly once, and during a flush none is |
| `CaptureReports.FailurePutsInError` | common/cameraadaptor/qmmf_camera3_device_client.cc:1375-1399 | A failed buffer handed over outside a flush puts its frame in error, and a frame leaves exactly if nothing is to come and it is in error or has shutter and metadata |
| `CaptureReports.TooManyRefused` | common/cameraadaptor/qmmf_camera3_device_client.cc:1138-1147 | A result with too many buffers is reported; they are neither handed over nor parked, and yet counted |
| `CaptureReports.OverdrawnForEver` | common/cameraadaptor/qmmf_camera3_device_client.cc:1138-1147 | The frame then stays in flight in every run that does not mark it again |
| `CaptureReports.FlushLasts` | common/cameraadaptor/qmmf_camera3_device_client.cc:1375-1399 | In every run a flush is under way exactly if it was last said to be |
| `CameraDeviceClient.DeviceClient.MarkPendingRequest` | common/cameraadaptor/qmmf_camera3_device_client.cc:912-924 | A marked frame gets a fresh entry; no call is made |
| `CameraDeviceClient.DeviceClient.TakeInResult` | common/cameraadaptor/qmmf_camera3_device_client.cc:1099-1152 | The checks of a result against its entry, the buffer count and the partial callback, with the entry as far as it was changed when a check fails |
| `CameraDeviceClient.DeviceClient.DispatchResult` | common/cameraadaptor/qmmf_camera3_device_client.cc:1154-1175 | Before the shutter everything is parked, after it delivered and handed over |
| `CameraDeviceClient.DeviceClient.HandleCaptureResult` | common/cameraadaptor/qmmf_camera3_device_client.cc:1050-1198 | One result does to the entries, cursors, callbacks and streams what the tracker step says, also for unknown frames and malformed results |
| `CameraDeviceClient.DeviceClient.NotifyShutter` | common/cameraadaptor/qmmf_camera3_device_client.cc:1268-1318 | A shutter calls back first, is refused if out of order, and otherwise exposes the frame and removes it if complete |
| `CameraDeviceClient.DeviceClient.NotifyError` | common/cameraadaptor/qmmf_camera3_device_client.cc:1220-1266 | An error is recorded on the entry, which stays, and reported unless a flush is under way; `CaptureErrors` has what follows from that |
| `CameraDeviceClient.DeviceClient.SendCaptureResult` | common/cameraadaptor/qmmf_camera3_device_client.cc:1320-1373 | A result is delivered with frame count and collected partials (`CaptureCompletion.MergedRight`), in order, and moves the cursor even when it then turns out to lack a timestamp |
| `CameraDeviceClient.DeviceClient.ReturnOutputBuffers` | common/cameraadaptor/qmmf_camera3_device_client.cc:1375-1399 | All buffers go to their streams with the given time; a failed one marks the entry and is reported |
| `CameraDeviceClient.DeviceClient.RemovePendingRequestLocked` | common/cameraadaptor/qmmf_camera3_device_client.cc:1447-1476 | A complete or failed entry with nothing remaining leaves; a failed one that lacks shutter or metadata is remembered |
| `StreamRuns.RunSound` | common/cameraadaptor/qmmf_camera3_stream.cc:374-454 | In every run the slots in use are exactly the distinct handles of the pool, the pending count is the number of handles out, the HAL's and the client's counters add up to it modulo 2^32, and every handle ever obtained is in the pool or was freed exactly once |
| `StreamRuns.StepConsistent` | common/cameraadaptor/qmmf_camera3_stream.cc:676-894 | Every operation keeps pool, pending count and counters consistent |
| `StreamRuns.FreesWhenIdle` | common/cameraadaptor/qmmf_camera3_stream.cc:864-894 | Nothing is freed while a buffer is out |
| `StreamRuns.PendingBounded` | common/cameraadaptor/qmmf_camera3_stream.cc:715-819 | No more buffers are out than were obtained, and no more obtained than allowed |
| `StreamRuns.EndConfigureConsistent` | common/cameraadaptor/qmmf_camera3_stream.cc:821-862 | The reset of the counters of a new configuration happens with nothing out, so the sum stays right |
| `StreamRuns.ResumeConsistentIff` | common/cameraadaptor/qmmf_camera3_stream.cc:418-454 | A waiting caller that goes on keeps the stream consistent if and only if it does not succeed while the stream is being configured from scratch |
| `StreamRuns.ContendedReached` | common/cameraadaptor/qmmf_camera3_stream.cc:418-454 | A one-buffer stream whose buffer is out while a second caller waits is reached from a new stream |
| `StreamRuns.ReopenedReached` | common/cameraadaptor/qmmf_camera3_stream.cc:864-894 | From there the stream is closed for a new configuration with the caller still waiting |
| `StreamRuns.LateResumeFreesWhileOut` | common/cameraadaptor/qmmf_camera3_stream.cc:418-454 | A run in which that frees a buffer that is out |
| `StreamLaws.EndsConfigured` | common/cameraadaptor/qmmf_camera3_stream.cc:166-220 | A configuration ends well if and only if one is under way, there is a monitor, and no buffer of a pool that must go is out; then, if the demands changed or the stream is new, all old buffers are freed and the new pool is empty with places for the larger of the client's and the HAL's count, and otherwise the pool is as it was; a refusal frees nothing |
| `StreamLaws.RunServes` | common/cameraadaptor/qmmf_camera3_stream.cc:166-257 | In every run, also after aborted and failed configurations, a stream that is configured has a pool for what was last agreed and demands nothing else |
| `StreamLaws.Begins` | common/cameraadaptor/qmmf_camera3_stream.cc:110-156 | A configuration begins with the client's demands and gives up the monitor |
| `StreamLaws.AbortRestores` | common/cameraadaptor/qmmf_camera3_stream.cc:222-257 | In every reachable configured stream, a configuration that begins, changes demands any number of times and is aborted leaves the stream as it was, but without its monitor |
| `StreamLaws.TearsDown` | common/cameraadaptor/qmmf_camera3_stream.cc:374-416 | Tearing down succeeds if and only if no buffer is out, and then frees every buffer |
| `StreamLaws.Closes` | common/cameraadaptor/qmmf_camera3_stream.cc:864-894 | Closing frees every buffer if and only if none is out, and lets the next configuration start from scratch |
| `StreamLaws.BuffersMove` | common/cameraadaptor/qmmf_camera3_stream.cc:652-819 | A request that succeeds takes out a free buffer, or a new one only if none is free and there is a place; a buffer that comes back is free; nothing else moves buffers but what frees all |
| `StreamLaws.WaitsIff` | common/cameraadaptor/qmmf_camera3_stream.cc:418-454 | A request waits if and only if there is neither a free buffer nor a place for a new one |
| `StreamLaws.RefusalTells` | common/cameraadaptor/qmmf_camera3_stream.cc:715-819 | With every buffer out, a request that gets none is told of missing memory if and only if the pool has a place left |
| `StreamLaws.TimesOut` | common/cameraadaptor/qmmf_camera3_stream.cc:418-454 | A caller that waited in vain gets the code of a timeout and nothing else happens |
| `StreamLaws.GoodStaysOut` | common/cameraadaptor/qmmf_camera3_stream.cc:612-650 | A good buffer passed on stays out with the pool as it was; a failed one is back in the pool, with the client's counter as before |
| `StreamLaws.CountersTell` | common/cameraadaptor/qmmf_camera3_stream.cc:612-713 | In every run the two counters are, modulo 2^32, the buffers obtained less those passed on, and those passed on less those returned |
| `StreamLaws.PrepareBegins` | common/cameraadaptor/qmmf_camera3_stream.cc:259-294 | Preparation begins if and only if the stream is configured, has delivered nothing since, and has nothing out |
| `StreamLaws.PrepareEnds` | common/cameraadaptor/qmmf_camera3_stream.cc:331-352 | It may be ended at any time, and the buffers added stay |
| `StreamLaws.PreparedAdds` | common/cameraadaptor/qmmf_camera3_stream.cc:296-329 | Preparing buffers one after the other adds exactly these, free, and ends the preparation with as many as the pool has places |
| `StreamLaws.PrepareCompletesIff` | common/cameraadaptor/qmmf_camera3_stream.cc:296-329 | It completes by itself if and only if the pool was empty; otherwise the last place is taken too early and the next answer is an error |
| `Camera3Stream.OutputStream.BeginConfigure` | common/cameraadaptor/qmmf_camera3_stream.cc:110-156 | The status moves on and the monitor id is released, as the step says |
| `Camera3Stream.OutputStream.EndConfigure` | common/cameraadaptor/qmmf_camera3_stream.cc:166-220 | A configuration ends with the old pool kept, replaced or failed, which `StreamLaws.EndsConfigured` tells apart |
| `Camera3Stream.OutputStream.AbortConfigure` | common/cameraadaptor/qmmf_camera3_stream.cc:222-257 | The earlier demands and status come back |
| `Camera3Stream.OutputStream.BeginPrepare` | common/cameraadaptor/qmmf_camera3_stream.cc:259-294 | Preparation starts only on an idle configured stream |
| `Camera3Stream.OutputStream.PrepareBuffer` | common/cameraadaptor/qmmf_camera3_stream.cc:296-329 | One buffer is added, and preparation ends with the last |
| `Camera3Stream.OutputStream.EndPrepare` | common/cameraadaptor/qmmf_camera3_stream.cc:331-352 | Preparation ends |
| `Camera3Stream.OutputStream.TearDown` | common/cameraadaptor/qmmf_camera3_stream.cc:374-416 | Without a buffer out all are freed and the slots cleared |
| `Camera3Stream.OutputStream.GetBuffer` | common/cameraadaptor/qmmf_camera3_stream.cc:418-454 | A configured stream with every buffer out makes the caller wait; otherwise it hands out a buffer that can be obtained, or reports why not |
| `Camera3Stream.OutputStream.Resume` | common/cameraadaptor/qmmf_camera3_stream.cc:418-454 | A caller that waited and is woken is served by whatever the stream has become meanwhile |
| `Camera3Stream.OutputStream.Timeout` | common/cameraadaptor/qmmf_camera3_stream.cc:418-454 | A caller whose wait runs out leaves with the code for it and nothing else changes |
| `Camera3Stream.ConsistentFindable` | common/cameraadaptor/qmmf_camera3_stream.cc:715-819 | In every consistent stream a buffer of the pool is found in the slot array, which is what a buffer request relies on |
| `Camera3Stream.OutputStream.GetBufferLocked` | common/cameraadaptor/qmmf_camera3_stream.cc:715-819 | A free buffer, else a new one, is handed out, found or registered in the slot array, and the monitor is told of the first |
| `Camera3Stream.OutputStream.ReturnBuffer` | common/cameraadaptor/qmmf_camera3_stream.cc:652-713 | A buffer comes back, and the monitor is told of the last |
| `Camera3Stream.OutputStream.ReturnBufferToClient` | common/cameraadaptor/qmmf_camera3_stream.cc:612-650 | A good buffer becomes the client's; a failed one comes straight back in a second critical section |
| `Camera3Stream.OutputStream.ToClient` | common/cameraadaptor/qmmf_camera3_stream.cc:612-641 | The first critical section of that, which in a run other calls may follow before the second |
| `Camera3Stream.OutputStream.ConfigureLocked` | common/cameraadaptor/qmmf_camera3_stream.cc:821-862 | The pool is set up anew after an earlier one is closed; in any other status the call is refused |
| `Camera3Stream.OutputStream.CloseLocked` | common/cameraadaptor/qmmf_camera3_stream.cc:864-894 | Closing frees every buffer, and fails with one out |
| `Camera3Stream.OutputStream.Close` | common/cameraadaptor/qmmf_camera3_stream.cc:664-674 | Closing a stream that is not connected is no error |
| `StreamActivity.RunSound` | common/cameraadaptor/qmmf_camera3_stream.cc:188-202 | For any number of streams on one monitor, in every run, the last transition queued for a stream's id, or the stored state if none is, is active exactly if the stream has a buffer out |
| `StreamActivity.IdleMeansNoneOut` | common/cameraadaptor/qmmf_camera3_monitor.cc:129-173 | With nothing queued and an idle composite, no registered stream has a buffer out |
| `StreamActivity.EndLinkIff` | common/cameraadaptor/qmmf_camera3_stream.cc:166-220 | A stream that registers at the end of a configuration is linked to its id if and only if it has no buffer out |
| `StreamActivity.IdleWithBufferOut` | common/cameraadaptor/qmmf_camera3_stream.cc:166-220 | A run, a configuration repeated with a buffer out, after which nothing is queued and the composite is idle although the buffer is out |
| `CameraMonitor.NotificationsAlternate` | common/cameraadaptor/qmmf_camera3_monitor.cc:149-183 | In every run the notifications are the computed composite states without repetitions, alternate strictly and begin with active |
| `CameraMonitor.LoopEndsTrue` | common/cameraadaptor/qmmf_camera3_monitor.cc:129-173 | After each round the last notification is the true composite of the registered states |
| `MonitorLaws.NoneMissed` | common/cameraadaptor/qmmf_camera3_monitor.cc:149-183 | In every run the client is told every change of the composite from one queued transition to the next, and nothing else |
| `MonitorLaws.RequestsSettle` | common/cameraadaptor/qmmf_camera3_monitor.cc:97-173 | In every run a round brings each registered id to the state last asked for |
| `MonitorLaws.LastWins` | common/cameraadaptor/qmmf_camera3_monitor.cc:154-166 | Of several queued transitions of an id the last one counts, and none registers or releases an id |
| `MonitorLaws.IdsInOrder` | common/cameraadaptor/qmmf_camera3_monitor.cc:50-89 | Ids are 0, 1, 2, ... in the order acquired, new ones idle, registered until released |
| `CameraMonitor.MonitorThread.AcquireMonitor` | common/cameraadaptor/qmmf_camera3_monitor.cc:50-73 | A new id, registered as idle |
| `CameraMonitor.MonitorThread.ReleaseMonitor` | common/cameraadaptor/qmmf_camera3_monitor.cc:75-89 | The id is no longer registered |
| `CameraMonitor.MonitorThread.ChangeState` | common/cameraadaptor/qmmf_camera3_monitor.cc:97-108 | The transition is queued |
| `CameraMonitor.MonitorThread.BuildCompositeState` | common/cameraadaptor/qmmf_camera3_monitor.cc:120-127 | The scan says active if and only if some registered state is |
| `CameraMonitor.MonitorThread.ThreadLoop` | common/cameraadaptor/qmmf_camera3_monitor.cc:129-186 | One round drains the queue and notifies every change of the composite |
| `FrameNumbers.RunSound` | common/cameraadaptor/qmmf_camera3_request_handler.cc:502-568 | In every run numbers are given as 0, 1, 2, ... modulo 2^32, without gap or repeat, in the order requests join the queue |
| `FrameNumbers.PredictionHolds` | common/cameraadaptor/qmmf_camera3_request_handler.cc:112-128 | The number replied for a queued list is the one its last request is given, and no other request is, whatever is queued, repeated or flushed later |
| `FrameNumbers.RepeatingReply` | common/cameraadaptor/qmmf_camera3_request_handler.cc:163-216 | The number replied when a repeating list is replaced, cleared or flushed is the largest ever given to a copy of it, also to copies still queued, and -1 exactly if there was no copy |
| `FrameNumbers.FlushKeepsPromisesIff` | common/cameraadaptor/qmmf_camera3_request_handler.cc:192-216 | The next request queued after a flush is given a number promised to a flushed one if and only if there is no error callback and something was queued |
| `FrameNumbers.PromiseBroken` | common/cameraadaptor/qmmf_camera3_request_handler.cc:192-216 | A run in which the number 0, promised to one request, is given to another after a flush |
| `RepeatingRuns.RepeatsCurrent` | common/cameraadaptor/qmmf_camera3_request_handler.cc:163-216 | In every run the list repeated is the one last set, and none if it was cleared or flushed since |
| `RepeatingRuns.StoppedMeansStopped` | common/cameraadaptor/qmmf_camera3_request_handler.cc:180-216 | From any state, after a repeating list was cleared or flushed and until the next is set, only queued requests join the line, and with an empty queue nothing is taken; a flush leaves the queue empty |
| `RepeatingRuns.WholeCopy` | common/cameraadaptor/qmmf_camera3_request_handler.cc:502-568 | With an empty queue the whole repeating list is taken, one request after the other in its order, until the queue is empty again |
| `RepeatingRuns.InputNumbers` | common/cameraadaptor/qmmf_camera3_request_handler.cc:545-568 | In every run the first reprocess request of the queue is taken before all others, numbered 0, 1, 2, ... modulo 2^32 with its own kind; the rest of the queue stays in order and its numbers are not used up |
| `SentSettings.RunSound` | common/cameraadaptor/qmmf_camera3_request_handler.cc:347-354 | In every run each accepted request is worked on with its own settings, as if they were always sent |
| `SentSettings.FirstCarries` | common/cameraadaptor/qmmf_camera3_request_handler.cc:577-583 | The first submission accepted after a configuration carries settings |
| `SentSettings.CarriesIff` | common/cameraadaptor/qmmf_camera3_request_handler.cc:338-354 | In every run, also with failures, a submission carries settings if and only if it is the first since the configuration or the one before had another id |
| `SentSettings.SubmittedOnce` | common/cameraadaptor/qmmf_camera3_request_handler.cc:338-437 | A submission leaves nothing in hand, so that no request is submitted twice |
| `SentSettings.SubmitInSyncIff` | common/cameraadaptor/qmmf_camera3_request_handler.cc:347-354 | A submission keeps handler and HAL in step if and only if it is accepted, carries nothing, or the HAL has those settings already |
| `SentSettings.LostSettings` | common/cameraadaptor/qmmf_camera3_request_handler.cc:338-437 | A run in which a failed submission makes the next one go without settings |
| `RequestIds.RunSound` | common/cameraadaptor/qmmf_camera3_device_client.cc:1525-1641 | For any number of callers, in every run in which no list is submitted between another caller's look at the next id and its submission, each id stands for one set of settings and every accepted request is worked on with its own |
| `RequestIds.FreshIff` | common/cameraadaptor/qmmf_camera3_device_client.cc:1536-1621 | The ids given to a list are new if and only if no other list came in between |
| `RequestIds.IdsCollide` | common/cameraadaptor/qmmf_camera3_device_client.cc:1536-1621 | A run in which two callers read the same id and the second one's request is worked on with the settings of the first |
| `Camera3RequestHandler.RequestHandler.FinishConfiguration` | common/cameraadaptor/qmmf_camera3_request_handler.cc:105-110 | The next request will carry settings |
| `Camera3RequestHandler.RequestHandler.QueueRequestList` | common/cameraadaptor/qmmf_camera3_request_handler.cc:112-128 | The list joins the queue; the reply is the number its last request will get |
| `Camera3RequestHandler.RequestHandler.SetRepeatingRequests` | common/cameraadaptor/qmmf_camera3_request_handler.cc:163-178 | The repeating list is replaced; the reply is the last number of the old one |
| `Camera3RequestHandler.RequestHandler.ClearRepeatingRequests` | common/cameraadaptor/qmmf_camera3_request_handler.cc:180-190 | The same for an empty list, after which nothing is repeated (`RepeatingRuns.StoppedMeansStopped`) |
| `Camera3RequestHandler.RequestHandler.Clear` | common/cameraadaptor/qmmf_camera3_request_handler.cc:192-216 | Both lists are emptied; with an error callback every queued request is reported with the number it was due; the code is that of the wait for the request in hand, if there is one |
| `Camera3RequestHandler.RequestHandler.GetRequest` | common/cameraadaptor/qmmf_camera3_request_handler.cc:502-590 | The next request, from the repeating list, the reprocess requests or the queue, with its number |
| `Camera3RequestHandler.RequestHandler.SubmitRequest` | common/cameraadaptor/qmmf_camera3_request_handler.cc:338-354 | Settings go along if and only if the request id differs from the last one that had them |
| `RequestScheduler.FirstInput` | common/cameraadaptor/qmmf_camera3_request_handler.cc:545-559 | The first reprocess request of the queue |
| `BufferAcquisition.GetBuffers` | common/cameraadaptor/qmmf_camera3_request_handler.cc:356-417 | Buffers are taken stream by stream, and the only thing that ends this early is a stream that has none; exactly these are out in addition |
| `BufferAcquisition.GetOne` | common/cameraadaptor/qmmf_camera3_request_handler.cc:356-417 | One stream is asked: exactly one more of its buffers is out, or nothing changes |
| `BufferAcquisition.HandleErrorRequest` | common/cameraadaptor/qmmf_camera3_request_handler.cc:478-500 | Giving back what was taken restores the pending counts and the outstanding handles of every stream |
| `BufferAcquisition.SubmitRequest` | common/cameraadaptor/qmmf_camera3_request_handler.cc:338-437 | All or nothing: a submission succeeds if and only if every named stream has a buffer and neither the tracker nor the HAL refuses; if it fails every stream has its pending count and outstanding handles as before; if it succeeds one more buffer of each named stream is out |
| `DeviceRuns.RunSound` | common/cameraadaptor/qmmf_camera3_request_handler.cc:338-437 | For any number of streams on one device, in every interleaving of requests that take buffers, wait, give up or are refused, HAL messages, deliveries, client returns and reconfigurations: the buffers out of all streams are exactly those in hand, at the HAL, parked, on their way, at the client or lost, each in one place; the parked ones of a frame are those its entry holds; and its entry counts as remaining exactly those still due and its input buffer |
| `DeviceRuns.StepSound` | common/cameraadaptor/qmmf_camera3_device_client.cc:1050-1318 | Each of these steps keeps that |
| `DeviceRuns.BackSound` | common/cameraadaptor/qmmf_camera3_stream.cc:652-713 | A buffer that comes back from the client, from a request given up or refused, or after a failure, is always taken back by its stream |
| `DeviceRuns.QuietDevice` | common/cameraadaptor/qmmf_camera3_device_client.cc:1447-1476 | With no frame in flight and nothing in hand or on its way, what is out is exactly what the client holds |
| `DeviceRuns.LostIff` | common/cameraadaptor/qmmf_camera3_device_client.cc:1099-1152 | A buffer the HAL brings is lost if and only if the tracker does not count the result it comes with |
| `DeviceRuns.NeverBack` | common/cameraadaptor/qmmf_camera3_device_client.cc:1099-1152 | However a run goes on, a lost buffer never comes back to its stream |
| `DeviceRuns.BufferStranded` | common/cameraadaptor/qmmf_camera3_device_client.cc:1061-1068 | A run with one stream and one request in which a result with a wrong partial count loses its buffer |
| `DeviceRuns.RefusedStays` | common/cameraadaptor/qmmf_camera3_request_handler.cc:402-420 | A frame the HAL refused stays registered |
| `DeviceRuns.RefusedLingers` | common/cameraadaptor/qmmf_camera3_request_handler.cc:402-420 | A run in which nothing is due for a refused frame and its entry still waits for a buffer |
| `AvQueue.Run` | common/avqueue/qmmf_queue.cc:118-245 | In every run each pushed packet is exactly one of queued, popped or freed, pops follow the order of pushing, and a real-time queue never exceeds its size |
| `AvQueue.PushSound` | common/avqueue/qmmf_queue.cc:118-156 | A push keeps that, dropping the oldest packet of a full queue |
| `AvQueue.PopSound` | common/avqueue/qmmf_queue.cc:169-223 | A pop keeps that, catching up after an overflow |
| `AvQueue.AbortSound` | common/avqueue/qmmf_queue.cc:225-245 | Emptying the queue keeps that |
| `AvQueue.CatchUp` | common/avqueue/qmmf_queue.cc:197-217 | The first pop after an overflow returns the oldest of the newest min(size, delay) packets |
| `AvQueue.DelayBoundExact` | common/avqueue/qmmf_queue.cc:41-87 | For the limits initialization accepts, the size counter stays non-negative in every run of pushes, pops and aborts if and only if the delay is at least one |
| `AvQueue.CountIsLength` | common/avqueue/qmmf_queue.cc:118-223 | Within the limits the size counter is the length of the queue in every run |
| `AvQueue.BadRunFails` | common/avqueue/qmmf_queue.cc:118-223 | With a delay below one a push, or a run that overflows the queue and pops once, takes the counter below zero |
| `AvQueueAbort.AbortHandsOver` | common/avqueue/qmmf_queue.cc:225-245 | What an abort gives to the caller's function is every packet but null ones, each as often as it was queued, newer before older |
| `AvQueueRing.AVQueue.AVQueueInit` | common/avqueue/qmmf_queue.cc:41-87 | An empty queue, its sentinel linked to itself, or null if and only if a real-time queue is to lag by more than it holds |
| `AvQueueRing.AVQueue.AVQueuePushHead` | common/avqueue/qmmf_queue.cc:118-156 | The ring of nodes holds the pushed sequence, and what was dropped is freed |
| `AvQueueRing.AVQueue.AVQueuePopTail` | common/avqueue/qmmf_queue.cc:169-223 | The ring holds the popped sequence, and the packet dropped or returned is the model's |
| `AvQueueRing.AVQueue.AVQueueAbort` | common/avqueue/qmmf_queue.cc:225-245 | The ring is empty and every packet other than null was given to the caller's function, newest first |
| `ExifRoundTrip.RoundTrip` | common/utils/qmmf_exif_converter.cc:156-238 | A finished block of tags the parser handles, even one longer than its length field can say, parses as the blank entries followed by the tags of the zeroth, the Exif and the GPS directory as they were written, in order, without the pointer tags and with every pointer the place of its directory, if and only if none of them is a byte other than zero |
| `ExifRoundTrip.BlockParses` | common/utils/qmmf_exif_converter.cc:156-238 | In any case it parses as these tags with every byte turned into zero |
| `ExifTags.OwnFine` | common/exif-generator/qmmf_exif_generator.cc:187-426 | All the tags the program writes, for any values, can be written by the writer and are handled by the parser |
| `ExifTags.OwnRoundTrip` | common/exif-generator/qmmf_exif_generator.cc:187-426 | The program's own block, with any names, numbers, position, time and processing method, is read as it would have been written at or above sea level, and so as it was written if and only if the position is not below |
| `ExifValues.OwnValues` | common/exif-generator/qmmf_exif_generator.cc:187-426 | In the parse of the program's own block each tag id has, with type and count, the value that the program was given for it, such as the width for 0xA002, and there is no other entry; the altitude reference alone always reads as above sea level |
| `ExifValues.InteropRead` | common/exif-generator/qmmf_exif_generator.cc:257-285 | The interoperability directory of the program's own block, which the parser skips, holds the rule `R98` and the version `0100` |
| `ExifLayout.HeaderBytes` | common/exif-generator/qmmf_exif_generator.cc:691-735 | A finished block begins with the bytes FF E1, its length without them, `Exif` and two zeros, and the big-endian TIFF header with the first directory at 8 |
| `ExifLayout.EntryBytes` | common/exif-generator/qmmf_exif_generator.cc:107-145 | A reader that only knows big-endian numbers finds in a written directory the number of tags, and for each its id, type, count and words, in the entry if they take up to four bytes and otherwise where the entry says |
| `ExifLayout.EvenPlaces` | common/exif-generator/qmmf_exif_generator.cc:107-185 | The zeroth, the Exif and the GPS directory, and each out-of-line value in them, begin on even places |
| `ExifTags.LongBlockIff` | common/exif-generator/qmmf_exif_generator.cc:180-184 | The program's own block of a short product name and a position is recorded and yet too long for its length field if and only if the maker's name has 64974 to 65027 characters |
| `ExifRoundTrip.GenerateThenConvert` | common/exif-generator/qmmf_exif_generator.cc:83-105 | If the block can be recorded, the parser object accepts what the writer object leaves in the buffer, and its list of tags and its pointers are those of `BlockParses`; if not, and no block was good before, the size is zero |
| `ExifRoundTrip.LengthFieldIff` | common/exif-generator/qmmf_exif_generator.cc:428-437 | The length field of a finished block is the number of bytes written minus two if and only if that is a 16-bit number |
| `ExifParser.ReadIfd` | common/utils/qmmf_exif_converter.cc:53-79 | A directory of handled and pointer tags is parsed as the list it was written from |
| `ExifParser.ReadTag` | common/utils/qmmf_exif_converter.cc:248-338 | A tag that is handled, inline or out of line, is read as it was written, a byte as zero |
| `ExifParser.ReadTagIff` | common/utils/qmmf_exif_converter.cc:248-338 | A tag that is present and no pointer is read as written if and only if its id, type and count are handled; a byte only if it is zero |
| `ExifParser.ReadPointer` | common/utils/qmmf_exif_converter.cc:263-278 | A pointer tag sets its pointer, counted from the start of the block, and adds no entry |
| `ExifParser.SlotPresent` | common/exif-generator/qmmf_exif_generator.cc:147-185 | In a closed directory an entry's data field, plus the TIFF base, addresses exactly its value's bytes |
| `ExifConverter.Converter.GetTagDataByTagType` | common/utils/qmmf_exif_converter.cc:248-338 | The data of one tag, by its type |
| `ExifConverter.Converter.ReadRationals` | common/utils/qmmf_exif_converter.cc:284-293 | The loop reads the numerators and denominators one after the other |
| `ExifConverter.Converter.ParseDirectory` | common/utils/qmmf_exif_converter.cc:53-79 | The loop over the entries reaches what the entries lead to one after the other, and stops at the first bad one |
| `ExifConverter.Converter.ConvertExifBinary` | common/utils/qmmf_exif_converter.cc:156-238 | The header is checked, then the zeroth, the Exif and the GPS directory are parsed |
| `ExifBlock.ValuesApart` | common/exif-generator/qmmf_exif_generator.cc:147-185 | Data areas are pairwise disjoint, within a directory and across directories |
| `ExifBlock.ValuesOffEntries` | common/exif-generator/qmmf_exif_generator.cc:147-185 | No data area overlaps the entries of any directory |
| `ExifBlock.SetZeroth` | common/exif-generator/qmmf_exif_generator.cc:428-437 | Setting a pointer of the zeroth directory gives the directory with that pointer and leaves the others |
| `ExifBlock.SetExif` | common/exif-generator/qmmf_exif_generator.cc:428-437 | The same for the Exif directory |
| `ExifBlock.DirsAreFine` | common/exif-generator/qmmf_exif_generator.cc:383-426 | Every list of tags has directories the writer can write |
| `ExifBlock.AllRecorded` | common/exif-generator/qmmf_exif_generator.cc:691-735 | If the last directory is recorded without an overflow then so are the others and their padding |
| `ExifWriter.AfterTag` | common/exif-generator/qmmf_exif_generator.cc:107-145 | One more tag leaves the entries and the out-of-line values written before |
| `ExifWriter.RelocationStep` | common/exif-generator/qmmf_exif_generator.cc:160-180 | Adding the place of the data area less the TIFF base to an entry's helper offset makes it refer to its value, and leaves the other entries |
| `ExifWriter.CopyCloses` | common/exif-generator/qmmf_exif_generator.cc:180-184 | Copying the helper buffer behind relocated entries completes the directory |
| `ExifWriter.IfdSame` | common/exif-generator/qmmf_exif_generator.cc:147-185 | A directory depends on its own bytes only |
| `ExifFormat.DataLenIsTypeSize` | common/exif-generator/qmmf_exif_base_types.h:53-65 | The size of a value is the size of its type times its count |
| `ExifFormat.Read32` | common/exif-generator/qmmf_exif_generator.cc:853-864 | Reading four big-endian bytes undoes writing them |
| `ExifFormat.Read16` | common/exif-generator/qmmf_exif_generator.cc:842-851 | The same for two bytes |
| `ExifGenerator.Generator.WriteByte` | common/exif-generator/qmmf_exif_generator.cc:832-840 | One byte, or the overflow flag and no change |
| `ExifGenerator.Generator.WriteShort` | common/exif-generator/qmmf_exif_generator.cc:842-851 | Two bytes, high one first, or the overflow flag and no change |
| `ExifGenerator.Generator.WriteLong` | common/exif-generator/qmmf_exif_generator.cc:853-864 | Four bytes, high one first, or the overflow flag and no change |
| `ExifGenerator.Generator.WriteNBytes` | common/exif-generator/qmmf_exif_generator.cc:866-874 | A copy of the bytes, which must leave the last byte of the block free, or the overflow flag |
| `ExifGenerator.Generator.OverwriteShort` | common/exif-generator/qmmf_exif_generator.cc:822-830 | Two bytes at a given place |
| `ExifGenerator.Generator.WriteTagValue` | common/exif-generator/qmmf_exif_generator.cc:737-820 | The value of a tag of any type: all of it, or the overflow flag, with text left out whole and other values written as far as there is room |
| `ExifGenerator.Generator.WriteExifTag` | common/exif-generator/qmmf_exif_generator.cc:107-145 | Twelve bytes in the directory and a value of more than four bytes on an even place of the helper buffer; without room in either of them the overflow flag, with the other one written all the same |
| `ExifGenerator.Generator.EndWritingIfd` | common/exif-generator/qmmf_exif_generator.cc:147-185 | The directory is complete, with count, entries, closing zeros and every out-of-line value where its entry says, and what is before it is unchanged; or it does not fit and the overflow flag is set |
| `ExifGenerator.Generator.Write0thIfd` | common/exif-generator/qmmf_exif_generator.cc:383-426 | The zeroth directory, padded to an even place, and where its two pointers are; or the overflow flag |
| `ExifGenerator.Generator.WriteExifIfd` | common/exif-generator/qmmf_exif_generator.cc:287-381 | The Exif directory and where its pointer is; or the overflow flag |
| `ExifGenerator.Generator.WriteInteropIfd` | common/exif-generator/qmmf_exif_generator.cc:257-285 | The interoperability directory, padded; or the overflow flag |
| `ExifGenerator.Generator.WriteGpsIfd` | common/exif-generator/qmmf_exif_generator.cc:187-255 | The GPS directory; or the overflow flag |
| `ExifGenerator.Generator.UpdateFields` | common/exif-generator/qmmf_exif_generator.cc:428-437 | Over written directories each pointer then addresses its directory and the length field is the length without the marker in 16 bits; the directories are otherwise as they were |
| `ExifGenerator.Generator.WriteExifData` | common/exif-generator/qmmf_exif_generator.cc:691-735 | The overflow flag is set if and only if it was before or the block cannot be recorded; a recorded block is a finished block of the given tags; the size is zero if an overflow came before the first good block |
| `ExifGenerator.Generator.Generate` | common/exif-generator/qmmf_exif_generator.cc:83-105 | The same in a buffer of the caller's; an error without one |
| `PackedTags.RunSound` | include/qmmf-sdk/qmmf_recorder_extra_param.h:219-287 | After every run of updates with one data size per tag the buffer is the records one after the other, a linear scan rebuilds exactly the index, with consecutive entry numbers, and every fetch replies as the lists of data do |
| `PackedTags.LatestWins` | include/qmmf-sdk/qmmf_recorder_extra_param.h:107-153 | An accepted update is what the next fetch of its entry finds; no fetch of another entry or tag notices |
| `PackedTags.UpdateSound` | include/qmmf-sdk/qmmf_recorder_extra_param.h:219-271 | An update does to index and buffer what it does to the lists of data, and returns the same code |
| `PackedTags.FetchSound` | include/qmmf-sdk/qmmf_recorder_extra_param.h:273-287 | A fetch finds what the list of its tag holds |
| `PackedTags.ScanRebuilds` | include/qmmf-sdk/qmmf_recorder_extra_param.h:211-215 | Walking the descriptors of packed records, from the bytes alone, gives their index |
| `ExtraParam.TagContainer.FillDataEntry` | include/qmmf-sdk/qmmf_recorder_extra_param.h:219-271 | Data over the old data, or a new descriptor and data at the end, or the error; data that would go beyond the buffer is told apart |
| `ExtraParam.TagContainer.UpdateEntry` | include/qmmf-sdk/qmmf_recorder_extra_param.h:107-125 | Data of another tag is refused |
| `ExtraParam.TagContainer.FetchEntry` | include/qmmf-sdk/qmmf_recorder_extra_param.h:127-153 | The data of an entry, an error code, the exception for a missing entry, or a read beyond the buffer, which is told apart |
| `Resizer.TableExact` | common/resizer-neon/res_neon_prv.h:228-241 | Offset times 256 plus weight is index times scale, without loss to 16 or 32 bits, and the offset is below the source dimension |
| `Resizer.TableExactIff` | common/resizer-neon/res_neon_prv.h:228-241 | For all 32-bit dimensions, also those whose step wraps around, the table is exact if and only if the last offset is a 16-bit number |
| `Resizer.WideSourceLoses` | common/resizer-neon/res_neon_prv.h:228-241 | Two destination columns of 131072 source columns both start from the first |
| `Resizer.TableMonotone` | common/resizer-neon/res_neon_prv.h:235-241 | Offsets do not go backwards |
| `Resizer.ChromaRowBelow` | common/resizer-neon/res_neon.cc:495-499 | A chroma row starts within the chroma rows of the source |
| `Resizer.BandsCover` | common/resizer-neon/res_neon.cc:782-839 | The bands of either half of two or more threads make up all rows |
| `Resizer.RowInOneBand` | common/resizer-neon/res_neon.cc:782-839 | Every row is in exactly one band |
| `Resizer.HalvesCover` | common/resizer-neon/res_neon.cc:495-495 | The chroma rows of the bands make up all chroma rows |
| `Resizer.RowPlaceIff` | common/resizer-neon/res_neon.cc:300-302 | A row is written at its own place if and only if the width is a multiple of eight or it is the first of its band |
| `Resizer.TwelveColumnsDrift` | common/resizer-neon/res_neon.cc:300-302 | Row 1 of a band of twelve columns is written from place 8 on |
| `NeonResizer.ResnContext.UpdateCoefs` | common/resizer-neon/res_neon_prv.h:197-259 | The tables are those of the dimensions, kept or computed anew, for source dimensions of any 32-bit size, and exact for source dimensions from 1 to 65535, the two weights of each chroma pair included |
| `NeonResizer.SplitLines` | common/resizer-neon/res_neon.cc:782-839 | Two or more threads get luma bands that make up all rows and chroma bands that make up all chroma rows, beginning with even rows; fewer are refused |
| `NeonResizer.LumaWalk` | common/resizer-neon/res_neon.cc:229-302 | Byte x of row r is written at the row's place plus x and computed from source row r of the table, or of the scale, at the column that entry x of the table says; each row at its own place for widths that are multiples of eight |
| `NeonResizer.ChromaWalk` | common/resizer-neon/res_neon.cc:484-541 | The same for chroma rows and pairs: pair x of a row is computed from the source pair that entry x says |
| `NeonResizer.RowsAgree` | common/resizer-neon/res_neon.cc:229-302 | The two ways to come by the source row, from the table and from the scale, agree and stay within the source |
| `NeonResizer.LumaReadsInPlane` | common/resizer-neon/res_neon.cc:229-302 | Byte x of row r is computed from source row r times the vertical step and column x times the horizontal step, in units of 1/256 rounded down, and that is within the source plane |
| `NeonResizer.ChromaReadsInPlane` | common/resizer-neon/res_neon.cc:484-541 | The same for the pairs of the chroma plane |

## Left out

- The HAL, the allocator, vendor tags, the JPEG library, overlays, parcels and thread plumbing are foreign calls or easy: the allocator answers with fresh handles or fails, waits wake or time out, and no liveness is claimed.
- The tracker assumes an error callback; the sorting of delivered metadata, the separate 3A partial notification and failures of metadata updates are not modelled.
- A frame number in flight is not marked again; normal and reprocess requests number independently in one map, which the program does not check.
- The reprocess worker, smooth zoom, the pause protocol and the handler's own monitor registration are not modelled; reprocess requests enter the scheduler's frame numbers only through the queue, and the numbers promised are for lists without them.
- The search of a stream for a free buffer goes through a sorted vector in the program; the model lets it find any free buffer.
- BufferAcquisition.SubmitRequest: is one submission without others in between, on pools that are values rather than stream objects; `DeviceRuns` has the interleavings.
- BufferAcquisition.GetBuffers: refuses a stream with every buffer out instead of waiting; waiting requests are in `DeviceRuns`.
- In `DeviceRuns` the shutter times are not negative, and a delivered buffer is taken as good or failed without looking at the status it was handed over with.
- In `RequestIds` ids do not wrap around and lists hold no reprocess requests.
- Waking a consumer of an empty packet queue, which makes the size negative, is not modelled.
- AvQueueRing.AVQueue.AVQueuePushHead: asks for a maximum size of at least one of a real-time queue; otherwise the program takes the sentinel for a packet, as `AvQueue.BadRunFails` shows.
- AvQueueRing.AVQueue.AVQueuePopTail: asks for a delay of at least one after an overflow, for the same reason.
- ExifGenerator.Generator.WriteTagValue: a count of zero for a type other than text or undefined data writes one value that the count does not announce, and values of nearly 2^32 bytes wrap 32-bit sums around; such tags are not modelled.
- ExifGenerator.Generator.WriteExifTag: asks that a value of out-of-line bytes does not take up the last byte of the helper buffer, and so do the members above it: the next value would step past that buffer, of which the program then copies a byte too many. The program's own tags are never of that kind.
- ExifGenerator.Generator.EndWritingIfd: asks for a buffer that holds everything that may be copied, which the program does not check.
- ExifGenerator.Generator.Write0thIfd: asks for both, like `WriteExifTag` and `EndWritingIfd`.
- ExifGenerator.Generator.WriteExifIfd: likewise.
- ExifGenerator.Generator.WriteInteropIfd: likewise.
- ExifGenerator.Generator.WriteGpsIfd: likewise.
- ExifGenerator.Generator.WriteExifData: likewise, for all four directories.
- ExifGenerator.Generator.Generate: likewise.
- The lists of tags are arguments of the writer, and those of the program are in `ExifTags`; how their values are computed from camera metadata, clocks and floating-point positions is not modelled.
- Exif tag order and the alignment of the interoperability directory are not established by the writer.
- ExtraParam.TagContainer.FillDataEntry: what a copy beyond the end of the buffer does to memory is not modelled, only that it happens; the whole-run statements ask for one data size per tag, with which it does not.
- Remove, Erase, Acquire and the locking calls of the container have no bodies in the sources.
- NeonResizer.ResnContext.UpdateCoefs: asks for destination dimensions from 1 to 65535; a destination of none divides by zero and a wider one never ends its 16-bit loop.
- The kernels' vector arithmetic and the second source row and column they blend in are not modelled.
