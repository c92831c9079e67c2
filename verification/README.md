# The browser's display path, modelled in Dafny

A Dafny 4.11 model of the parts of this embedded WPE browser where ownership, timing and pixels have to be right,
with proofs of what they promise. `dafny verify dfyconfig.toml` checks everything.

Everything the kernel, the GPU, the sockets and the clock decide is arbitrary in the model: sends may block or break,
commits may be refused, fences may fail, timers may be late. Where it matters which answer leads where, the answers of
one event can be foreseen (`Wrappers.Forecast`), and contracts say what then follows. Classes mirror the source's
objects and update their fields in place; step functions and predicates beside them state what the methods do, and
lemmas say what follows for whole runs.

**Video hole punch** (`VideoWire`, `VideoProtocol`, `VideoSafety`, `VideoConsumer`, `VideoProducer`). A decoder process
lends NV12 samples to the display over a socket that keeps packet boundaries and order. `VideoProtocol` is the joint
step system of decoder, any number of successive connections, and display; its steps are the atomic effects of the two
programs, so runs interleave them freely. `VideoSafety` proves by one invariant that no sample is recycled while the
plane scans it, that every lent sample is in one place, that queues stay bounded, and that a close is the last word.
`VideoConsumer` and `VideoProducer` are the two programs; each logs its effects, and the log is proved to be a run of
its half of the step system. A deferred frame or a requested disable always has a timer that takes it up again; when a
changed geometry and a waiting answer do not is said below, and `VideoExamples` has the runs. The fields of the source's
overlay state are grouped into records.

**Page frames** (`FrameLifecycle`, `FenceRetirement`, `FramePipeline`). The main loop of the primary plane as a class
with one method per event. Its invariant says that every page buffer the producer lent is in exactly one place, that a
buffer goes back only after the GPU is done with it, that every frame is answered once or displaced, that the display's
framebuffers are never drawn in, that a queued frame is never forgotten, and that redrawing the chrome over the kept
page gives what drawing the page anew would. Whenever a frame has its turn (`HadItsTurn`) the contracts say which
answers of fence, drawing and commit have it shown, held back or given up. `FrameExamples` has a run that shows a queued
frame, and runs in which a frame, a change of the chrome or the hole for the video is lost. The fields of the source's
private structure are grouped into records.
The branches the code guards with errors or assertions - no reusable framebuffer, a refused CPU write, an overflowing
quarantine, a wrong ticket phase - are proved unreachable where the code has them.

**Pixels** (`RotationKernels`, `PanelWriter`, `ScanoutBuffer`, `VideoCrop`, `VideoHole`). Rotation, letterboxing,
clipping, the video hole and the video plane's 16.16 crop, each against one pointwise specification, and the hole and
the plane together on the screen.

**Touch gesture** (`TouchGesture`, `GestureSoundness`, `GestureRuns`, `GestureCompleteness`, `GestureExamples`). The
recogniser of the two-finger triple tap with its driver: what a toggle means, that a triple tap is one, that no touch
is lost, delivered twice or out of order exactly when no irregular event occurs, and runs with each of the irregular
events.

**Smaller cores** (`MemoryGovernor`, `TabStore`, `CStrings`, `ProcessIdentity`). Hysteresis over runs, a relational
save and load of tabs, and a record printed and parsed back. `Wrappers` holds what several parts share.

## What turned out not to hold

Each entry has an input that shows it, and the condition under which the property does hold.

- Exactly-once delivery of touch frames fails in three cases: a frame beyond the 512-frame buffer, a third finger while
  the first finger's stream is passed through (`wpe-drm/browser-touch-gesture.c:296-311`), and a device that is
  resynchronised while frames wait that the page has not seen (`wpe-drm/wpe-drm-minimal.c:5282-5293`).
  `GestureExamples.OverflowLoses`, `ThirdFingerRepeats` and `ResyncLoses` are such runs;
  `GestureRuns.EveryFrameIsDeliveredOnce` shows for all runs that these are all.
- The limit on the gap between taps is enforced only by the timer. `GestureExamples.LateTimerAcceptsLongGaps` is a run
  with gaps of ten seconds; `GestureRuns.ToggleMeansTripleTap` shows that a toggle's taps keep to the limit if and only
  if none of them began with a frame later than the deadline the recogniser announces.
- The newest frame can be left on the plane with no client (`wpe-drm/VideoOverlay.cpp:652-660,800-808`).
  `VideoExamples.DisplaysForNobody` gets there; `VideoConsumer.VideoOverlayState.FlushPacket` says exactly when: a frame
  still waits, giving it back costs the client, its plane comes off, and the newer frame is then duplicated, imported
  and shown. If the kernel is busy at that moment the frame waits without a client and is shown by a later timer. The
  sample stays retained, so this is safe.
- An unusable frame leaves a geometry change pending without a retry timer (`wpe-drm/VideoOverlay.cpp:729-739`).
  `VideoExamples.ForgetsGeometry` gets there; `VideoConsumer.VideoOverlayState.RetryTimer` says exactly when, and
  `PageFlip` that the next flip makes up for it.
- Answers that the socket did not take may wait with nothing to tell when it would: when a connection breaks while the
  plane cannot be taken off, a source is attached to the dying client (`wpe-drm/VideoOverlay.cpp:306-315`), and its
  pointer outlives it, so that no source is attached for the next client, and only a further answer tries again.
  `VideoExamples.InheritsSource` gets there; `AcceptClient` and `AnswersAreWatched` say that answers are watched exactly
  when no source of another descriptor was left over at the accept, and every later event leaves such a source as it is
  while the client is there (`WatchKept`).
- A page frame that is displaced from the queue gets its buffer released but no FrameDone
  (`wpe-drm/DRMFrameQueue.cpp:174-184`). `FrameExamples.Displaces` is such a run;
  `FramePipeline.FrameView.RenderBuffer` says which serials are displaced, and a producer that waits for its answers is
  never displaced.
- A buffer handed over a second time while it still waits in the queue keeps its first ticket, with the geometry epoch
  of that time (`wpe-drm/DRMFrameQueue.cpp:184-186`), and is answered and not shown at its turn exactly when the
  geometry changed since, as far as fence, drawing and commit succeed (`RequestUpdate`, `CommitQueuedBuffer`).
  `FrameExamples.DropsRedrawnBuffer` is such a run.
- A chrome redraw that fails leaves the change pending with no timer (`wpe-drm/WPEViewDRM.cpp:165-175,201-204`).
  `FrameExamples.LosesChromeChange` is such a tick; `FramePipeline.FrameView.ChromeTick` says exactly when.
- The hole in the page can stay where the video no longer is: a moved video sets a flag that only the next page frame
  or chrome timer reads, and a page flip clears it (`wpe-drm/VideoOverlay.cpp:604-611,863-868`,
  `wpe-drm/DRMFrameQueue.cpp:56-57`). `FrameExamples.LeavesHole` and `ForgetsHole` are such runs; `PageFlip` and
  `VideoChanged` say exactly when the hole is stale, and a redraw always has the present one.
- Hole and video do not meet on the screen when the page's plane is scaled, for the overlay is not scaled with it
  (`wpe-drm/VideoOverlay.cpp:379-401`, `wpe-drm/WPEViewDRM.cpp:819-852`). `VideoHole.StretchedPageMisses` is such a
  screen; `VideoHole.AlignedExactly` says exactly for which sizes they meet, and `ShowVideo` that they then cover the
  same pixels.
- The engine and the CPU paint differently below a page that does not reach the bottom of the panel, as in
  `ScanoutBuffer.ShortPageDiffers`; `ScanoutBuffer.EngineAgreesWithCPU` says exactly when they agree.
- A cover fit of a very narrow or very flat target selects an empty source window, as in
  `VideoCrop.NarrowTargetShowsNothing`; `VideoCrop.CoverCollapses` says exactly when.
- A read error in a navigation stack silently loses the rest of it (`wpe-drm/browser-profile-store.c:1333-1336`);
  `TabStore.ProfileStore.SaveAndLoad` says which tabs are loaded for every place of these errors, and that they are what
  was saved exactly when none falls on a link.
- The loaded next tab number is not the saved one when its own read fails: that yields the fallback 2, and the load still
  succeeds (`wpe-drm/browser-profile-store.c:264-278,1367-1371`). `TabStore.LostNumber` loads 2 beside a tab numbered 16;
  `SaveAndLoad` says that the saved number is back exactly when it is 2, or above and could be read.
- The loaded next tab number can be below 2: 2^32, which no save writes, loads as 0
  (`TabStore.ForeignTextBreaksTheBound`); `TabStore.NextIdBound` says exactly for which numbers the bound holds.

## Model

| member | source | states |
|---|---|---|
| VideoSafety.PlaneNeverScansARecycledSample | wpe-drm/GStreamerHolePunchQuirkRockchip.cpp:314-356 | In every run of decoder, sockets and display, whatever the commits, sends, disconnects and reconnects do: the sample on the plane, and every sample the display still holds, is one the decoder has not recycled |
| VideoSafety.EverySampleIsInOnePlace | wpe-drm/GStreamerHolePunchQuirkRockchip.cpp:171-178 | A lent sample is in at most one of frame channel, display, answer queue and answer channel; in exactly one unless a connection was lost since |
| VideoSafety.QueuesAreBounded | wpe-drm/VideoOverlay.cpp:297-307 | At most 4 samples are lent, the 64-entry answer queue never exceeds 5, so its overflow branch cannot be taken |
| VideoSafety.CloseIsLast | wpe-drm/GStreamerHolePunchQuirkRockchip.cpp:330-341 | When a close answer arrives it is the awaited one, nothing is lent, nothing is held, the plane is off; the branch that quarantines samples at a close answer cannot be taken |
| VideoSafety.ReleaseIsForALentSample | wpe-drm/GStreamerHolePunchQuirkRockchip.cpp:343-354 | A release is for a sample that is lent, that the display no longer holds, and that the plane does not scan |
| VideoSafety.ReconnectFindsNothingHeld | wpe-drm/GStreamerHolePunchQuirkRockchip.cpp:200-207 | Whenever the decoder connects again, the display holds none of its samples |
| VideoSafety.DeliveredMessagesConform | wpe-drm/VideoOverlay.cpp:844-878 | Whatever the decoder sends, the message the display reads next is one its code is prepared for |
| VideoSafety.RunsKeepInv | wpe-drm/VideoOverlay.cpp:524-740 | The joint invariant of decoder, channels and display holds after every run |
| VideoSafety.AckBacklog | wpe-drm/VideoReleaseQueue.h:25-35 | Answers waiting to be sent are at most the samples that can be lent and one close |
| VideoSafety.RepeatIsVoid | wpe-drm/VideoReleaseQueue.h:27-30 | An answer that is already queued is never owed a second time |
| VideoProtocol.ProjectionsAreLocalRuns | wpe-drm/VideoOverlay.cpp:778-884 | Each side's part of a joint run is a run of that side alone, so what the two classes log can be put together |
| VideoProtocol.AnswersAreFew | wpe-drm/VideoReleaseQueue.h:14-42 | Answers without repetitions about lent samples and one close are no more than those |
| VideoConsumer.VideoOverlayState.FlushReleases | wpe-drm/VideoOverlay.cpp:251-279 | Sends answers oldest first: what is left is the end of the queue, the socket having blocked; a socket that takes everything empties it, one that breaks with answers waiting drops the client |
| VideoConsumer.VideoOverlayState.SendRelease | wpe-drm/VideoOverlay.cpp:297-316 | Without a live client an answer is void; else it is queued once, and sent when the socket takes it or left to the write source; the client is lost exactly when the socket breaks or the queue is full; every effect is a step of the protocol |
| VideoConsumer.VideoOverlayState.Commit | wpe-drm/VideoOverlay.cpp:345-522 | A commit shows the frame, hides it, or changes nothing |
| VideoConsumer.VideoOverlayState.Disable | wpe-drm/VideoOverlay.cpp:524-553 | Gives the current frame back only once the plane is off; a failed commit keeps frame and plane |
| VideoConsumer.VideoOverlayState.HandleFrame | wpe-drm/VideoOverlay.cpp:555-628 | On success the deferred frame is current and the previous one is given back; else nothing is |
| VideoConsumer.VideoOverlayState.DrainPending | wpe-drm/VideoOverlay.cpp:686-740 | A requested disable is carried out before anything else and nothing is shown for it, or the plane and its frame stay and a timer is armed; only then the deferred frame, or the changed geometry, is committed |
| VideoConsumer.VideoOverlayState.CarryOutDisable | wpe-drm/VideoOverlay.cpp:692-704 | The deferred frame is given up first; a plane that cannot be switched off keeps the request |
| VideoConsumer.VideoOverlayState.CompleteDisable | wpe-drm/VideoOverlay.cpp:705-713 | The close is answered after every release, then a dropped client is closed |
| VideoConsumer.VideoOverlayState.CommitDeferred | wpe-drm/VideoOverlay.cpp:715-740 | While the view's own commit is in flight nothing moves; else a deferred frame is displayed, waits on with a timer, or is given back as unusable; a pending geometry is left without a timer exactly when a frame given back as unusable stood before it |
| VideoConsumer.VideoOverlayState.DropClient | wpe-drm/VideoOverlay.cpp:759-776 | The client is gone only when the plane is off; until then its sample stays held |
| VideoConsumer.VideoOverlayState.DeferFrame | wpe-drm/VideoOverlay.cpp:652-674 | The new frame is the one that waits, unless duplicating its descriptors failed, and then none does; the one it replaces is given back, and the client is lost exactly when that fails and the plane comes off |
| VideoConsumer.VideoOverlayState.ClientEvent | wpe-drm/VideoOverlay.cpp:778-884 | Any conforming sequence of messages, ended or not, keeps the display consistent, and its effects are a run of the protocol. While the kernel does all it is asked, what is shown, current and waiting afterwards is what the messages make of it one by one, the newest of consecutive frames standing for all. One rectangle has the current or waiting frame committed again, or that is due with a timer; one close takes the plane off, or that is due; one frame has its turn. A frame is left on the plane with no client only when the sequence ends in a frame, and for a single frame exactly when the one before still waits and cannot be given back |
| VideoConsumer.VideoOverlayState.HandleMessage | wpe-drm/VideoOverlay.cpp:844-878 | One message: with no frame in hand, a frame is taken in hand and nothing else happens, a rectangle has the plane committed again, a close has it taken off, or that is due with a timer; with one in hand, and a kernel that does all it is asked, another frame takes its place, and the others first hand it over |
| VideoConsumer.VideoOverlayState.HandleRect | wpe-drm/VideoOverlay.cpp:861-869 | After a rectangle, with no frame in hand, the current frame is committed again or the waiting one takes its turn, or a timer is armed for it; with no frame on the plane nothing happens. With a frame in hand and a kernel that does all it is asked that frame is shown, and then committed again |
| VideoConsumer.VideoOverlayState.HandleHide | wpe-drm/VideoOverlay.cpp:870-878 | After a close request, with no frame in hand, the plane is off and nothing is kept, or the request waits with a timer, and that only when the kernel cannot take the plane off; with one in hand and a kernel that does all it is asked it is shown before |
| VideoConsumer.VideoOverlayState.FlushPacket | wpe-drm/VideoOverlay.cpp:799-808 | With a client there before: the newest frame is on the plane with no client exactly when another still waited, giving it back cost the client and the plane came off, and the newer one was then shown |
| VideoConsumer.VideoOverlayState.AnswersAreWatched | wpe-drm/VideoOverlay.cpp:306-315 | Answers that wait have a source, and it polls the client's descriptor exactly when the client did not inherit one that polls another |
| VideoConsumer.VideoOverlayState.AcceptClient | wpe-drm/VideoOverlay.cpp:886-912 | The new client is served exactly when the old one is gone and nothing is left to disable, which is when its plane comes off; else it is refused and nothing is served |
| VideoConsumer.VideoOverlayState.ReleaseWritable | wpe-drm/VideoOverlay.cpp:281-295 | The write source ends exactly when all answers are sent or the client is gone; what is left is the end of the queue |
| VideoConsumer.VideoOverlayState.PageFlip | wpe-drm/WPEViewDRM.cpp:1448-1457 | The view's commit is over, the deferred work has its turn, and no geometry is left without a timer |
| VideoConsumer.VideoOverlayState.RetryTimer | wpe-drm/VideoOverlay.cpp:742-757 | What was deferred is done or waits with the timer armed again, but for a geometry that stood behind an unusable frame: exactly then no timer is left |
| VideoConsumer.VideoOverlayState.Recommit | wpe-drm/VideoOverlay.cpp:631-639 | The current frame is committed again for the changed geometry exactly when the kernel takes the commit; else it is due with a timer |
| VideoExamples.DisplaysForNobody | wpe-drm/VideoOverlay.cpp:652-660 | A run that ends with a frame on the plane, no client, and no disable requested |
| VideoExamples.ForgetsGeometry | wpe-drm/VideoOverlay.cpp:729-739 | A run that ends with a changed geometry pending and no timer |
| VideoExamples.InheritsSource | wpe-drm/VideoOverlay.cpp:281-316 | A run that ends with a live client whose release source is a dead one of the client before; every event but its loss leaves it so |
| VideoReleaseQueue.ReleaseQueue.Add | wpe-drm/VideoReleaseQueue.h:25-35 | An answer is queued at the end unless it is void, already queued, or the queue is full |
| VideoWire.VideoCloseState.Acknowledge | wpe-drm/VideoOverlayWire.h:46-52 | An answer is accepted once, and only for the request that is pending |
| VideoProducer.VideoOverlayChannel.ReleaseOwner | wpe-drm/GStreamerHolePunchQuirkRockchip.cpp:70-84 | Giving the overlay up keeps every lent sample; a close is requested exactly when some are lent, and sent or left waiting as the socket decides |
| VideoProducer.VideoOverlayChannel.SetRectangle | wpe-drm/GStreamerHolePunchQuirkRockchip.cpp:86-101 | Only the owner moves the rectangle, which is sent or waits as the socket decides, and a close request that waits to be sent is not overwritten |
| VideoProducer.VideoOverlayChannel.SendFrame | wpe-drm/GStreamerHolePunchQuirkRockchip.cpp:103-181 | At most 4 samples are lent; those whose releases were among the answers leave and no others; then, for an admitted owner with a connection and room, the sample is lent under the next number exactly when the socket takes the message; the owner changes only when there is none |
| VideoProducer.VideoOverlayChannel.EnsureConnectedLocked | wpe-drm/GStreamerHolePunchQuirkRockchip.cpp:200-253 | No new connection while samples are lent or a close is unanswered; otherwise one exactly when the connect succeeds |
| VideoProducer.VideoOverlayChannel.SendControlLocked | wpe-drm/GStreamerHolePunchQuirkRockchip.cpp:285-312 | A control message is sent, waits, or costs the connection, as the socket decides; an unsent close request always has a wakeup |
| VideoProducer.VideoOverlayChannel.WriteReady | wpe-drm/GStreamerHolePunchQuirkRockchip.cpp:296-308 | The waiting control message is sent and nothing waits any more, or it goes on waiting with its source, or the connection is gone, as the socket decides |
| VideoProducer.VideoOverlayChannel.DrainReleaseAcksLocked | wpe-drm/GStreamerHolePunchQuirkRockchip.cpp:314-356 | The samples that leave are exactly those released by the answers up to the awaited close; that close, or the end of the stream, ends the connection, and nothing else does |
| VideoProducer.VideoOverlayChannel.TakeRelease | wpe-drm/GStreamerHolePunchQuirkRockchip.cpp:343-354 | Exactly the sample with that number leaves |
| VideoProducer.VideoOverlayChannel.TakeClose | wpe-drm/GStreamerHolePunchQuirkRockchip.cpp:330-341 | Only the awaited close ends the connection |
| VideoProducer.VideoOverlayChannel.CloseLocked | wpe-drm/GStreamerHolePunchQuirkRockchip.cpp:381-398 | A disconnect keeps every lent sample |
| FrameLifecycle.CompletesOnce | wpe-drm/DRMFrameLifecycle.h:39-45 | However a ticket is used, it grants exactly one completion if its own serial is ever completed, else none |
| FrameLifecycle.PhasesInOrder | wpe-drm/DRMFrameLifecycle.h:26-37 | A ticket is presented only after preparing, ready and submitted, in that order, with or without a fence wait |
| FenceRetirement.RenderingFenceRetirement.Retain | wpe-drm/RenderingFenceRetirement.h:21-47 | The buffer is handed back exactly when its fence has signalled, else quarantined; it is refused only when 4 other buffers are waiting |
| FenceRetirement.RenderingFenceRetirement.Dispatch | wpe-drm/RenderingFenceRetirement.h:113-128 | A fence event hands the buffer back exactly when its fence has signalled; a failed fence keeps it for good |
| FenceRetirement.RenderingFenceRetirement.Finish | wpe-drm/RenderingFenceRetirement.h:54-80 | Buffers are handed back once each and only after their fences; success empties the quarantine, and failure leaves a buffer whose fence has not signalled |
| FenceRetirement.RenderingFenceRetirement.Reap | wpe-drm/RenderingFenceRetirement.h:130-134 | Only entries that were handed back are forgotten |
| FramePipeline.FrameView.EveryBufferIsInOnePlace | wpe-drm/DRMFrameQueue.cpp:29-48 | In every reachable state a buffer accepted and not released is in exactly one of pending, committed, queued and quarantine, any other in none; it was released at most once per acceptance |
| FramePipeline.FrameView.QuarantineIsBounded | wpe-drm/DRMFrameQueue.cpp:158-169 | With a producer of at most 4 buffers the quarantine holds at most 4 |
| FramePipeline.FrameView.EveryFrameHasOneFate | wpe-drm/DRMFrameQueue.cpp:174-190 | Every serial given out is pending, queued, answered with FrameDone, or displaced from the queue: exactly one of these |
| FramePipeline.FrameView.AnsweredProducerFindsNothingWaiting | wpe-drm/DRMFrameQueue.cpp:174-184 | A producer that waits for its answers never has a frame displaced |
| FramePipeline.FrameView.NoLostWakeup | wpe-drm/DRMFrameQueue.cpp:219-272 | A queued frame has its flag set, and a page flip, a fence wait or the throttle timer to wake it |
| FramePipeline.FrameView.DoubleBuffering | wpe-drm/WPEViewDRM.cpp:567-715 | The display owns exactly the committed and the submitted framebuffer; when none is submitted each pool has one to draw in |
| FramePipeline.FrameView.DisplayShowsCommittedPage | wpe-drm/DRMFrameQueue.cpp:29-55 | The framebuffer on the display shows the committed page with the chrome drawn over it once |
| FramePipeline.FrameView.KeptBaseIsTheCommittedPage | wpe-drm/WPEViewDRM.cpp:165-173 | A kept base of the committed generation is the clean copy of the committed page for the present geometry |
| FramePipeline.FrameView.MainLoop | wpe-drm/WPEViewDRM.cpp:1340-1468 | Any order of events that producer, kernel and timers allow keeps the invariant the lemmas above read from |
| FramePipeline.FrameView.Released | wpe-drm/DRMFrameQueue.cpp:41-42 | A buffer goes back to its producer only when it is held and the fence of its last drawing has signalled |
| FramePipeline.FrameView.Rendered | wpe-drm/DRMFrameQueue.cpp:44-45 | FrameDone is sent at most once for a serial |
| FramePipeline.FrameView.RenderBuffer | wpe-drm/WPEViewDRM.cpp:1340-1396 | A usable frame gets a serial, unless its buffer still waits, which then keeps its ticket. With no update under way and none delayed it has its turn at once: it is shown, waits for its fence, or is given up, as fence, drawing and commit decide; else it is queued. Exactly the frame of another buffer that waited is displaced |
| FramePipeline.FrameView.QueueBuffer | wpe-drm/DRMFrameQueue.cpp:174-203 | The newest frame waits in the queue; the displaced one leaves the view, through the quarantine if its fence is not ready |
| FramePipeline.FrameView.CommitQueuedBuffer | wpe-drm/DRMFrameQueue.cpp:219-242 | With no update under way the queued frame has its turn: of an older geometry it is answered and not shown; while its fence is undecided it waits; once that has signalled it is on the display or submitted when drawing and commit succeed, and answered and not shown when they fail or the fence does; else nothing changes |
| FramePipeline.FrameView.TakeQueued | wpe-drm/DRMFrameQueue.cpp:227-231 | Buffer and ticket move from queue to pending |
| FramePipeline.FrameView.RequestUpdate | wpe-drm/WPEViewDRM.cpp:1161-1314 | The pending frame is submitted, waits for its fence, or is given up and answered. It is given up only for a ticket of another geometry, a failed fence, or a failed drawing or commit, waits exactly while its fence is undecided, and is submitted when all succeed; a chrome redraw and a page frame both show the page for the present geometry under the chrome of the moment; no ticket assertion fails |
| FramePipeline.FrameView.ClearPendingFence | wpe-drm/WPEViewDRM.cpp:1188-1223 | The page is read only after its fence has signalled, and then it is; a frame waits exactly for an undecided fence, once, and is given up exactly for a failed one |
| FramePipeline.FrameView.AbortPendingCommit | wpe-drm/WPEViewDRM.cpp:1097-1130 | The pending frame is answered, its buffer goes back exactly when its fence has signalled and into the quarantine else; nothing else changes |
| FramePipeline.FrameView.RenderingFenceFinished | wpe-drm/WPEViewDRM.cpp:1132-1159 | A ready frame has its turn, and is shown when drawing and commit succeed; any other is answered and not shown; the queue is not forgotten |
| FramePipeline.FrameView.FenceWaitEvent | wpe-drm/RenderingFenceWait.h:60-74 | The wait goes on exactly while the fence is undecided and its time is not up; then the frame has its turn, and a frame that timed out is answered and not shown |
| FramePipeline.FrameView.PageFlip | wpe-drm/WPEViewDRM.cpp:1448-1468 | The submitted framebuffer is committed, its page answered, the old page released, the video's deferred work has its turn. A queued frame then has its own turn exactly when it is not too early - shown, held back for its fence, or given up, as fence, drawing and commit decide - and otherwise waits on with the timer; no frame is displaced. While the flipped framebuffer is displayed the hole is stale exactly when the video is elsewhere than when it was drawn, and one displayed since has no stale hole |
| FramePipeline.FrameView.FinishBufferCommit | wpe-drm/DRMFrameQueue.cpp:29-74 | Pending becomes committed on both levels, with the base prepared for it; the old page is released and the old framebuffer is free to draw in |
| FramePipeline.FrameView.CompleteSynchronousCommitIfNeeded | wpe-drm/DRMFrameQueue.cpp:274-282 | A synchronous commit is finished at once, any other is left in flight |
| FramePipeline.FrameView.RetireDiscardedBuffer | wpe-drm/DRMFrameQueue.cpp:145-172 | A discarded buffer is released exactly when its fence has signalled, else quarantined; the quarantine never overflows |
| FramePipeline.FrameView.DiscardedFenceEvent | wpe-drm/RenderingFenceRetirement.h:113-128 | A quarantined buffer is released exactly when its fence has signalled |
| FramePipeline.FrameView.ThrottleTimer | wpe-drm/DRMFrameQueue.cpp:244-272 | When it is still too early the timer runs again and nothing else happens; else a queued frame has its turn - shown, held back for its fence, or given up, as fence, drawing and commit decide - unless an update is under way |
| FramePipeline.FrameView.ChromeTick | wpe-drm/WPEViewDRM.cpp:114-205 | A changed chrome is redrawn over the committed page or stays pending; the redraw fails exactly when drawing or commit refuse it; the timer stays exactly for an animation or a change that waits for a page frame; a change is left without a timer exactly when its redraw failed and there is no animation |
| FramePipeline.FrameView.VideoChanged | wpe-drm/VideoOverlay.cpp:604-611 | A video that moves makes the hole stale exactly when it is elsewhere than in what is displayed, and starts no timer |
| FrameExamples.LosesChromeChange | wpe-drm/WPEViewDRM.cpp:165-204 | A tick after which a change of the chrome is pending over a page and nothing will draw it |
| FrameExamples.ShowsSecond | wpe-drm/DRMFrameQueue.cpp:227-242 | A run in which a frame that waited in the queue is submitted at the flip of the one before |
| FrameExamples.Displaces | wpe-drm/DRMFrameQueue.cpp:174-184 | A run in which a frame is displaced and not answered |
| FrameExamples.DropsRedrawnBuffer | wpe-drm/DRMFrameQueue.cpp:184-186 | A run in which a page drawn anew for a new geometry in a waiting buffer is answered and not shown |
| FrameExamples.ForgetsHole | wpe-drm/DRMFrameQueue.cpp:56-57 | A run that ends at rest, with the hole not where the video is and not even the flag set |
| FrameExamples.LeavesHole | wpe-drm/VideoOverlay.cpp:863-868 | A run that ends at rest, with the hole not where the video is and no timer |
| FramePipeline.FrameView.CaptureCommittedChromeBase | wpe-drm/WPEViewDRM.cpp:499-528 | A captured base is the clean committed page, drawn without touching what is on the display |
| FramePipeline.FrameView.PrepareChromeBaseIfNeeded | wpe-drm/WPEViewDRM.cpp:530-552 | The base kept with a frame is what was drawn before the chrome; it is kept exactly when it is asked for or the panel is open or moving, as far as it can be read |
| FramePipeline.FrameView.NextPageBuffer | wpe-drm/WPEViewDRM.cpp:567-670 | A framebuffer not with the display is drawn and returned; the shortage and the refused write cannot happen |
| FramePipeline.FrameView.NextChromeOverlayBuffer | wpe-drm/WPEViewDRM.cpp:672-715 | The kept base under the new chrome, in a framebuffer not with the display |
| FramePipeline.FrameView.FreeSlot | wpe-drm/WPEViewDRM.cpp:574-580 | There always is a slot not with the display, and the first one is taken |
| FramePipeline.FrameView.RefreshContentGeometry | wpe-drm/WPEViewDRM.cpp:36-57 | A changed geometry starts a new epoch and makes both bases worthless |
| FramePipeline.FrameView.TrimCaches | wpe-drm/WPEViewDRM.cpp:75-106 | While a frame is under way nothing is trimmed; otherwise the prepared base is, and the kept one exactly when memory is critical and it is neither needed nor about to be drawn over |
| RotationKernels.DestRectIsImage | wpe-drm/DRMGeometry.cpp:225-239 | rotatedDestRect is exactly the image of the rectangle under the pointwise map, for all rotations and insets |
| RotationKernels.MapIsBijective | wpe-drm/ChromeRenderer.cpp:606-623 | The pointwise map is one to one between panel and visible framebuffer |
| RotationKernels.DestRectIsVisible | wpe-drm/DRMGeometry.cpp:225-239 | A page rectangle that fits the panel is drawn inside the framebuffer |
| RotationKernels.WriteRotatedPanelRow | wpe-drm/DRMGeometry.cpp:193-222 | Writes the row's pixels to their places and nothing else |
| RotationKernels.FillRotatedPanelRect | wpe-drm/DRMGeometry.cpp:244-253 | Fills exactly the places of the panel rectangle |
| RotationKernels.RotateRegionARGB8888 | wpe-drm/DRMGeometry.cpp:260-326 | Writes exactly the places of the region, each with its own source pixel, tiled or not |
| RotationKernels.RotateTiled | wpe-drm/DRMGeometry.cpp:287-303 | Tiles of 32 by 32 write what one piece would |
| RotationKernels.CopyRotatedARGB8888 | wpe-drm/DRMGeometry.cpp:328-358 | Every visible pixel is defined for all sizes, insets and rotations: black in the inset and beside the page, the page, its last row below it; padding is untouched |
| RotationKernels.ClearOutsideARGB8888 | wpe-drm/DRMFramePixels.h:12-29 | Writes exactly the visible pixels outside the rectangle |
| PanelWriter.FillIsPixelwise | wpe-drm/ChromeRenderer.cpp:667-686 | Filling a clipped rectangle is writing its points one by one, in any order |
| PanelWriter.PanelPixelWriter.SetClipRect | wpe-drm/ChromeRenderer.cpp:585-591 | The clip is the part of the rectangle on the panel |
| PanelWriter.PanelPixelWriter.SetPixel | wpe-drm/ChromeRenderer.cpp:601-629 | Writes the point's place when it is in the clip and visible, and nothing else |
| PanelWriter.PanelPixelWriter.FillRect | wpe-drm/ChromeRenderer.cpp:669-686 | Writes the visible places of the clipped rectangle and nothing else |
| ScanoutBuffer.EngineAgreesWithCPU | wpe-drm/DRMScanoutBuffer.cpp:400-460 | The engine and the CPU draw the same picture exactly when the page reaches the bottom of the panel or its last row is black |
| ScanoutBuffer.ShortPageDiffers | wpe-drm/DRMScanoutBuffer.cpp:400-460 | A page of one row on a panel of two, drawn black by the engine and white by the CPU in the second row |
| ScanoutBuffer.DRMScanoutBuffer.CopyRotatedFromDMABuf | wpe-drm/DRMScanoutBuffer.cpp:363-547 | A framebuffer with the display is never written; the engine draws exactly when it works and the page is whole, the CPU exactly when the engine does not and is not required; on success every visible pixel is the engine's or the CPU's, which makes an XRGB page opaque |
| ScanoutBuffer.DRMScanoutBuffer.CopyBaseTo | wpe-drm/DRMScanoutBuffer.cpp:600-615 | Keeps the visible pixels of an ARGB framebuffer that is not empty, whenever they can be read |
| ScanoutBuffer.DRMScanoutBuffer.RestoreBase | wpe-drm/DRMScanoutBuffer.cpp:617-630 | Puts kept pixels back exactly into an ARGB framebuffer of the same size that the display does not own, and touches no padding |
| ScanoutBuffer.DRMScanoutBuffer.PunchTransparentRect | wpe-drm/DRMScanoutBuffer.cpp:574-598 | Exactly the visible places of the rectangle lose their opacity and keep their colour; where that can be done it fails only for a rectangle of which nothing is visible |
| VideoCrop.PlanVideo | wpe-drm/VideoOverlay.cpp:403-462 | The plane lies in the requested rectangle and the content band, the source window in the frame, for every fit, rectangle and rounding; each edge of the window is where the clipped rectangle has it in proportion, to 1/65536 of a pixel, and unclipped it is the fitted window |
| VideoCrop.ContainedIsInTarget | wpe-drm/VideoOverlay.cpp:417-428 | Contain stays in the target and is centred to the pixel |
| VideoCrop.ContainKeepsShape | wpe-drm/VideoOverlay.cpp:417-428 | Contain keeps one side of the target and gives the other the frame's proportions to the pixel, and at least one pixel |
| VideoCrop.CoverKeepsShape | wpe-drm/VideoOverlay.cpp:429-439 | Cover keeps one side of the frame and cuts the other to the target's proportions to the pixel |
| VideoCrop.CoverSourceIsInFrame | wpe-drm/VideoOverlay.cpp:429-439 | Cover's window stays in the frame and is centred to 1/65536 of a pixel |
| VideoCrop.CoverCollapses | wpe-drm/VideoOverlay.cpp:429-439 | Cover's window is empty exactly for a target so narrow or flat that not one source pixel fits |
| VideoCrop.NarrowTargetShowsNothing | wpe-drm/VideoOverlay.cpp:429-439 | A target one pixel wide over which nothing of the frame is left |
| VideoCrop.SharesFit | wpe-drm/VideoOverlay.cpp:459-462 | Truncated shares of a window never exceed it |
| VideoCrop.PlaceOnScreen | wpe-drm/VideoOverlay.cpp:371-401 | The content band lies in the mode, and rectangle and band are moved alike |
| VideoHole.AlignedExactly | wpe-drm/WPEViewDRM.cpp:819-852 | The overlay's placement follows the page's plane if and only if the page is shown pixel by pixel where the overlay expects it: for panel-native fit when it fits the mode, for stretch when it has the mode's size, else when it has it up to one pixel of border |
| VideoHole.StretchedPageMisses | wpe-drm/WPEViewDRM.cpp:793-795 | A stretched page that the overlay does not follow |
| VideoHole.ShowVideo | wpe-drm/VideoOverlay.cpp:125-155 | For one rectangle, on an aligned page, a pixel becomes transparent exactly where the video is, for all rotations, insets and modes; under a contained video at least there; on a panel-native page no video is outside the page |
| VideoHole.VideoCoversHole | wpe-drm/VideoOverlay.cpp:371-462 | Pixel by pixel, the video's window covers the hole's image |
| VideoCrop.FitsIn64Bits | wpe-drm/VideoOverlay.cpp:459-462 | No product leaves 64 bits for frames up to 16384 and rectangles up to 2^26 |
| GestureRuns.ToggleMeansTripleTap | wpe-drm/browser-touch-gesture.c:265-414 | In every run, a toggle means that the buffered frames are three two-finger taps near one another, then quiet; they keep to the gap limit if and only if no tap of the candidate began later than the announced deadline |
| GestureCompleteness.ToggleIff | wpe-drm/browser-touch-gesture.c:265-414 | Up to 512 frames that arrive undisturbed at an idle recogniser, with all fingers of the first one new, toggle at the end of the quiet time if and only if they are three two-finger taps near one another and then quiet |
| GestureCompleteness.DeadlinesAreAnnounced | wpe-drm/browser-touch-gesture.c:265-420 | After any run a recogniser that holds frames announces the deadline its phase calls for |
| GestureCompleteness.NothingIsHeldForGood | wpe-drm/browser-touch-gesture.c:394-414 | After any run a candidate has a deadline, and a timer from then on ends it: what was buffered goes to the page or is a toggle's |
| GestureRuns.PunctualIsNeverLate | wpe-drm/wpe-drm-minimal.c:5186-5200 | A driver that runs the timer before each frame is never late |
| GestureSoundness.OneReading | wpe-drm/browser-touch-gesture.c:265-414 | The contacts alone decide where the taps of a toggle start and end |
| GestureExamples.LateTimerAcceptsLongGaps | wpe-drm/browser-touch-gesture.c:313-333 | Without a punctual timer the gap limit is not enforced: taps ten seconds apart toggle |
| GestureRuns.EveryFrameIsDeliveredOnce | wpe-drm/browser-touch-gesture.c:271-361 | In a run every frame is still buffered, delivered once, or consumed by one toggle, if and only if no event was irregular: no frame beyond the buffer, no third finger during speculation, no resynchronised device over frames the page has not seen |
| GestureRuns.LedgerIff | wpe-drm/browser-touch-gesture.c:296-311 | An event keeps exactly-once delivery if and only if it is not one of the three irregular ones |
| GestureRuns.DeliveriesComeInOrder | wpe-drm/browser-touch-gesture.c:441-455 | Without irregular events the page is left with exactly the delivered frames, each once, in their order of arrival |
| GestureExamples.ThirdFingerRepeats | wpe-drm/browser-touch-gesture.c:296-311 | Two frames of which the first is delivered twice |
| GestureExamples.OverflowLoses | wpe-drm/browser-touch-gesture.c:296-301 | 513 frames of which the last is never delivered |
| GestureExamples.ResyncLoses | wpe-drm/wpe-drm-minimal.c:5282-5293 | A frame that is never delivered because the device is resynchronised |
| GestureRuns.RunExplained | wpe-drm/browser-touch-gesture.c:265-414 | What is buffered after any run is the beginning of a triple tap, with a gap over the limit exactly when a tap began late |
| GestureSoundness.HandleExplained | wpe-drm/browser-touch-gesture.c:265-392 | A frame that does not end the candidate extends its story, and keeps its gaps in time unless it begins a tap late |
| GestureSoundness.ToggleExplained | wpe-drm/browser-touch-gesture.c:401-402 | A story that has become quiet justifies the toggle |
| TouchRecogniser.ToolbarGesture.Handle | wpe-drm/browser-touch-gesture.c:265-392 | Computes the step function in place |
| TouchRecogniser.ToolbarGesture.Expire | wpe-drm/browser-touch-gesture.c:394-414 | Computes the timer's step function in place |
| TouchRecogniser.ToolbarGesture.ReplayFrames | wpe-drm/browser-touch-gesture.c:441-455 | Delivers the buffered frames once each in arrival order and resets |
| TouchRecogniser.ToolbarGesture.CollectActivePoints | wpe-drm/browser-touch-gesture.c:138-155 | Finds the two active points, or that there are not two |
| TouchRecogniser.ToolbarGesture.PairHasMoved | wpe-drm/browser-touch-gesture.c:169-190 | True exactly when one of the pair strayed |
| TouchRecogniser.ToolbarGesture.BeginTwoFingers | wpe-drm/browser-touch-gesture.c:192-215 | A pair begins exactly when there are two fingers near the reference |
| MemoryGovernor.FallNeedsStretch | wpe-drm/browser-memory-policy.c:43-61 | Every fall of the level ends an unbroken stretch of safely recovered readings that spans the recovery time |
| MemoryGovernor.StretchFalls | wpe-drm/browser-memory-policy.c:53-61 | Conversely such a stretch ends in a fall |
| MemoryGovernor.NeverBelowPressure | wpe-drm/browser-memory-policy.c:38-42 | After a valid reading the level is at least what it calls for, and rises at once |
| MemoryGovernor.FallsOneLevelAtATime | wpe-drm/browser-memory-policy.c:34-37 | Critical never falls straight to normal; an invalid reading changes nothing |
| MemoryGovernor.Thresholds | wpe-drm/browser-memory-policy.c:3-27 | A reading calls for critical or warning exactly when the share in use, compared without rounding, or what is left of memory or swap, reaches the limit |
| MemoryGovernor.LessMemoryIsNoBetter | wpe-drm/browser-memory-policy.c:3-52 | With less memory or swap left the level called for is never lower, and recovery never safer |
| MemoryGovernor.RecoveredIsClear | wpe-drm/browser-memory-policy.c:43-52 | A safe recovery from critical is never at a limit of critical |
| MemoryGovernor.BrowserMemoryGovernor.Update | wpe-drm/browser-memory-policy.c:29-65 | Computes the step in place and says whether the level changed |
| TabStore.ProfileStore.SaveAndLoad | wpe-drm/browser-profile-store.c:1278-1372 | It succeeds for every existing profile when the statements work. For any errors in reading stacks and next number: what is saved is loaded, each stack up to its first error, and the tabs are the same if and only if no error falls on a link; the next number is back if and only if it is 2, or above and could be read, and otherwise 2 is loaded; other profiles keep theirs |
| TabStore.TabsRoundTrip | wpe-drm/browser-profile-store.c:1339-1372 | Any listing by position of saved tabs is the saved list |
| TabStore.ProfileStore.SaveTabs | wpe-drm/browser-profile-store.c:1278-1321 | All or nothing: the profile's rows are the tabs in order and no other profile changed, or the database is as before; it is all when the statements work and the profile exists |
| TabStore.ProfileStore.InsertNavigation | wpe-drm/browser-profile-store.c:1256-1276 | The stack's rows are its items by position; no other row changes |
| TabStore.ProfileStore.DeleteTabs | wpe-drm/browser-profile-store.c:222-231 | Deleting a profile's tabs takes their navigation along and nothing else |
| TabStore.ProfileStore.LoadTabs | wpe-drm/browser-profile-store.c:1339-1372 | The profile's tabs by position, each stack up to its first read error, and the stored next number, or 2 when that cannot be read |
| TabStore.ProfileStore.LoadNavigation | wpe-drm/browser-profile-store.c:1323-1337 | The stack by position, exactly up to the read error if one comes before its end |
| TabStore.ProfileStore.GetSetting | wpe-drm/browser-profile-store.c:264-278 | The stored text, or the fallback for a missing row and for a failed statement alike |
| TabStore.LostNumber | wpe-drm/browser-profile-store.c:1367-1371 | A successful load that gives 2 for the saved 17, beside a tab numbered 16 |
| TabStore.NextIdRoundTrip | wpe-drm/browser-profile-store.c:1367-1370 | The saved next number, read without error, is loaded, but at least 2 |
| TabStore.NextIdBound | wpe-drm/browser-profile-store.c:1367-1370 | The loaded number is at least 2 if and only if the number read is below 2^32 or at least 2 modulo 2^32 |
| TabStore.ForeignTextBreaksTheBound | wpe-drm/browser-profile-store.c:1367-1370 | A stored number of 2^32, which no save writes, loads as 0 |
| ProcessIdentity.RoundTrip | jsapi/src/jsapi_browser/BrowserProcessIdentity.cpp:88-144 | Reading back what was written gives the identity exactly when it is valid and both paths are non-empty and free of line breaks; paths may contain any other character |
| ProcessIdentity.ParseIdentity | jsapi/src/jsapi_browser/BrowserProcessIdentity.cpp:103-144 | The line loop accepts exactly the texts whose lines make a complete record, and otherwise leaves the caller's identity alone |
| ProcessIdentity.AcceptsTheLastLines | jsapi/src/jsapi_browser/BrowserProcessIdentity.cpp:103-144 | A text is accepted if and only if every line has a key and its numbers are numbers, and the last line of each of the six keys is there and acceptable; the identity is what those lines say, so order, earlier lines of a key and unknown keys do not matter |
| ProcessIdentity.SerializeIdentity | jsapi/src/jsapi_browser/BrowserProcessIdentity.cpp:88-101 | Writes the six lines in order, or nothing |
| CStrings.PrintedNumber | jsapi/src/jsapi_browser/BrowserProcessIdentity.cpp:119-133 | strtol and strtoull read back a printed number in range, entirely |

## Left out

- Truncated and malformed packets, wrong descriptor counts and message sizes: both ends of the video socket conform.
- The view's teardown and `videoOverlayStop`, the 2 s limit after which a plane that cannot be disabled ends the process, statistics, logging and frame traces.
- GLib sources: a source is a flag; of the release source also the descriptor it polls is kept. That a closed descriptor's number is used again by another file is not followed.
- VideoProducer.VideoOverlayChannel.SendFrame: sample caps and memory checks before the lock and the 5 s back-off between connection attempts are part of the arbitrary outcome.
- VideoProducer.VideoOverlayChannel.WriteReady: that the socket ever becomes writable is not promised.
- VideoConsumer.VideoOverlayState.ClientEvent: what a sequence of messages leaves is said for a kernel that does all it is asked, and under other answers message by message (`HandleMessage`); when the newest frame ends up without a client is said for one message exactly, and for any sequence by the flush that ends it.
- VideoConsumer.VideoOverlayState.Commit: which rectangle is committed is `VideoCrop`; the fallback without z-position is one failed commit.
- Cursor commits: a page flip of a cursor-only commit never promotes a framebuffer (`wpe-drm/WPEViewDRM.cpp:1422-1423,1455`), and its update request does not look at the base's generation.
- The zero-copy path, where the fence moves to the commit, and the legacy commit: pages are composed by the view, on atomic commits. `FrameView` requires a turned output, native chrome, or shared-memory buffers.
- FramePipeline.FrameView.RequestUpdate: damage rectangles are not modelled; on this path they are cleared before every commit (`wpe-drm/WPEViewDRM.cpp:1258-1259`). The branch that commits the old framebuffer again is shown not to be reached.
- FramePipeline.FrameView.RenderBuffer: the producer draws only in buffers it has not handed over or that still wait in the queue, has at most four; a signalled fence stays signalled, and one that was found broken is broken until it signals.
- FramePipeline.FrameView.ThrottleTimer: the delay itself is arbitrary; only that the timer runs is stated.
- FramePipeline.FrameView.RefreshContentGeometry: the top inset is fixed within a geometry epoch; in the code it also follows the chrome animation's clock (`wpe-drm/ChromeRenderer.cpp:488`).
- Wrap-around of 64-bit frame serials and generations.
- PanelWriter.PanelPixelWriter.FillRect: coordinates are unbounded integers; blending, fonts, icons and rounded shapes are left out.
- ScanoutBuffer.DRMScanoutBuffer.CopyRotatedFromDMABuf: the engine is trusted to draw what it is asked to or to fail; mapping, import and cache synchronisation are one arbitrary outcome. Which opacity the engine gives an XRGB page is left open.
- ScanoutBuffer.DRMScanoutBuffer.CopyBaseTo: the kept bytes are rows of pixels; their layout in one vector is left out.
- VideoCrop.PlanVideo: integers are unbounded; `FitsIn64Bits` gives a range in which the code's are wide enough.
- FramePipeline.FrameView.VideoChanged: the video's place is a number that stands for the rectangle `VideoHole.ShowVideo` is about; filtering at the edges of a scaled plane is left out.
- GestureRuns.EveryFrameIsDeliveredOnce: the cancels that a resynchronised device sends for open contacts are not counted as deliveries or retractions.
- Distances between touch points are compared by their squares, over the reals.
- The memory policy is fixed within a run; products in the classification are unbounded integers.
- TabStore.ProfileStore.LoadTabs: texts hold no NUL character, and a text that cannot be fetched for want of memory, which the code takes for an empty one, is left out.
- TabStore.ProfileStore.SaveTabs: a tab's or link's position is its index; the code's conversion to int differs from 2^31 entries on. Schema creation, migration, corruption recovery, and the other tables are left out.
- Capturing an identity from /proc and matching it against a running process.
- The JS launcher, keyboard bridge, display resolver, diagnostics tools, Mali shims and the zlib wrapper: mostly input and output.
