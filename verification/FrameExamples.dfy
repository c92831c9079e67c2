/** Runs of the view in which a frame or a change of the chrome is lost: what FramePipeline admits is reached. */
module FrameExamples {
  import opened FramePipeline
  import opened Wrappers

  const WORKING := Answers(Always(true), Always(true), Always(false), Always(None), Always(false))

  const REFUSING := Answers(Always(true), Always(false), Always(false), Always(None), Always(false))

  /** The first frame is with the display. */
  method FirstFrame(synchronous: bool) returns (v: FrameView)
    ensures fresh(v) && fresh(v.machine) && fresh(v.board) && fresh(v.discardedRenderingFences)
    ensures v.Valid() && v.machine.answers == WORKING && v.swapchain == {1, 2, 3} && v.synchronous == synchronous
    ensures v.frames.queued == 0 && v.frames.nextSerial == 1 && v.ledger.replaced == {} && !v.progress.throttleSource
    ensures v.geometry == Geometry(1, 480, 960, 0) && v.ledger.held <= {1}
    ensures v.ChromeIsComposed() && !v.chrome.source && v.chrome.video == 0
    ensures v.HoleIn(if synchronous then v.screens.committed else v.screens.pending) == 0
    ensures if synchronous then v.frames.committed == 1 && !v.progress.updateRequested
            else v.progress.updateRequested && v.progress.atomicInFlight && v.frames.pending == v.frames.pendingTicket.serial == 1
  {
    hide FrameView.Core, FrameView.Awake, FrameView.Launched, FrameView.Idle;
    var machine := new Machine(WORKING);
    v := new FrameView(machine, true, true, synchronous, {}, {1, 2, 3});
    var _ := v.RenderBuffer(1, 0, 7, true, 480, 960, 0);
  }

  /** A second frame waits in the queue while the first is on its way, and is shown next. */
  method ShowsSecond() returns (v: FrameView)
    ensures v.Valid() && v.frames.committed == 1 && 1 in v.ledger.rendered && 2 !in v.ledger.rendered
    ensures v.frames.pending == 2 && v.frames.pendingTicket.serial == 2 && v.progress.atomicInFlight
  {
    hide FrameView.Core, FrameView.Awake, FrameView.Launched, FrameView.Idle, FrameView.Valid;
    v := FirstFrame(false);
    var _ := v.RenderBuffer(2, 0, 8, true, 480, 960, 0);
    v.PageFlip();
    v.EveryFrameHasOneFate(2);
  }

  /** Two more frames arrive while the first is on its way: the second is never answered with FrameDone. */
  method Displaces() returns (v: FrameView)
    ensures v.Valid() && v.frames.nextSerial == 3 && v.ledger.replaced == {2} && 2 !in v.ledger.rendered
  {
    hide FrameView.Core, FrameView.Awake, FrameView.Launched, FrameView.Idle, FrameView.Valid;
    v := FirstFrame(false);
    var _ := v.RenderBuffer(2, 0, 8, true, 480, 960, 0);
    v.EveryFrameHasOneFate(1);
    var _ := v.RenderBuffer(3, 0, 9, true, 480, 960, 0);
    v.EveryFrameHasOneFate(2);
  }

  /**
   The second frame waits, the toolbar takes room from the page, and the page is drawn anew in the
   same buffer: it keeps its old ticket, and at its turn it is answered and not shown.
   */
  method DropsRedrawnBuffer() returns (v: FrameView)
    ensures v.Valid() && v.geometry == Geometry(2, 480, 960, 40)
    ensures v.frames.nextSerial == 2 && 2 in v.ledger.rendered
    ensures v.frames.committed == 1 && v.frames.pending == v.frames.queued == 0 && !v.progress.updateRequested
  {
    hide FrameView.Core, FrameView.Awake, FrameView.Launched, FrameView.Idle, FrameView.Valid;
    v := FirstFrame(false);
    var _ := v.RenderBuffer(2, 0, 8, true, 480, 960, 0);
    var _ := v.RenderBuffer(2, 0, 9, true, 480, 960, 40);
    v.PageFlip();
  }

  /** The display refuses the commit of a changed chrome, and no timer is left to try again. */
  method LosesChromeChange() returns (v: FrameView)
    ensures v.Valid() && v.Undrawn()
  {
    hide FrameView.Core, FrameView.Launched, FrameView.Drawn;
    v := FirstFrame(true);
    v.RequestChromeRedraw(480, 960, 0, 1);
    v.machine.answers := REFUSING;
    var _ := v.ChromeTick(480, 960, 0, 1, 0, false);
  }

  /** The video appears while a page without a hole is on its way; the flip forgets that it did. */
  method ForgetsHole() returns (v: FrameView)
    ensures v.Valid() && v.HoleIsStale() && !v.chrome.motionPending && !v.chrome.source && !v.FrameWaiting()
  {
    hide FrameView.Core, FrameView.Launched;
    v := FirstFrame(false);
    v.VideoChanged(1);
    v.PageFlip();
  }

  /** The video appears over a page at rest: the flag is set, and no timer looks at it. */
  method LeavesHole() returns (v: FrameView)
    ensures v.Valid() && v.HoleIsStale() && v.Undrawn() && !v.FrameWaiting()
  {
    hide FrameView.Core, FrameView.Launched;
    v := FirstFrame(true);
    v.VideoChanged(1);
  }
}
