/**
 The primary-plane frame pipeline of WPEViewDRM, on the path that composes every page frame with the
 browser's own chrome: page buffers move from queued to pending to committed, framebuffers are drawn
 and shown in turn, and a clean copy of the page lets the chrome be redrawn without the page.

 Buffers, framebuffers and fences are numbers, 0 for none.  What the kernel and the drawing code
 answer is arbitrary, or foreseen, so that it can be said which answers lead where.
 */
module FramePipeline {
  import opened FrameLifecycle
  import opened FenceRetirement
  import opened FramebufferAccess
  import opened Wrappers

  /** What a framebuffer shows: a page as it was rendered, laid out for a geometry, with or without chrome. */
  datatype Image =
    | Noise
    | Page(content: nat, epoch: nat)
    | Decorated(base: Image, chrome: nat, motion: nat, hole: nat)

  datatype TickOutcome = NothingToDraw | Deferred | Redrawn | RedrawFailed

  /**
   Whether drawing succeeds, the display takes commits, the next page frame comes too early, where the
   video goes when its deferred frames have their turn within another event, and whether the panel is
   open or moving.
   */
  datatype Answers = Answers(draws: Forecast<bool>, commits: Forecast<bool>, early: Forecast<bool>,
                             video: Forecast<Option<nat>>, panel: Forecast<bool>) {
    predicate Works() {
      draws == Always(true) && commits == Always(true)
    }

    predicate Refuses() {
      draws == Always(false) || commits == Always(false)
    }
  }

  class Machine {
    var answers: Answers

    constructor (answers: Answers)
      ensures this.answers == answers
    {
      this.answers := answers;
    }
  }

  function Without(s: set<nat>, n: nat): set<nat> {
    if n == 0 then s else s - {n}
  }

  function Look(m: map<nat, nat>, n: nat): nat {
    if n in m then m[n] else 0
  }

  /** Shows exactly one page, with the chrome drawn once over it. */
  predicate Shows(image: Image, content: nat) {
    image.Decorated? && image.base.Page? && image.base.content == content
  }

  // ---------------------------------------------------------------- the invariants, over the fields they concern

  /** A held buffer is in exactly one place, and was accepted once more than released. */
  ghost predicate ConservedIn(pending: nat, committed: nat, queued: nat, quarantine: set<nat>, held: set<nat>,
                              accepts: map<nat, nat>, releases: map<nat, nat>) {
    && (forall b :: b in held <==> b in Sole(pending) + Sole(committed) + Sole(queued) + quarantine)
    && (pending != 0 ==> pending != committed && pending != queued)
    && (committed != 0 ==> committed != queued)
    && 0 !in quarantine && pending !in quarantine && committed !in quarantine && queued !in quarantine
    && (forall b :: Look(accepts, b) == Look(releases, b) + if b in held then 1 else 0)
  }

  /** The GPU has finished the last drawing in b. */
  ghost predicate FinishedIn(b: nat, work: map<nat, nat>, signalled: set<nat>) {
    b in work && (work[b] == 0 || work[b] in signalled)
  }

  /** The fence of the last drawing in b has been found broken. */
  ghost predicate BrokenIn(b: nat, work: map<nat, nat>, failed: set<nat>) {
    b in work && work[b] != 0 && work[b] in failed
  }

  /**
   What becomes of a frame whose turn it is: it is shown, waits for its fence, or is given up.  before:
   its fence was known to have signalled; finished and broken: what is known of it now.
   */
  predicate Decides(stale: bool, before: bool, finished: bool, broken: bool, answers: Answers,
                    shown: bool, waits: bool, gone: bool) {
    && (shown || waits || gone)
    && (stale ==> gone)
    && (!stale ==> (waits <==> !finished && !broken))
    && (!stale && broken && !finished ==> gone)
    && (!stale && (before || (finished && !broken)) && answers.Works() ==> shown)
    && (answers.Refuses() ==> !shown)
  }

  /** The fence of b's last drawing is still attached to it. */
  ghost predicate AttachedIn(b: nat, work: map<nat, nat>, attached: map<nat, nat>) {
    b in work && Look(attached, b) == work[b]
  }

  /** What stands between a buffer and its reuse is the fence of its own last drawing. */
  ghost predicate FencedIn(committed: nat, queued: nat, entries: seq<Entry>, work: map<nat, nat>,
                           attached: map<nat, nat>, signalled: set<nat>) {
    && (committed != 0 ==> FinishedIn(committed, work, signalled))
    && (queued != 0 ==> AttachedIn(queued, work, attached))
    && Guards(entries, work)
  }

  predicate Carries(ticket: FrameTicket, buffer: nat) {
    && (buffer == 0 ==> ticket == NO_TICKET)
    && (buffer != 0 ==> ticket.serial != 0 && ticket.buffer == buffer && !ticket.rendered)
  }

  /** The serials up to last are each pending, queued, rendered or replaced, and only one of these. */
  ghost predicate Accounted(last: nat, pending: nat, queued: nat, rendered: set<nat>, replaced: set<nat>) {
    && (forall s: nat :: 1 <= s <= last <==> s in rendered || s in replaced || (s != 0 && (s == pending || s == queued)))
    && rendered !! replaced
    && pending !in rendered + replaced && queued !in rendered + replaced
    && (pending != 0 ==> pending != queued)
  }

  predicate InPools(fb: nat, a: seq<nat>, b: seq<nat>) {
    |a| == 2 && |b| == 2 && (fb == a[0] || fb == a[1] || fb == b[0] || fb == b[1])
  }

  /** Two pools of two framebuffers each, all different. */
  predicate PoolsIn(a: seq<nat>, b: seq<nat>, nextA: nat, nextB: nat, created: nat, committed: nat) {
    && |a| == 2 && |b| == 2 && nextA < 2 && nextB < 2
    && a[0] <= created && a[1] <= created && b[0] <= created && b[1] <= created
    && (a[0] != 0 ==> a[0] != a[1] && a[0] != b[0] && a[0] != b[1])
    && (a[1] != 0 ==> a[1] != b[0] && a[1] != b[1])
    && (b[0] != 0 ==> b[0] != b[1])
    && (committed != 0 ==> InPools(committed, a, b))
  }

  /** The display owns the committed and the submitted framebuffer and no other. */
  predicate OwnedIn(owned: set<nat>, committed: nat, submitted: nat) {
    && owned == Sole(committed) + Sole(submitted)
    && (submitted != 0 ==> submitted != committed)
  }

  /** The display shows the committed page. */
  predicate DisplayedIn(committedBuffer: nat, committedScanout: nat, pixels: map<nat, Image>, contents: map<nat, nat>) {
    && (committedBuffer == 0 <==> committedScanout == 0)
    && (committedScanout != 0 ==>
          committedScanout in pixels && Shows(pixels[committedScanout], Look(contents, committedBuffer)))
  }

  /** A base of the committed generation is the committed page for the present geometry. */
  predicate CoherentIn(committed: nat, contents: map<nat, nat>, epoch: nat, base: Option<Image>, baseGeneration: nat,
                       generation: nat) {
    && baseGeneration <= generation
    && (committed == 0 <==> generation == 0)
    && (generation != 0 && baseGeneration == generation ==> base == Some(Page(Look(contents, committed), epoch)))
  }

  /** Framebuffer fb is fit to be shown next; a base prepared with a page is that page, clean. */
  predicate ComposedIn(fb: nat, pending: nat, committed: nat, contents: map<nat, nat>, epoch: nat,
                       pixels: map<nat, Image>, prepared: Option<Image>, preparedGeneration: nat,
                       a: seq<nat>, b: seq<nat>) {
    var source := if pending != 0 then pending else committed;
    && fb != 0 && InPools(fb, a, b) && fb in pixels
    && source != 0 && Shows(pixels[fb], Look(contents, source))
    && (pending != 0 && preparedGeneration != 0 ==> prepared == Some(Page(Look(contents, pending), epoch)))
  }

  // ---------------------------------------------------------------- the view's private data

  /** Page buffers on their way to the screen, with their tickets. */
  datatype FrameSlots = FrameSlots(pending: nat, committed: nat, queued: nat,
                                   pendingTicket: FrameTicket, committedTicket: FrameTicket, queuedTicket: FrameTicket,
                                   nextSerial: nat)

  /** What the page is laid out for; each change is a new epoch. */
  datatype Geometry = Geometry(epoch: nat, width: int, height: int, inset: nat) {
    /** The geometry for a size; the first size ever is no change. */
    function Relaid(width: int, height: int, inset: nat): Geometry {
      if this == Geometry(epoch, width, height, inset) then this
      else Geometry(if this.width >= 0 then epoch + 1 else epoch, width, height, inset)
    }
  }

  /** Framebuffers: the pending and the committed one, and the pools; created numbers them. */
  datatype Screens = Screens(pending: nat, committed: nat, shm: seq<nat>, rotated: seq<nat>,
                             nextSHM: nat, nextRotated: nat, created: nat, owned: set<nat>, pixels: map<nat, Image>)

  /** Update flags, the throttle timer, the fence in hand and its wait, and how the last commit went. */
  datatype Progress = Progress(updateRequested: bool, updatePending: bool, throttleSource: bool,
                               fence: nat, fenceTaken: bool, fenceWait: bool,
                               atomicInFlight: bool, lastWasSynchronous: bool, lastDroppedBuffer: bool)

  /** video: where the frame on the video plane is, 0 for none; the chrome is drawn with a hole there. */
  datatype Chrome = Chrome(source: bool, motionPending: bool, snapshotChanged: bool, snapshot: nat, motion: nat,
                           composedSnapshot: nat, composedMotion: nat, video: nat)

  /** The clean page under the chrome, and the one prepared with the pending frame. */
  datatype Bases = Bases(base: Option<Image>, baseGeneration: nat, prepared: Option<Image>, preparedGeneration: nat,
                         frameGeneration: nat, captureRequested: bool) {
    /** With the next page the base prepared with it is its base; the old storage is reused for the next one. */
    function Promoted(): Bases {
      var next := frameGeneration + 1;
      if preparedGeneration == 0 then this.(frameGeneration := next)
      else this.(base := prepared, prepared := base, frameGeneration := next, baseGeneration := next, preparedGeneration := 0)
    }
  }

  /** The page buffers themselves: fences attached and not yet taken, and what was last drawn. */
  datatype PageBuffers = PageBuffers(fences: map<nat, nat>, contents: map<nat, nat>)

  /**
   The producer's books: the fence of the last drawing in each buffer, the buffers accepted and not
   released, how often each was accepted and released, the serials answered with FrameDone and those
   displaced from the queue; and the framebuffer submitted to the display and not yet presented.
   */
  datatype Ledger = Ledger(work: map<nat, nat>, held: set<nat>, accepts: map<nat, nat>, releases: map<nat, nat>,
                           rendered: set<nat>, replaced: set<nat>, submitted: nat)

  /** How the books follow a frame: rendered, displaced, queued, accepted, taken from the queue. */
  lemma AccountedMoves(last: nat, p: nat, q: nat, rendered: set<nat>, replaced: set<nat>)
    requires Accounted(last, p, q, rendered, replaced)
    ensures p != 0 ==> p !in rendered && Accounted(last, 0, q, rendered + {p}, replaced)
    ensures q != 0 ==> Accounted(last, p, 0, rendered, replaced + {q})
    ensures q == 0 ==> Accounted(last + 1, p, last + 1, rendered, replaced)
    ensures p == 0 ==> Accounted(last + 1, last + 1, q, rendered, replaced)
    ensures p == 0 ==> Accounted(last, q, 0, rendered, replaced)
  {
  }

  /** How conservation follows a buffer: presented, taken from the queue. */
  lemma ConservedMoves(p: nat, c: nat, q: nat, quarantine: set<nat>, held: set<nat>, accepts: map<nat, nat>, releases: map<nat, nat>)
    requires ConservedIn(p, c, q, quarantine, held, accepts, releases)
    ensures c != 0 ==> c in held
    ensures p != 0 ==> ConservedIn(0, p, q, quarantine, Without(held, c), accepts,
                                   if c != 0 then releases[c := Look(releases, c) + 1] else releases)
    ensures p == 0 ==> ConservedIn(q, c, 0, quarantine, held, accepts, releases)
  {
  }

  /** A buffer the view does not hold enters the queue, or becomes the pending one. */
  lemma ConservedEnters(b: nat, p: nat, c: nat, q: nat, quarantine: set<nat>, held: set<nat>, accepts: map<nat, nat>, releases: map<nat, nat>)
    requires ConservedIn(p, c, q, quarantine, held, accepts, releases) && b != 0 && b !in held
    ensures q == 0 ==> ConservedIn(p, c, b, quarantine, held + {b}, accepts[b := Look(accepts, b) + 1], releases)
    ensures p == 0 ==> ConservedIn(b, c, q, quarantine, held + {b}, accepts[b := Look(accepts, b) + 1], releases)
  {
  }

  /** A new framebuffer, or none, takes a slot that the display does not have. */
  lemma PoolsTake(a: seq<nat>, b: seq<nat>, nextA: nat, nextB: nat, created: nat, committed: nat, i: nat, fb: nat)
    requires PoolsIn(a, b, nextA, nextB, created, committed) && i < 2 && (fb == 0 || fb == created + 1)
    ensures a[i] == 0 || a[i] != committed ==>
              PoolsIn(a[i := fb], b, nextA, nextB, if fb != 0 then fb else created, committed)
    ensures b[i] == 0 || b[i] != committed ==>
              PoolsIn(a, b[i := fb], nextA, nextB, if fb != 0 then fb else created, committed)
    ensures committed <= created
  {
  }

  /** A framebuffer that was fit to be shown is shown. */
  lemma Presents(s: Screens, b: Bases, pending: nat, committed: nat, contents: map<nat, nat>, epoch: nat)
    requires ComposedIn(s.pending, pending, committed, contents, epoch, s.pixels, b.prepared, b.preparedGeneration, s.shm, s.rotated)
    requires PoolsIn(s.shm, s.rotated, s.nextSHM, s.nextRotated, s.created, s.committed)
    requires CoherentIn(committed, contents, epoch, b.base, b.baseGeneration, b.frameGeneration)
    ensures s.pending != 0 && PoolsIn(s.shm, s.rotated, s.nextSHM, s.nextRotated, s.created, s.pending)
    ensures OwnedIn(Sole(s.pending), s.pending, 0)
    ensures DisplayedIn(if pending != 0 then pending else committed, s.pending, s.pixels, contents)
    ensures var n := b.Promoted();
      pending != 0 ==> CoherentIn(pending, contents, epoch, n.base, n.baseGeneration, n.frameGeneration)
  {
  }

  lemma KeepsGuards(entries: seq<Entry>, work: map<nat, nat>, b: nat, fence: nat)
    requires Guards(entries, work) && b !in Waiting(entries)
    ensures Guards(entries, work[b := fence])
  {
  }

  class FrameView {
    const machine: Machine
    var frames: FrameSlots
    var geometry: Geometry
    var screens: Screens
    var progress: Progress
    var chrome: Chrome
    var bases: Bases
    var buffers: PageBuffers
    const board: FenceBoard
    const discardedRenderingFences: RenderingFenceRetirement

    const rotated: bool           // the output is turned
    const nativeChrome: bool      // chrome is composed by the view
    const synchronous: bool       // commits wait for the hardware
    const shm: set<nat>           // buffers in shared memory, the others are DMA-BUFs
    const swapchain: set<nat>     // the producer's buffers

    var ledger: Ledger            // kept for the producer

    // ---------------------------------------------------------------- consistency

    ghost predicate Objects()
      reads discardedRenderingFences
    {
      && discardedRenderingFences.board == board
      && discardedRenderingFences.Valid()
      && |swapchain| <= MAXIMUM_RETAINED && 0 !in swapchain
      && (rotated || nativeChrome || swapchain <= shm)
    }

    ghost function Quarantine(): set<nat>
      reads discardedRenderingFences
    {
      Waiting(discardedRenderingFences.entries)
    }

    ghost predicate Conserved()
      reads this, discardedRenderingFences
    {
      && ledger.held <= swapchain
      && ConservedIn(frames.pending, frames.committed, frames.queued, Quarantine(), ledger.held, ledger.accepts, ledger.releases)
    }

    ghost predicate Finished(b: nat)
      reads this, board
    {
      FinishedIn(b, ledger.work, board.signalled)
    }

    ghost predicate Broken(b: nat)
      reads this, board
    {
      BrokenIn(b, ledger.work, board.failed)
    }

    ghost predicate Fenced()
      reads this, board, discardedRenderingFences
    {
      FencedIn(frames.committed, frames.queued, discardedRenderingFences.entries, ledger.work, buffers.fences, board.signalled)
    }

    /** Every accepted frame is waiting, was answered, or was displaced: one of these, once. */
    ghost predicate Ticketed()
      reads this
    {
      && Carries(frames.pendingTicket, frames.pending) && Carries(frames.queuedTicket, frames.queued)
      && (frames.queued != 0 ==> frames.queuedTicket.phase == Queued)
      && Accounted(frames.nextSerial, frames.pendingTicket.serial, frames.queuedTicket.serial, ledger.rendered, ledger.replaced)
    }

    ghost predicate Screened()
      reads this
    {
      && PoolsIn(screens.shm, screens.rotated, screens.nextSHM, screens.nextRotated, screens.created, screens.committed)
      && OwnedIn(screens.owned, screens.committed, ledger.submitted)
      && DisplayedIn(frames.committed, screens.committed, screens.pixels, buffers.contents)
    }

    ghost predicate Coherent()
      reads this
    {
      CoherentIn(frames.committed, buffers.contents, geometry.epoch, bases.base, bases.baseGeneration, bases.frameGeneration)
    }

    /** What holds at every call between the functions below. */
    ghost predicate Core()
      reads this, board, discardedRenderingFences
    {
      Objects() && Conserved() && Fenced() && Ticketed() && Screened() && Coherent()
    }

    /** A queued frame will be committed: an update in progress or the throttle timer sees to it. */
    ghost predicate Awake()
      reads this
    {
      && (frames.queued != 0 <==> progress.updatePending)
      && (frames.queued != 0 ==> progress.updateRequested || progress.throttleSource)
    }

    // The pending frame between calls.

    /** Nothing is with the display beyond what it shows. */
    ghost predicate Unsubmitted()
      reads this
    {
      screens.pending == 0 && ledger.submitted == 0 && !progress.atomicInFlight && !progress.lastWasSynchronous
    }

    ghost predicate FenceUntaken()
      reads this
    {
      progress.fence == 0 && !progress.fenceTaken
    }

    /** Nothing is in progress. */
    ghost predicate Idle()
      reads this
    {
      frames.pending == 0 && Unsubmitted() && FenceUntaken() && !progress.fenceWait
    }

    /** A frame was just accepted or taken from the queue. */
    ghost predicate Fresh()
      reads this
    {
      && frames.pending != 0 && frames.pendingTicket.phase == Queued && FenceUntaken()
      && AttachedIn(frames.pending, ledger.work, buffers.fences)
    }

    /** The pending frame has its fence in hand. */
    ghost predicate FenceHeld()
      reads this
    {
      && frames.pending != 0 && frames.pendingTicket.phase == WaitingFence && progress.fenceTaken
      && frames.pending in ledger.work && progress.fence == ledger.work[frames.pending] != 0
      && Look(buffers.fences, frames.pending) == 0
    }

    /** The pending frame waits for its fence. */
    ghost predicate Waits()
      reads this
    {
      FenceHeld() && progress.fenceWait && Unsubmitted() && !progress.lastDroppedBuffer
    }

    ghost predicate Composed(fb: nat)
      reads this
    {
      ComposedIn(fb, frames.pending, frames.committed, buffers.contents, geometry.epoch, screens.pixels, bases.prepared,
                 bases.preparedGeneration, screens.shm, screens.rotated)
    }

    /** A framebuffer is with the display, to replace the committed one: a new page, or new chrome. */
    ghost predicate InFlight()
      reads this, board
    {
      && !progress.fenceWait && FenceUntaken()
      && ledger.submitted == screens.pending && Composed(screens.pending)
      && (frames.pending != 0 ==> frames.pendingTicket.phase == Submitted && Finished(frames.pending))
    }

    /** What a successful update request leaves: a fence wait, or a submitted framebuffer. */
    ghost predicate Launched()
      reads this, board
    {
      Waits() || (InFlight() && progress.atomicInFlight == !progress.lastWasSynchronous)
    }

    /** Between main-loop events. */
    ghost predicate Valid()
      reads this, board, discardedRenderingFences
    {
      && Core() && Awake()
      && !progress.lastWasSynchronous && !bases.captureRequested
      && (if progress.updateRequested then Launched() else Idle())
    }

    constructor (machine: Machine, rotated: bool, nativeChrome: bool, synchronous: bool, shm: set<nat>, swapchain: set<nat>)
      requires |swapchain| <= MAXIMUM_RETAINED && 0 !in swapchain
      requires rotated || nativeChrome || swapchain <= shm
      ensures Valid() && fresh(board) && fresh(discardedRenderingFences)
      ensures this.machine == machine && this.synchronous == synchronous && this.swapchain == swapchain
      ensures ledger.held == {} && ledger.replaced == {} && frames.committed == frames.queued == frames.nextSerial == 0
      ensures !progress.updateRequested && !progress.throttleSource && geometry.epoch == 1 && geometry.width < 0
      ensures chrome == Chrome(false, false, false, 0, 0, 0, 0, 0)
    {
      this.machine := machine;
      this.rotated, this.nativeChrome, this.synchronous := rotated, nativeChrome, synchronous;
      this.shm, this.swapchain := shm, swapchain;
      var fences := new FenceBoard();
      board := fences;
      discardedRenderingFences := new RenderingFenceRetirement(fences);
      frames := FrameSlots(0, 0, 0, NO_TICKET, NO_TICKET, NO_TICKET, 0);
      geometry := Geometry(1, -1, -1, 0xffff_ffff);
      screens := Screens(0, 0, [0, 0], [0, 0], 0, 0, 0, {}, map[]);
      progress := Progress(false, false, false, 0, false, false, false, false, false);
      chrome := Chrome(false, false, false, 0, 0, 0, 0, 0);
      bases := Bases(None, 0, None, 0, 0, false);
      buffers := PageBuffers(map[], map[]);
      ledger := Ledger(map[], {}, map[], map[], {}, {}, 0);
      new;
      assert Waiting(discardedRenderingFences.entries) == {};
    }

    // ---------------------------------------------------------------- the producer's answers

    /** ReleaseBuffer: the producer may draw in the buffer again. */
    method Released(b: nat)
      requires b in ledger.held && Finished(b)
      modifies this`ledger
      ensures ledger == old(ledger).(held := old(ledger).held - {b},
                                     releases := old(ledger).releases[b := Look(old(ledger).releases, b) + 1])
    {
      ledger := ledger.(held := ledger.held - {b}, releases := ledger.releases[b := Look(ledger.releases, b) + 1]);
    }

    /** FrameDone: the producer may send the next frame. */
    method Rendered(serial: nat)
      requires serial !in ledger.rendered
      modifies this`ledger
      ensures ledger == old(ledger).(rendered := old(ledger).rendered + {serial})
    {
      ledger := ledger.(rendered := ledger.rendered + {serial});
    }

    // ---------------------------------------------------------------- discarding a frame

    /** How a discarded buffer's fence is known to the view. */
    ghost predicate Retirable(b: nat, fence: nat)
      reads this, board
    {
      b in ledger.work && if fence != 0 then fence == ledger.work[b]
                          else Look(buffers.fences, b) == ledger.work[b] || (Look(buffers.fences, b) == 0 && Finished(b))
    }

    method TakeRenderingFence(b: nat) returns (fence: nat)
      modifies this`buffers
      ensures fence == Look(old(buffers).fences, b)
      ensures buffers == old(buffers).(fences := old(buffers).fences - {b})
    {
      fence := Look(buffers.fences, b);
      buffers := buffers.(fences := buffers.fences - {b});
    }

    /** A buffer leaves the view: to its producer when its fence has signalled, else to the quarantine. */
    method RetireDiscardedBuffer(b: nat, fence: nat)
      requires Objects() && Guards(discardedRenderingFences.entries, ledger.work)
      requires b in ledger.held && ledger.held <= swapchain && Retirable(b, fence)
      requires Quarantine() <= ledger.held - {b}
      modifies this`ledger, this`buffers, discardedRenderingFences, board
      ensures Objects() && Guards(discardedRenderingFences.entries, ledger.work)
      ensures board.Later()
      ensures buffers.contents == old(buffers).contents
      ensures forall c :: c != b ==> Look(buffers.fences, c) == Look(old(buffers).fences, c)
      ensures b in ledger.held <==> !Finished(b)
      ensures if b in ledger.held then
                ledger == old(ledger) && Quarantine() == old(Quarantine()) + {b}
              else
                && ledger == old(ledger).(held := old(ledger).held - {b},
                                          releases := old(ledger).releases[b := Look(old(ledger).releases, b) + 1])
                && Quarantine() == old(Quarantine())
    {
      hide Guards, Waiting, Distinct, Objects;
      var fd := LastFence(b, fence);
      var result := board.Probe(fd);
      if result == FenceResult.Ready {
        Released(b);
        return;
      }
      var fired := KeepDiscarded(fd, b);
      if fired {
        Released(b);
      }
    }

    /** The fence of the last drawing in b, unless that is known to have signalled. */
    method LastFence(b: nat, fence: nat) returns (fd: nat)
      requires Retirable(b, fence)
      modifies this`buffers
      ensures buffers.contents == old(buffers).contents
      ensures forall c :: c != b ==> Look(buffers.fences, c) == Look(old(buffers).fences, c)
      ensures b in ledger.work && (board.Open(fd) <==> Finished(b)) && (fd != 0 ==> fd == ledger.work[b])
    {
      fd := fence;
      if fd == 0 {
        fd := TakeRenderingFence(b);
      }
    }

    /** The quarantine has room for another buffer. */
    method KeepDiscarded(fence: nat, b: nat) returns (fired: bool)
      requires Objects() && Guards(discardedRenderingFences.entries, ledger.work)
      requires b in ledger.held && ledger.held <= swapchain && Quarantine() <= ledger.held - {b}
      requires fence != 0 && b in ledger.work && ledger.work[b] == fence
      modifies discardedRenderingFences, board
      ensures Objects() && Guards(discardedRenderingFences.entries, ledger.work) && board.Later()
      ensures fired <==> board.Open(fence)
      ensures Quarantine() == old(Quarantine()) + if fired then {} else {b}
    {
      hide Guards, Waiting, Distinct;
      Fewer(Quarantine(), b, swapchain);
      var ok;
      ok, fired := discardedRenderingFences.Retain(fence, b, ledger.work);
      assert ok;
    }

    method DispatchDiscarded(i: nat)
      requires Objects() && Conserved() && Fenced()
      requires i < |discardedRenderingFences.entries| && discardedRenderingFences.entries[i].watched
      modifies this`ledger, discardedRenderingFences, board
      ensures Objects() && Conserved() && Fenced()
      ensures board.Later()
      ensures var b := old(discardedRenderingFences.entries)[i].buffer;
        && b in old(ledger).held
        && ledger == if Finished(b) then
                       old(ledger).(held := old(ledger).held - {b},
                                    releases := old(ledger).releases[b := Look(old(ledger).releases, b) + 1])
                     else old(ledger)
    {
      hide Waiting, Distinct;
      var b := discardedRenderingFences.entries[i].buffer;
      assert b in ledger.work && ledger.work[b] == discardedRenderingFences.entries[i].fence != 0 by {
        assert !discardedRenderingFences.entries[i].done;
      }
      hide Guards;
      var fired := discardedRenderingFences.Dispatch(i, ledger.work);
      if fired {
        Released(b);
      }
    }

    /** A quarantined buffer's fence event: it goes back to its producer exactly when its fence has signalled. */
    method DiscardedFenceEvent(i: nat)
      requires Valid() && i < |discardedRenderingFences.entries| && discardedRenderingFences.entries[i].watched
      modifies this`ledger, discardedRenderingFences, board
      ensures Valid()
      ensures var b := old(discardedRenderingFences.entries)[i].buffer;
        b in old(ledger).held && ledger.held == old(ledger).held - (if Finished(b) then {b} else {})
    {
      hide Objects, ConservedIn, FencedIn, PoolsIn, OwnedIn, DisplayedIn, CoherentIn, ComposedIn, Accounted;
      DispatchDiscarded(i);
    }

    /** FrameDone for the pending frame. */
    method AnswerPending()
      requires Ticketed() && frames.pending != 0
      modifies this`frames, this`ledger
      ensures frames == old(frames).(pendingTicket := frames.pendingTicket)
      ensures ledger == old(ledger).(rendered := old(ledger).rendered + {old(frames).pendingTicket.serial})
      ensures Accounted(frames.nextSerial, 0, frames.queuedTicket.serial, ledger.rendered, ledger.replaced)
    {
      var (ticket, completed) := frames.pendingTicket.Complete(frames.pendingTicket.serial);
      frames := frames.(pendingTicket := ticket);
      if completed {
        Rendered(frames.pendingTicket.serial);
      }
    }

    /** Buffer b is back with its producer if the GPU has finished with it, and quarantined if not. */
    twostate predicate Left(b: nat)
      reads this, board
    {
      ledger.held == if b != 0 && Finished(b) then old(ledger).held - {b} else old(ledger).held
    }

    /** The pending buffer leaves the view. */
    method DiscardPending()
      requires Objects() && Conserved() && Fenced()
      requires frames.pending != 0 && Retirable(frames.pending, progress.fence)
      modifies this`frames, this`ledger, this`buffers, discardedRenderingFences, board
      ensures Objects() && Conserved() && Fenced() && frames == old(frames).(pending := 0)
      ensures ledger == old(ledger).(held := ledger.held, releases := ledger.releases) && Left(old(frames).pending)
      ensures buffers.contents == old(buffers).contents
      ensures board.Later()
    {
      hide Waiting, Distinct, Guards;
      RetireDiscardedBuffer(frames.pending, progress.fence);
      frames := frames.(pending := 0);
    }

    /** Gives up the pending commit; a page frame is answered with FrameDone, and its buffer leaves the view. */
    method AbortPendingCommit() returns (droppedWebFrame: bool)
      requires Core() && ledger.submitted == 0
      requires frames.pending != 0 ==> Retirable(frames.pending, progress.fence)
      modifies this`frames, this`progress, this`screens, this`bases, this`buffers, this`ledger,
               discardedRenderingFences, board
      ensures Core()
      ensures frames == old(frames).(pending := 0, pendingTicket := NO_TICKET)
      ensures progress == old(progress).(fence := 0, fenceTaken := false, fenceWait := false, lastDroppedBuffer := droppedWebFrame)
      ensures screens == old(screens).(pending := 0)
      ensures bases == old(bases).(prepared := None, preparedGeneration := 0)
      ensures droppedWebFrame == (old(frames).pending != 0)
      ensures ledger == old(ledger).(held := ledger.held, releases := ledger.releases,
                                     rendered := old(ledger).rendered + Sole(old(frames).pendingTicket.serial))
      ensures Left(old(frames).pending)
      ensures buffers.contents == old(buffers).contents && board.Later()
    {
      hide Objects, ConservedIn, FencedIn, Accounted, PoolsIn, DisplayedIn, OwnedIn, CoherentIn, FinishedIn;
      progress := progress.(fenceWait := false, fenceTaken := false);
      droppedWebFrame := frames.pending != 0;
      if frames.pending != 0 {
        AnswerPending();
        DiscardPending();
      }
      frames := frames.(pending := 0, pendingTicket := NO_TICKET);
      progress := progress.(fence := 0, lastDroppedBuffer := droppedWebFrame);
      screens := screens.(pending := 0);
      bases := bases.(prepared := None, preparedGeneration := 0);
    }

    // ---------------------------------------------------------------- geometry

    /** True when the page has to be laid out anew, which makes every kept base worthless. */
    method RefreshContentGeometry(width: int, height: int, inset: nat) returns (changed: bool)
      requires Core()
      modifies this`geometry, this`bases
      ensures Core()
      ensures changed == (geometry.(epoch := old(geometry).epoch) != old(geometry))
      ensures geometry == old(geometry).Relaid(width, height, inset)
      ensures bases == if changed then old(bases).(baseGeneration := 0, preparedGeneration := 0) else old(bases)
      ensures old(Launched()) ==> Launched()
    {
      hide Objects, ConservedIn, FencedIn, Accounted, PoolsIn, DisplayedIn, OwnedIn, FinishedIn, Shows, InPools;
      if width == geometry.width && height == geometry.height && inset == geometry.inset {
        return false;
      }
      geometry := Geometry(geometry.epoch + if geometry.width >= 0 then 1 else 0, width, height, inset);
      bases := bases.(baseGeneration := 0, preparedGeneration := 0);
      return true;
    }

    // ---------------------------------------------------------------- drawing in framebuffers

    /** What drawing may change of the screens: pools and pixels, not what the display has. */
    twostate predicate OnlyDrew()
      reads this
    {
      && DisplayKept()
      && screens == old(screens).(shm := screens.shm, rotated := screens.rotated, nextSHM := screens.nextSHM,
                                  nextRotated := screens.nextRotated, created := screens.created, pixels := screens.pixels)
      && bases == old(bases).(prepared := bases.prepared, preparedGeneration := bases.preparedGeneration)
      && chrome == old(chrome).(composedSnapshot := chrome.composedSnapshot, composedMotion := chrome.composedMotion)
    }

    method BeginCPUAccess(fb: nat, write: bool) returns (access: Access)
      ensures access == Refused <==> write && fb in screens.owned
      ensures access != Refused && machine.answers.draws.Always? ==> (access == Granted <==> machine.answers.draws.value)
    {
      if fb in screens.owned && write {
        return Refused;
      }
      var works := Ask(machine.answers.draws);
      return if works then Granted else Faulty;
    }

    /** Draws an image into a framebuffer the display does not own. */
    method Draw(fb: nat, image: Image) returns (ok: bool)
      requires fb !in screens.owned
      modifies this`screens
      ensures fb in screens.pixels && screens == old(screens).(pixels := old(screens).pixels[fb := screens.pixels[fb]])
      ensures ok ==> screens.pixels[fb] == image
      ensures machine.answers.draws.Always? ==> ok == machine.answers.draws.value
    {
      screens := screens.(pixels := screens.pixels[fb := if fb in screens.pixels then screens.pixels[fb] else Noise]);
      var access := BeginCPUAccess(fb, true);
      assert access != Refused;
      if access != Granted {
        return false;
      }
      var readable := Ask(machine.answers.draws);
      screens := screens.(pixels := screens.pixels[fb := if readable then image else Noise]);
      return readable;
    }

    /** Keeps the page just drawn, before the chrome goes over it, while chrome redraws are to be expected. */
    method PrepareChromeBaseIfNeeded(fb: nat) returns (prepared: bool)
      requires fb in screens.pixels
      modifies this`bases
      ensures bases == old(bases).(prepared := bases.prepared, preparedGeneration := bases.preparedGeneration)
      ensures prepared == (bases.preparedGeneration != 0)
      ensures prepared ==> bases.preparedGeneration == bases.frameGeneration + 1 && bases.prepared == Some(screens.pixels[fb])
      ensures machine.answers.draws == Always(false) ==> !prepared
      ensures machine.answers.draws == Always(true) && (bases.captureRequested || machine.answers.panel.Always?) ==>
                (prepared <==> bases.captureRequested || machine.answers.panel.value)
      ensures !bases.captureRequested && machine.answers.panel == Always(false) ==> !prepared
    {
      var panelOpenOrMoving := Ask(machine.answers.panel);
      if !bases.captureRequested && !panelOpenOrMoving {
        bases := bases.(preparedGeneration := 0);
        return false;
      }
      var access := BeginCPUAccess(fb, false);
      assert access != Refused;
      var finished := Ask(machine.answers.draws);
      if access == Granted {
        bases := bases.(prepared := Some(screens.pixels[fb]));
      }
      if access != Granted || !finished {
        bases := bases.(preparedGeneration := 0);
        return false;
      }
      bases := bases.(preparedGeneration := bases.frameGeneration + 1);
      return true;
    }

    /** Framebuffer fb shows the page under the chrome of this moment, with the hole where the video is. */
    ghost predicate Drawn(fb: nat, page: Image)
      reads this
    {
      && fb in screens.pixels && screens.pixels[fb] == Decorated(page, chrome.snapshot, chrome.motion, chrome.video)
      && ChromeIsComposed()
    }

    /** The chrome drawn last is the present one. */
    predicate ChromeIsComposed()
      reads this
    {
      chrome.composedSnapshot == chrome.snapshot && chrome.composedMotion == chrome.motion
    }

    /** The hole in a framebuffer. */
    function HoleIn(fb: nat): nat
      reads this
    {
      if Picture(fb).Decorated? then Picture(fb).hole else 0
    }

    function Picture(fb: nat): Image
      reads this
    {
      if fb in screens.pixels then screens.pixels[fb] else Noise
    }

    /** What is on display is the same framebuffer with the same picture. */
    twostate predicate DisplayKept()
      reads this
    {
      screens.committed == old(screens).committed && Picture(screens.committed) == old(Picture(screens.committed))
    }

    /** Draws the chrome over the page in a framebuffer the display does not own. */
    method ComposeNativeChrome(fb: nat) returns (ok: bool)
      requires fb in screens.pixels && fb !in screens.owned
      modifies this`screens, this`chrome
      ensures fb in screens.pixels && screens == old(screens).(pixels := old(screens).pixels[fb := screens.pixels[fb]])
      ensures chrome == old(chrome).(composedSnapshot := chrome.composedSnapshot, composedMotion := chrome.composedMotion)
      ensures ok ==> Drawn(fb, old(screens).pixels[fb])
      ensures machine.answers.draws.Always? ==> ok == machine.answers.draws.value
    {
      var access := BeginCPUAccess(fb, true);
      assert access != Refused;
      if access != Granted {
        return false;
      }
      chrome := chrome.(composedSnapshot := chrome.snapshot, composedMotion := chrome.motion);
      ok := Draw(fb, Decorated(screens.pixels[fb], chrome.snapshot, chrome.motion, chrome.video));
    }

    // ---------------------------------------------------------------- choosing a framebuffer

    function Pool(inShm: bool): seq<nat>
      reads this
    {
      if inShm then screens.shm else screens.rotated
    }

    /** The first slot, from the next one on, that is not with the display; there always is one. */
    method FreeSlot(inShm: bool) returns (index: nat)
      requires Screened() && screens.pending == 0
      ensures index < 2 == |Pool(inShm)| && (Pool(inShm)[index] != 0 ==> Pool(inShm)[index] != screens.committed)
      ensures var next := if inShm then screens.nextSHM else screens.nextRotated;
        index == next || (index == 1 - next && Pool(inShm)[next] == screens.committed != 0)
    {
      hide OwnedIn, DisplayedIn;
      var next := if inShm then screens.nextSHM else screens.nextRotated;
      for i := 0 to 2
        invariant i >= 1 ==> Pool(inShm)[next] == screens.committed != 0
        invariant i == 2 ==> Pool(inShm)[1 - next] == screens.committed
      {
        index := (next + i) % 2;
        var candidate := Pool(inShm)[index];
        if candidate != 0 && (candidate == screens.committed || candidate == screens.pending) {
          continue;
        }
        return;
      }
      assert false;
    }

    /** The framebuffer in a slot is destroyed and another one created, showing the image, if that works. */
    method Recreate(inShm: bool, index: nat, image: Image) returns (fb: nat)
      requires Screened() && ledger.submitted == 0 && index < 2
      requires Pool(inShm)[index] != 0 ==> Pool(inShm)[index] != screens.committed
      modifies this`screens
      ensures DisplayKept() && Screened() && index < |Pool(inShm)| && Pool(inShm)[index] == fb
      ensures screens == old(screens).(shm := screens.shm, rotated := screens.rotated, created := screens.created, pixels := screens.pixels)
      ensures fb != 0 ==> fb != screens.committed && fb in screens.pixels && screens.pixels[fb] == image
      ensures machine.answers.draws.Always? ==> (fb != 0 <==> machine.answers.draws.value)
    {
      hide Shows, PoolsIn, OwnedIn;
      PoolsFacts();
      var works := Ask(machine.answers.draws);
      fb := if works then screens.created + 1 else 0;
      PoolsTake(screens.shm, screens.rotated, screens.nextSHM, screens.nextRotated, screens.created, screens.committed, index, fb);
      if works {
        screens := screens.(created := fb, pixels := screens.pixels[fb := image]);
      }
      if inShm {
        screens := screens.(shm := screens.shm[index := fb]);
      } else {
        screens := screens.(rotated := screens.rotated[index := fb]);
      }
    }

    lemma PoolsFacts()
      requires Screened()
      ensures |screens.shm| == |screens.rotated| == 2
    {
    }

    method Advance(inShm: bool, index: nat)
      requires Screened() && index < 2
      modifies this`screens
      ensures Screened() && screens == old(screens).(nextSHM := screens.nextSHM, nextRotated := screens.nextRotated)
    {
      hide OwnedIn, DisplayedIn;
      if inShm {
        screens := screens.(nextSHM := (index + 1) % 2);
      } else {
        screens := screens.(nextRotated := (index + 1) % 2);
      }
    }

    /** Fit to be shown next: in a pool, not with the display, and showing the page under the chrome. */
    ghost predicate Fit(fb: nat, page: Image)
      reads this
    {
      InPools(fb, screens.shm, screens.rotated) && fb != screens.committed && Drawn(fb, page)
    }

    /** A framebuffer with the page in it and the chrome over it, or 0; the clean page may be kept. */
    method NextPageBuffer(inShm: bool, buffer: nat) returns (fb: nat)
      requires Screened() && ledger.submitted == 0 && screens.pending == 0
      modifies this`screens, this`bases, this`chrome
      ensures Screened() && OnlyDrew()
      ensures var page := Page(Look(buffers.contents, buffer), geometry.epoch);
        && (fb != 0 ==> Fit(fb, page))
        && (fb != 0 && bases.preparedGeneration != 0 ==>
              bases.preparedGeneration == bases.frameGeneration + 1 && bases.prepared == Some(page))
      ensures machine.answers.draws.Always? ==> (fb != 0 <==> machine.answers.draws.value)
      ensures bases.captureRequested && fb != 0 && machine.answers.draws == Always(true) ==> bases.preparedGeneration != 0
    {
      hide DisplayedIn, PoolsIn, OwnedIn;
      var page := Page(Look(buffers.contents, buffer), geometry.epoch);
      var index := FreeSlot(inShm);
      var candidate := PageInSlot(inShm, index, page);
      if candidate == 0 {
        return 0;
      }
      var _ := PrepareChromeBaseIfNeeded(candidate);
      var finished := ComposeInSlot(inShm, index);
      if !finished {
        return 0;
      }
      Advance(inShm, index);
      return candidate;
    }

    /** The page is drawn in a free slot's framebuffer, or in a new one when that does not fit; 0 on failure. */
    method PageInSlot(inShm: bool, index: nat, page: Image) returns (fb: nat)
      requires Screened() && ledger.submitted == 0 && index < |Pool(inShm)| == 2
      requires Pool(inShm)[index] != 0 ==> Pool(inShm)[index] != screens.committed
      modifies this`screens
      ensures DisplayKept() && Screened() && index < |Pool(inShm)|
      ensures screens == old(screens).(shm := screens.shm, rotated := screens.rotated, created := screens.created, pixels := screens.pixels)
      ensures fb != 0 ==> Pool(inShm)[index] == fb != screens.committed && fb in screens.pixels && screens.pixels[fb] == page
      ensures machine.answers.draws.Always? ==> (fb != 0 <==> machine.answers.draws.value)
    {
      hide DisplayedIn, PoolsIn, OwnedIn;
      fb := Pool(inShm)[index];
      var matches: bool := *;
      if fb == 0 || !matches {
        fb := Recreate(inShm, index, page);
      } else {
        var copied := DrawInSlot(inShm, index, page);
        if !copied {
          fb := 0;
        }
      }
    }

    /** A framebuffer with the kept base in it and the chrome over it, or 0. */
    method NextChromeOverlayBuffer() returns (fb: nat)
      requires Screened() && ledger.submitted == 0 && screens.pending == 0
      modifies this`screens, this`chrome
      ensures Screened() && OnlyDrew()
      ensures fb != 0 ==> bases.base.Some? && Fit(fb, bases.base.value)
      ensures machine.answers.draws.Always? ==> (fb != 0 <==> machine.answers.draws.value && bases.base.Some?)
    {
      hide DisplayedIn, PoolsIn, OwnedIn;
      if bases.base.None? {
        return 0;
      }
      var inShm := !rotated;
      var index := FreeSlot(inShm);
      var candidate := Pool(inShm)[index];
      var matches: bool := *;
      if candidate == 0 || !matches {
        candidate := Recreate(inShm, index, Noise);
        if candidate == 0 {
          return 0;
        }
      }
      var restored := DrawInSlot(inShm, index, bases.base.value);
      if !restored {
        return 0;
      }
      var finished := ComposeInSlot(inShm, index);
      if !finished {
        return 0;
      }
      Advance(inShm, index);
      return candidate;
    }

    /** Drawing in a free slot leaves the display alone. */
    method DrawInSlot(inShm: bool, index: nat, image: Image) returns (ok: bool)
      requires Screened() && ledger.submitted == 0 && index < |Pool(inShm)|
      requires Pool(inShm)[index] != 0 && Pool(inShm)[index] != screens.committed
      modifies this`screens
      ensures DisplayKept() && Screened() && screens == old(screens).(pixels := screens.pixels)
      ensures Pool(inShm)[index] in screens.pixels && (ok ==> screens.pixels[Pool(inShm)[index]] == image)
      ensures machine.answers.draws.Always? ==> ok == machine.answers.draws.value
    {
      hide PoolsIn, Shows;
      ok := Draw(Pool(inShm)[index], image);
    }

    method ComposeInSlot(inShm: bool, index: nat) returns (ok: bool)
      requires Screened() && ledger.submitted == 0 && index < 2
      requires Pool(inShm)[index] != 0 && Pool(inShm)[index] != screens.committed && Pool(inShm)[index] in screens.pixels
      modifies this`screens, this`chrome
      ensures DisplayKept() && Screened() && screens == old(screens).(pixels := screens.pixels)
      ensures chrome == old(chrome).(composedSnapshot := chrome.composedSnapshot, composedMotion := chrome.composedMotion)
      ensures ok ==> Fit(Pool(inShm)[index], old(screens).pixels[Pool(inShm)[index]])
      ensures machine.answers.draws.Always? ==> ok == machine.answers.draws.value
    {
      hide Shows;
      ok := ComposeNativeChrome(Pool(inShm)[index]);
      var finished := Ask(machine.answers.draws);
      ok := ok && finished;
    }

    /** The pool is chosen by the kind of page buffer. */
    method DrmScanoutBufferForRender(buffer: nat) returns (fb: nat)
      requires Objects() && buffer in swapchain
      requires Screened() && ledger.submitted == 0 && screens.pending == 0
      modifies this`screens, this`bases, this`chrome
      ensures Screened() && OnlyDrew()
      ensures var page := Page(Look(buffers.contents, buffer), geometry.epoch);
        && (fb != 0 ==> Fit(fb, page))
        && (fb != 0 && bases.preparedGeneration != 0 ==>
              bases.preparedGeneration == bases.frameGeneration + 1 && bases.prepared == Some(page))
      ensures machine.answers.draws.Always? ==> (fb != 0 <==> machine.answers.draws.value)
      ensures bases.captureRequested && fb != 0 && machine.answers.draws == Always(true) ==> bases.preparedGeneration != 0
    {
      hide DisplayedIn, PoolsIn, OwnedIn, Fit;
      if buffer !in shm {
        assert rotated || nativeChrome;
        fb := NextPageBuffer(false, buffer);
      } else if rotated || nativeChrome {
        fb := NextPageBuffer(false, buffer);
      } else {
        fb := NextPageBuffer(true, buffer);
      }
    }

    /** Draws the committed page once more, to keep it clean; the framebuffer itself is not shown. */
    method CaptureCommittedChromeBase() returns (captured: bool)
      requires Core() && Unsubmitted()
      modifies this`screens, this`bases, this`chrome
      ensures Core() && Unsubmitted()
      ensures chrome == old(chrome).(composedSnapshot := chrome.composedSnapshot, composedMotion := chrome.composedMotion)
      ensures bases.frameGeneration == old(bases).frameGeneration
      ensures captured ==> frames.committed != 0 && bases.baseGeneration == bases.frameGeneration
      ensures !captured ==> bases.base == old(bases).base && bases.baseGeneration == old(bases).baseGeneration
      ensures machine.answers.draws == Always(false) ==> !captured
      ensures machine.answers.draws == Always(true) && frames.committed != 0 && frames.pending == 0 ==> captured
      ensures !old(bases).captureRequested ==> !bases.captureRequested
    {
      hide ConservedIn, FencedIn, Accounted, PoolsIn, DisplayedIn, OwnedIn, FinishedIn;
      if frames.committed == 0 || frames.pending != 0 || progress.atomicInFlight {
        return false;
      }
      EveryPageIsRead();
      bases := bases.(captureRequested := true);
      var scratch := DrmScanoutBufferForRender(frames.committed);
      bases := bases.(captureRequested := false);
      if scratch == 0 || bases.preparedGeneration == 0 {
        return false;
      }
      bases := bases.(base := bases.prepared, prepared := bases.base,
                      baseGeneration := bases.frameGeneration, preparedGeneration := 0);
      return true;
    }

    // ---------------------------------------------------------------- one update

    /** The chrome may have been drawn or shown, and is otherwise as it was. */
    twostate predicate ChromeKept()
      reads this
    {
      chrome == old(chrome).(motionPending := chrome.motionPending, composedSnapshot := chrome.composedSnapshot,
                             composedMotion := chrome.composedMotion)
    }

    /** What an update request may change: the pending frame and what was drawn for it. */
    twostate predicate OnlyPending()
      reads this, board
    {
      && frames == old(frames).(pending := frames.pending, pendingTicket := frames.pendingTicket)
      && progress.updateRequested == old(progress).updateRequested
      && progress.updatePending == old(progress).updatePending
      && progress.throttleSource == old(progress).throttleSource
      && DisplayKept()
      && bases == old(bases).(prepared := bases.prepared, preparedGeneration := bases.preparedGeneration)
      && chrome == old(chrome).(composedSnapshot := chrome.composedSnapshot, composedMotion := chrome.composedMotion)
      && buffers.contents == old(buffers).contents
      && ledger == old(ledger).(held := ledger.held, releases := ledger.releases, rendered := ledger.rendered, submitted := ledger.submitted)
      && ledger.held <= old(ledger).held && old(ledger).rendered <= ledger.rendered
      && board.Later()
    }

    /** The pending frame was given up, and answered. */
    twostate predicate GaveUp()
      reads this
    {
      && Idle() && progress.lastDroppedBuffer && old(frames).pending != 0
      && ledger.rendered == old(ledger).rendered + {old(frames).pendingTicket.serial}
    }

    /** A fence was taken from the pending buffer. */
    ghost predicate InHand()
      reads this
    {
      && frames.pending in ledger.work && progress.fence == ledger.work[frames.pending]
      && progress.fenceTaken && Look(buffers.fences, frames.pending) == 0
    }

    /** The pending frame's fence has signalled and is no longer needed: its page may be read. */
    ghost predicate Readable()
      reads this, board
    {
      && FenceUntaken() && !progress.fenceWait
      && Look(buffers.fences, frames.pending) == 0 && Finished(frames.pending)
    }

    predicate NeedsCPURead(buffer: nat) {
      buffer in shm || rotated || nativeChrome
    }

    /** On this path the page is always read by the CPU, or its helper, before it is shown. */
    lemma EveryPageIsRead()
      requires Objects() && Conserved()
      ensures frames.pending != 0 ==> frames.pending in swapchain && NeedsCPURead(frames.pending)
      ensures frames.committed != 0 ==> frames.committed in swapchain
    {
    }

    method TakePendingFence()
      requires Core() && frames.pending != 0 && (Fresh() || FenceHeld())
      modifies this`buffers, this`progress
      ensures Core() && InHand() && buffers.contents == old(buffers).contents
      ensures progress == old(progress).(fence := progress.fence, fenceTaken := true)
      ensures old(FenceHeld()) ==> progress == old(progress)
    {
      hide Objects, Accounted, PoolsIn, DisplayedIn, OwnedIn, CoherentIn, Guards, FinishedIn;
      if !progress.fenceTaken {
        var fence := TakeRenderingFence(frames.pending);
        progress := progress.(fence := fence, fenceTaken := true);
      }
    }

    method ProbePendingFence() returns (result: FenceResult)
      requires Core()
      modifies board
      ensures Core() && board.Later()
      ensures result == FenceResult.Ready <==> board.Open(progress.fence)
      ensures result == Failed <==> !board.Open(progress.fence) && progress.fence in board.failed
      ensures result != TimedOut
    {
      hide ConservedIn, Accounted, PoolsIn, DisplayedIn, OwnedIn, CoherentIn, Guards;
      result := board.Probe(progress.fence);
    }

    method StartFenceWait()
      requires Core() && frames.pending != 0 && frames.pendingTicket.phase == Queued && InHand() && progress.fence != 0
      modifies this`frames, this`progress
      ensures Core() && FenceHeld()
      ensures frames == old(frames).(pendingTicket := old(frames).pendingTicket.(phase := WaitingFence))
      ensures progress == old(progress).(fenceWait := true)
    {
      hide Objects, ConservedIn, FencedIn, Accounted, PoolsIn, DisplayedIn, OwnedIn, CoherentIn;
      var (ticket, valid) := frames.pendingTicket.Advance(WaitingFence);
      assert valid;
      frames := frames.(pendingTicket := ticket);
      progress := progress.(fenceWait := true);
    }

    method BeginPreparing()
      requires Core() && frames.pending != 0 && frames.pendingTicket.phase in {Queued, WaitingFence}
      modifies this`frames, this`progress
      ensures Core() && frames == old(frames).(pendingTicket := old(frames).pendingTicket.(phase := Preparing))
      ensures progress == old(progress).(fence := 0, fenceTaken := false)
    {
      hide Objects, ConservedIn, FencedIn, Accounted, PoolsIn, DisplayedIn, OwnedIn, CoherentIn;
      progress := progress.(fence := 0, fenceTaken := false);
      var (ticket, valid) := frames.pendingTicket.Advance(Preparing);
      assert valid;
      frames := frames.(pendingTicket := ticket);
    }

    /** The fence has not signalled: the frame waits for it, or is given up. */
    method HoldBack(result: FenceResult)
      requires Core() && Unsubmitted() && !progress.fenceWait && !progress.lastDroppedBuffer && InHand() && progress.fence != 0
      requires frames.pending != 0 && (result == Pending || result == Failed)
      requires result == Pending ==> frames.pendingTicket.phase == Queued
      modifies this`frames, this`progress, this`screens, this`bases, this`buffers, this`ledger,
               discardedRenderingFences, board
      ensures Core() && OnlyPending()
      ensures result == Pending ==>
                && Waits() && ledger == old(ledger) && buffers == old(buffers) && board.signalled == old(board.signalled) && board.failed == old(board.failed)
                && frames == old(frames).(pendingTicket := old(frames).pendingTicket.(phase := WaitingFence))
      ensures result == Failed ==> GaveUp()
    {
      hide Objects, ConservedIn, FencedIn, Accounted, PoolsIn, DisplayedIn, OwnedIn, CoherentIn, FinishedIn;
      if result == Pending {
        if !progress.fenceWait {
          StartFenceWait();
        }
        progress := progress.(lastWasSynchronous := false);
        return;
      }
      var _ := AbortPendingCommit();
    }

    /** Ready: the page may be read.  Pending: the frame waits.  Else the frame is given up. */
    method ClearPendingFence() returns (verdict: FenceResult)
      requires Core() && Unsubmitted() && !progress.fenceWait && !progress.lastDroppedBuffer
      requires frames.pending != 0 && (Fresh() || (FenceHeld() && board.Open(progress.fence)))
      modifies this`frames, this`progress, this`screens, this`bases, this`buffers, this`ledger,
               discardedRenderingFences, board
      ensures Core() && OnlyPending()
      ensures verdict == FenceResult.Ready ==>
                && Readable() && Unsubmitted() && !progress.lastDroppedBuffer && ledger == old(ledger)
                && frames == old(frames).(pendingTicket := old(frames).pendingTicket.(phase := Preparing))
      ensures verdict == Pending ==>
                && Waits() && !old(FenceHeld()) && ledger == old(ledger)
                && frames == old(frames).(pendingTicket := old(frames).pendingTicket.(phase := WaitingFence))
      ensures verdict == Failed ==> GaveUp()
      ensures verdict != TimedOut
      ensures old(Finished(frames.pending)) ==> verdict == FenceResult.Ready
      ensures verdict == Pending ==> !Finished(frames.pending) && !Broken(frames.pending)
      ensures verdict == Failed ==> Broken(old(frames).pending)
    {
      hide Objects, ConservedIn, FencedIn, Accounted, PoolsIn, DisplayedIn, OwnedIn, CoherentIn, Waits;
      TakePendingFence();
      verdict := JudgePendingFence();
    }

    /** With the fence in hand. */
    method JudgePendingFence() returns (verdict: FenceResult)
      requires Core() && Unsubmitted() && !progress.fenceWait && !progress.lastDroppedBuffer
      requires frames.pending != 0 && InHand()
      requires frames.pendingTicket.phase == Queued || (frames.pendingTicket.phase == WaitingFence && board.Open(progress.fence))
      modifies this`frames, this`progress, this`screens, this`bases, this`buffers, this`ledger,
               discardedRenderingFences, board
      ensures Core() && OnlyPending()
      ensures verdict == FenceResult.Ready ==>
                && Readable() && Unsubmitted() && !progress.lastDroppedBuffer && ledger == old(ledger)
                && frames == old(frames).(pendingTicket := old(frames).pendingTicket.(phase := Preparing))
      ensures verdict == Pending ==>
                && Waits() && old(frames).pendingTicket.phase == Queued && ledger == old(ledger)
                && frames == old(frames).(pendingTicket := old(frames).pendingTicket.(phase := WaitingFence))
      ensures verdict == Failed ==> GaveUp()
      ensures verdict != TimedOut
      ensures old(Finished(frames.pending)) ==> verdict == FenceResult.Ready
      ensures verdict == Pending ==> !Finished(frames.pending) && !Broken(frames.pending)
      ensures verdict == Failed ==> Broken(old(frames).pending)
    {
      hide Objects, ConservedIn, FencedIn, Accounted, PoolsIn, DisplayedIn, OwnedIn, CoherentIn;
      var canSubmitFence: bool := *;
      EveryPageIsRead();
      if progress.fence != 0 && (NeedsCPURead(frames.pending) || !canSubmitFence) {
        var result := ProbePendingFence();
        if result != FenceResult.Ready {
          HoldBack(result);
          return result;
        }
      }
      BeginPreparing();
      return FenceResult.Ready;
    }

    /** Nothing but the chrome is to be redrawn, and a clean page for it is at hand. */
    ghost predicate RedrawDue()
      reads this
    {
      && frames.pending == 0 && frames.committed != 0 && FenceUntaken() && !progress.fenceWait
      && bases.baseGeneration == bases.frameGeneration
    }

    function Source(): nat
      reads this
    {
      if frames.pending != 0 then frames.pending else frames.committed
    }

    /** The page that is to be shown next, laid out for the present geometry. */
    function SourcePage(): Image
      reads this
    {
      Page(Look(buffers.contents, Source()), geometry.epoch)
    }

    /** Draws the next framebuffer; 0 when that fails, and the update is given up. */
    method PrepareScanout(uiOnlyRedraw: bool) returns (fb: nat)
      requires Core() && Unsubmitted()
      requires if uiOnlyRedraw then RedrawDue() else frames.pending != 0 && frames.pendingTicket.phase == Preparing && Readable()
      modifies this`frames, this`progress, this`screens, this`bases, this`chrome, this`buffers, this`ledger,
               discardedRenderingFences, board
      ensures Core() && OnlyPending()
      ensures fb != 0 ==>
                && screens.pending == fb != screens.committed && Composed(fb) && Drawn(fb, SourcePage())
                && ledger == old(ledger) && buffers == old(buffers) && progress == old(progress)
                && board.signalled == old(board.signalled) && board.failed == old(board.failed)
                && frames == if uiOnlyRedraw then old(frames)
                             else old(frames).(pendingTicket := old(frames).pendingTicket.(phase := FramePhase.Ready))
      ensures fb == 0 && uiOnlyRedraw ==> Idle() && ledger.rendered == old(ledger).rendered
      ensures fb == 0 && !uiOnlyRedraw ==> GaveUp()
      ensures machine.answers.draws.Always? ==> (fb != 0 <==> machine.answers.draws.value)
    {
      hide Objects, ConservedIn, FencedIn, Accounted, PoolsIn, DisplayedIn, OwnedIn;
      EveryPageIsRead();
      if uiOnlyRedraw {
        fb := NextChromeOverlayBuffer();
      } else {
        fb := DrmScanoutBufferForRender(frames.pending);
      }
      if fb == 0 {
        var _ := AbortPendingCommit();
        return;
      }
      if frames.pending != 0 {
        var (ticket, valid) := frames.pendingTicket.Advance(FramePhase.Ready);
        assert valid;
        frames := frames.(pendingTicket := ticket);
      }
      screens := screens.(pending := fb);
    }

    /** A framebuffer is drawn and chosen but not yet submitted. */
    ghost predicate Chosen()
      reads this, board
    {
      && screens.pending != 0 && screens.pending != screens.committed && Composed(screens.pending)
      && ledger.submitted == 0 && !progress.atomicInFlight && FenceUntaken() && !progress.fenceWait
      && (frames.pending != 0 ==> frames.pendingTicket.phase == FramePhase.Ready && Readable())
    }

    method CommitAtomic(fb: nat) returns (ok: bool)
      requires Screened() && ledger.submitted == 0 && fb != 0 && fb != screens.committed
      modifies this`screens, this`progress, this`ledger
      ensures Screened() && (machine.answers.commits.Always? ==> ok == machine.answers.commits.value)
      ensures if ok then
                && screens == old(screens).(owned := screens.owned) && ledger == old(ledger).(submitted := fb)
                && progress == old(progress).(atomicInFlight := !synchronous)
              else
                screens == old(screens) && ledger == old(ledger) && progress == old(progress)
    {
      hide PoolsIn, DisplayedIn;
      ok := Ask(machine.answers.commits);
      if ok {
        screens := screens.(owned := screens.owned + {fb});
        ledger := ledger.(submitted := fb);
        progress := progress.(atomicInFlight := !synchronous);
      }
    }

    method SubmittedTicket()
      requires Core() && frames.pending != 0 && frames.pendingTicket.phase == FramePhase.Ready
      modifies this`frames
      ensures Core() && frames == old(frames).(pendingTicket := old(frames).pendingTicket.(phase := Submitted))
    {
      hide Objects, ConservedIn, FencedIn, Accounted, PoolsIn, DisplayedIn, OwnedIn, CoherentIn;
      var (ticket, valid) := frames.pendingTicket.Advance(Submitted);
      assert valid;
      frames := frames.(pendingTicket := ticket);
    }

    /** Hands the chosen framebuffer to the display. */
    method Submit(fb: nat) returns (ok: bool)
      requires Core() && Chosen() && fb == screens.pending
      modifies this`frames, this`progress, this`screens, this`ledger
      ensures Core() && (machine.answers.commits.Always? ==> ok == machine.answers.commits.value)
      ensures if ok then
                && InFlight() && progress.atomicInFlight == !progress.lastWasSynchronous
                && screens == old(screens).(owned := screens.owned) && ledger == old(ledger).(submitted := fb)
                && progress == old(progress).(atomicInFlight := !synchronous, lastWasSynchronous := synchronous)
                && frames == old(frames).(pendingTicket := frames.pendingTicket)
                && frames.pendingTicket.serial == old(frames).pendingTicket.serial
              else
                && screens == old(screens) && ledger == old(ledger) && frames == old(frames)
                && progress == old(progress).(lastWasSynchronous := false)
    {
      hide Core, FinishedIn, ComposedIn, AttachedIn, Waits, CoherentIn;
      ok := CommitChosen(fb);
      if ok && frames.pending != 0 {
        SubmittedTicket();
      }
    }

    method CommitChosen(fb: nat) returns (ok: bool)
      requires Core() && ledger.submitted == 0 && fb != 0 && fb != screens.committed
      modifies this`screens, this`progress, this`ledger
      ensures Core() && (machine.answers.commits.Always? ==> ok == machine.answers.commits.value)
      ensures if ok then
                && screens == old(screens).(owned := screens.owned) && ledger == old(ledger).(submitted := fb)
                && progress == old(progress).(atomicInFlight := !synchronous, lastWasSynchronous := synchronous)
              else
                screens == old(screens) && ledger == old(ledger) && progress == old(progress).(lastWasSynchronous := false)
    {
      hide Objects, ConservedIn, FencedIn, Accounted, PoolsIn, DisplayedIn, OwnedIn, CoherentIn;
      ok := CommitAtomic(fb);
      progress := progress.(lastWasSynchronous := ok && synchronous);
    }

    /** The request led to a fence wait or a submission, and not to the pending frame being given up. */
    twostate predicate Started(ok: bool)
      reads this, board
    {
      && ok && Launched() && frames.pending == old(frames).pending
      && frames.pendingTicket.serial == old(frames).pendingTicket.serial
      && ledger.rendered == old(ledger).rendered
      && (progress.fenceWait ==> !old(FenceHeld()) && old(frames).pending != 0)
      && (!progress.fenceWait ==> Drawn(screens.pending, SourcePage()) && progress.lastWasSynchronous == synchronous)
    }

    /** Draws and submits; what fails is given up. */
    method DrawAndSubmit(uiOnlyRedraw: bool) returns (ok: bool)
      requires Core() && Unsubmitted()
      requires if uiOnlyRedraw then RedrawDue()
               else frames.pending != 0 && frames.pendingTicket.phase == Preparing && Readable() && !progress.lastDroppedBuffer
      modifies this`frames, this`progress, this`screens, this`bases, this`chrome, this`buffers, this`ledger,
               discardedRenderingFences, board
      ensures Core() && OnlyPending()
      ensures ok && (old(frames).pending == 0 || !progress.lastDroppedBuffer) ==> Started(ok) && !progress.fenceWait
      ensures ok && old(frames).pending != 0 && progress.lastDroppedBuffer ==> GaveUp()
      ensures !ok ==> Idle() && old(frames).pending == 0 && ledger.rendered == old(ledger).rendered
      ensures machine.answers.Works() ==> ok && (old(frames).pending != 0 ==> !progress.lastDroppedBuffer)
      ensures machine.answers.Refuses() ==> if old(frames).pending == 0 then !ok else ok && progress.lastDroppedBuffer
    {
      hide Objects, ConservedIn, FencedIn, Accounted, PoolsIn, DisplayedIn, OwnedIn, CoherentIn, ComposedIn;
      var drmBuffer := PrepareScanout(uiOnlyRedraw);
      if drmBuffer == 0 {
        return !uiOnlyRedraw;
      }
      ok := SubmitOrAbort(drmBuffer);
    }

    lemma TicketsCarry()
      requires Core()
      ensures Carries(frames.pendingTicket, frames.pending)
    {
    }

    lemma ReadableIsRetirable()
      ensures Readable() ==> Retirable(frames.pending, 0)
    {
    }

    method SubmitOrAbort(fb: nat) returns (ok: bool)
      requires Core() && Chosen() && fb == screens.pending && Drawn(fb, SourcePage())
      requires frames.pending != 0 ==> !progress.lastDroppedBuffer
      modifies this`frames, this`progress, this`screens, this`bases, this`buffers, this`ledger,
               discardedRenderingFences, board
      ensures Core() && OnlyPending()
      ensures ok && (old(frames).pending == 0 || !progress.lastDroppedBuffer) ==>
                Launched() && !progress.fenceWait && frames.pending == old(frames).pending
                && frames.pendingTicket.serial == old(frames).pendingTicket.serial && ledger.rendered == old(ledger).rendered
                && Drawn(screens.pending, SourcePage()) && progress.lastWasSynchronous == synchronous
      ensures ok && old(frames).pending != 0 && progress.lastDroppedBuffer ==> GaveUp()
      ensures !ok ==> Idle() && old(frames).pending == 0 && ledger.rendered == old(ledger).rendered
      ensures machine.answers.commits == Always(true) ==> ok && (old(frames).pending != 0 ==> !progress.lastDroppedBuffer)
      ensures machine.answers.commits == Always(false) ==> if old(frames).pending == 0 then !ok else ok && progress.lastDroppedBuffer
    {
      hide Core, FinishedIn, ComposedIn, AttachedIn, Shows;
      ReadableIsRetirable();
      TicketsCarry();
      ok := Submit(fb);
      if !ok {
        ok := AbortPendingCommit();
      }
    }

    /**
     Starts showing the pending frame, or the committed one under new chrome.  Both ways the framebuffer
     shows the page laid out for the present geometry, under the chrome of this moment.
     */
    method RequestUpdate() returns (ok: bool)
      requires Core() && Unsubmitted() && !progress.fenceWait && !bases.captureRequested
      requires frames.pending != 0 ==>
                 !progress.lastDroppedBuffer && (Fresh() || (FenceHeld() && board.Open(progress.fence)))
      requires frames.pending == 0 ==> RedrawDue() && frames.queued == 0 && !progress.throttleSource && !progress.updatePending
      modifies this`frames, this`progress, this`screens, this`bases, this`chrome, this`buffers, this`ledger,
               discardedRenderingFences, board
      ensures Core() && OnlyPending()
      ensures ok && (old(frames).pending == 0 || !progress.lastDroppedBuffer) ==> Started(ok)
      ensures ok && old(frames).pending != 0 && progress.lastDroppedBuffer ==> GaveUp()
      ensures !ok ==> Idle() && old(frames).pending == 0 && ledger.rendered == old(ledger).rendered
      ensures old(frames).pending != 0 && old(frames).pendingTicket.epoch != geometry.epoch ==> ok && GaveUp()
      ensures old(frames).pending != 0 ==>
                Decides(old(frames).pendingTicket.epoch != geometry.epoch, old(Finished(frames.pending)),
                        Finished(old(frames).pending), Broken(old(frames).pending), machine.answers,
                        !progress.lastDroppedBuffer && !progress.fenceWait, progress.fenceWait, progress.lastDroppedBuffer)
      ensures old(frames).pending == 0 ==> (machine.answers.Works() ==> ok) && (machine.answers.Refuses() ==> !ok)
    {
      hide Objects, ConservedIn, FencedIn, Accounted, PoolsIn, OwnedIn, ComposedIn;
      if frames.pending != 0 && frames.pendingTicket.epoch != geometry.epoch {
        var _ := AbortPendingCommit();
        return true;
      }
      var buffer := if frames.pending != 0 then frames.pending else frames.committed;
      var needsScanoutRebuild := buffer != 0 && (rotated || screens.committed != 0);
      var webFrameWaiting := frames.pending != 0 || frames.queued != 0 || progress.throttleSource || progress.updatePending;
      if frames.pending == 0 && webFrameWaiting {
        needsScanoutRebuild := false;
      }
      var uiOnlyRedraw := !webFrameWaiting && needsScanoutRebuild && bases.base.Some?;
      if frames.pending != 0 {
        var verdict := ClearPendingFence();
        if verdict != FenceResult.Ready {
          return true;
        }
      }
      assert frames.pending != 0 || needsScanoutRebuild;
      ok := DrawAndSubmit(uiOnlyRedraw);
    }

    // ---------------------------------------------------------------- presentation

    /** The new page took over from the old one, whose buffer goes back to its producer. */
    method PromotePage()
      requires Objects() && Conserved() && Fenced() && Ticketed() && frames.pending != 0
      requires frames.pendingTicket.phase == Submitted && Finished(frames.pending)
      modifies this`frames, this`ledger
      ensures Objects() && Conserved() && Fenced() && Ticketed()
      ensures frames == old(frames).(pending := 0, pendingTicket := NO_TICKET, committed := old(frames).pending,
                                     committedTicket := frames.committedTicket)
      ensures frames.committedTicket == old(frames).pendingTicket.(phase := Presented, rendered := true)
      ensures ledger == old(ledger).(held := Without(old(ledger).held, old(frames).committed), releases := ledger.releases,
                                     rendered := old(ledger).rendered + {old(frames).pendingTicket.serial})
    {
      hide Objects, Guards, FinishedIn, Waiting, ConservedIn, Accounted;
      ConservedMoves(frames.pending, frames.committed, frames.queued, Quarantine(), ledger.held, ledger.accepts, ledger.releases);
      AccountedMoves(frames.nextSerial, frames.pendingTicket.serial, frames.queuedTicket.serial, ledger.rendered, ledger.replaced);
      var (presented, valid) := frames.pendingTicket.Advance(Presented);
      assert valid;
      frames := frames.(pendingTicket := presented);
      if frames.committed != 0 {
        Released(frames.committed);
      }
      frames := frames.(committed := frames.pending, pending := 0);
      var (completed, first) := frames.pendingTicket.Complete(frames.pendingTicket.serial);
      frames := frames.(pendingTicket := completed);
      if first {
        Rendered(frames.pendingTicket.serial);
      }
      frames := frames.(committedTicket := frames.pendingTicket);
      frames := frames.(pendingTicket := NO_TICKET);
    }

    /** The new framebuffer took over from the old one, which may be drawn in again. */
    method PromoteScanout()
      requires OwnedIn(screens.owned, screens.committed, ledger.submitted)
      requires ledger.submitted == screens.pending != 0
      modifies this`screens, this`ledger
      ensures screens == old(screens).(pending := 0, committed := old(screens).pending, owned := Sole(old(screens).pending))
      ensures ledger == old(ledger).(submitted := 0)
    {
      if screens.committed != 0 && screens.committed != screens.pending {
        screens := screens.(owned := screens.owned - {screens.committed});
      }
      screens := screens.(committed := screens.pending, pending := 0);
      ledger := ledger.(submitted := 0);
    }

    method PromoteBase()
      modifies this`bases
      ensures bases == old(bases).Promoted()
    {
      bases := bases.(frameGeneration := bases.frameGeneration + 1);
      if bases.preparedGeneration != 0 {
        bases := bases.(base := bases.prepared, prepared := bases.base,
                        baseGeneration := bases.frameGeneration, preparedGeneration := 0);
      }
    }

    /** The display now shows what was submitted. */
    method FinishBufferCommit()
      requires Core() && InFlight()
      modifies this`frames, this`screens, this`bases, this`chrome, this`ledger
      ensures Core() && frames.pending == 0 && screens.pending == 0 && ledger.submitted == 0
      ensures screens.committed == old(screens).pending && screens.pixels == old(screens).pixels
      ensures frames.queued == old(frames).queued && frames.queuedTicket == old(frames).queuedTicket
      ensures frames.nextSerial == old(frames).nextSerial
      ensures frames.committed == if old(frames).pending != 0 then old(frames).pending else old(frames).committed
      ensures ledger.rendered == old(ledger).rendered + Sole(old(frames).pendingTicket.serial)
      ensures ledger == old(ledger).(held := ledger.held, releases := ledger.releases, rendered := ledger.rendered, submitted := 0)
      ensures ledger.held == Without(old(ledger).held, if old(frames).pending != 0 then old(frames).committed else 0)
      ensures bases == if old(frames).pending != 0 then old(bases).Promoted() else old(bases)
      ensures chrome == old(chrome).(motionPending := !ChromeIsComposed())
    {
      hide Objects, ConservedIn, FencedIn, Accounted, FinishedIn, PoolsIn, OwnedIn, DisplayedIn, CoherentIn, ComposedIn, Bases.Promoted;
      Presents(screens, bases, frames.pending, frames.committed, buffers.contents, geometry.epoch);
      var committedWebFrame := frames.pending != 0;
      if committedWebFrame {
        PromotePage();
      }
      PromoteScanout();
      chrome := chrome.(motionPending := chrome.composedSnapshot != chrome.snapshot || chrome.composedMotion != chrome.motion);
      if committedWebFrame {
        PromoteBase();
      }
    }

    /** A commit that waited for the hardware is finished at once. */
    method CompleteSynchronousCommitIfNeeded()
      requires Core() && Launched() && progress.updateRequested && !bases.captureRequested
      modifies this`frames, this`screens, this`bases, this`chrome, this`ledger, this`progress
      ensures Core() && !bases.captureRequested && !progress.lastWasSynchronous
      ensures if progress.updateRequested then Launched() else Idle()
      ensures progress == old(progress).(lastWasSynchronous := false, updateRequested := !old(progress).lastWasSynchronous)
      ensures frames.queued == old(frames).queued && frames.nextSerial == old(frames).nextSerial
      ensures !old(progress).lastWasSynchronous ==>
                && frames == old(frames) && screens == old(screens) && bases == old(bases) && chrome == old(chrome)
                && ledger == old(ledger) && progress == old(progress)
      ensures old(progress).lastWasSynchronous ==>
                && screens.committed == old(screens).pending && screens.pixels == old(screens).pixels
                && chrome == old(chrome).(motionPending := chrome.motionPending)
                && frames.committed == (if old(frames).pending != 0 then old(frames).pending else old(frames).committed)
                && ledger.rendered == old(ledger).rendered + Sole(old(frames).pendingTicket.serial)
      ensures NothingNew()
    {
      hide Objects, ConservedIn, FencedIn, Accounted, PoolsIn, DisplayedIn, OwnedIn, CoherentIn, ComposedIn, FinishedIn;
      if !progress.lastWasSynchronous {
        return;
      }
      progress := progress.(lastWasSynchronous := false, updateRequested := false);
      FinishBufferCommit();
    }

    // ---------------------------------------------------------------- the queue

    /** The producer drew in a buffer it may draw in, and hands it over with the fence of that drawing. */
    method Receive(b: nat, fence: nat, content: nat)
      requires Core() && b in swapchain && (b !in ledger.held || b == frames.queued)
      modifies this`buffers, this`ledger
      ensures Core() && AttachedIn(b, ledger.work, buffers.fences)
      ensures ledger == old(ledger).(work := old(ledger).work[b := fence])
      ensures old(Launched()) ==> Launched()
    {
      hide Objects, ConservedIn, Accounted, PoolsIn, OwnedIn, Shows, InPools, Guards, Waiting;
      Elsewhere(b);
      KeepsGuards(discardedRenderingFences.entries, ledger.work, b, fence);
      buffers := buffers.(fences := buffers.fences[b := fence], contents := buffers.contents[b := content]);
      ledger := ledger.(work := ledger.work[b := fence]);
    }

    lemma Elsewhere(b: nat)
      requires Objects() && Conserved() && b in swapchain && (b !in ledger.held || b == frames.queued)
      ensures b != 0 && b != frames.pending && b != frames.committed && b !in Quarantine()
    {
    }

    /** The queued frame makes room for another buffer's; it gets no FrameDone. */
    method DisplaceQueued()
      requires Core() && frames.queued != 0
      modifies this`frames, this`buffers, this`ledger, discardedRenderingFences, board
      ensures Core()
      ensures frames == old(frames).(queued := 0, queuedTicket := NO_TICKET)
      ensures ledger == old(ledger).(held := ledger.held, releases := ledger.releases,
                                     replaced := old(ledger).replaced + {old(frames).queuedTicket.serial})
      ensures Left(old(frames).queued)
      ensures buffers.contents == old(buffers).contents && board.Later()
      ensures forall c :: c != old(frames).queued ==> Look(buffers.fences, c) == Look(old(buffers).fences, c)
    {
      hide Accounted, PoolsIn, OwnedIn, DisplayedIn, CoherentIn;
      AccountedMoves(frames.nextSerial, frames.pendingTicket.serial, frames.queuedTicket.serial, ledger.rendered, ledger.replaced);
      DiscardQueued();
      ledger := ledger.(replaced := ledger.replaced + {frames.queuedTicket.serial});
      frames := frames.(queuedTicket := NO_TICKET);
    }

    method DiscardQueued()
      requires Objects() && Conserved() && Fenced() && frames.queued != 0
      modifies this`frames, this`buffers, this`ledger, discardedRenderingFences, board
      ensures Objects() && Conserved() && Fenced() && frames == old(frames).(queued := 0)
      ensures ledger == old(ledger).(held := ledger.held, releases := ledger.releases) && Left(old(frames).queued)
      ensures buffers.contents == old(buffers).contents && board.Later()
      ensures forall c :: c != old(frames).queued ==> Look(buffers.fences, c) == Look(old(buffers).fences, c)
    {
      hide Waiting, Distinct, Guards;
      RetireDiscardedBuffer(frames.queued, 0);
      frames := frames.(queued := 0);
    }

    /** A buffer enters the empty queue, or is handed over once more while it waits there. */
    method Enqueue(b: nat)
      requires Core() && b in swapchain && AttachedIn(b, ledger.work, buffers.fences)
      requires if frames.queued == 0 then b !in ledger.held else b == frames.queued
      modifies this`frames, this`ledger
      ensures Core()
      ensures frames == old(frames).(queued := b, queuedTicket := frames.queuedTicket, nextSerial := frames.nextSerial)
      ensures frames.nextSerial == old(frames).nextSerial + if old(frames).queued == 0 then 1 else 0
      ensures frames.queuedTicket == if old(frames).queued == 0 then Accept(frames.nextSerial, b, geometry.epoch) else old(frames).queuedTicket
      ensures ledger == old(ledger).(held := old(ledger).held + {b}, accepts := ledger.accepts)
    {
      hide ConservedIn, AttachedIn, FinishedIn, Guards, PoolsIn, OwnedIn, DisplayedIn, CoherentIn, Accounted;
      if frames.queued == 0 {
        ConservedEnters(b, frames.pending, frames.committed, 0, Quarantine(), ledger.held, ledger.accepts, ledger.releases);
        AccountedMoves(frames.nextSerial, frames.pendingTicket.serial, 0, ledger.rendered, ledger.replaced);
        ledger := ledger.(held := ledger.held + {b}, accepts := ledger.accepts[b := Look(ledger.accepts, b) + 1]);
        frames := frames.(queued := b, nextSerial := frames.nextSerial + 1,
                          queuedTicket := Accept(frames.nextSerial + 1, b, geometry.epoch));
      } else {
        QueuedIsHeld();
        assert ledger.held + {b} == ledger.held;
      }
    }

    lemma QueuedIsHeld()
      requires Conserved()
      ensures frames.queued != 0 ==> frames.queued in ledger.held && frames.queued != frames.pending
    {
    }

    /** The newest frame waits in the queue; one that waited there in another buffer is dropped. */
    method QueueBuffer(b: nat)
      requires Core() && b in swapchain && AttachedIn(b, ledger.work, buffers.fences)
      requires b !in ledger.held || b == frames.queued
      modifies this`frames, this`progress, this`buffers, this`ledger, discardedRenderingFences, board
      ensures Core()
      ensures frames == old(frames).(queued := b, queuedTicket := frames.queuedTicket, nextSerial := frames.nextSerial)
      ensures progress == old(progress).(updatePending := true)
      ensures var displaced := old(frames).queued != 0 && old(frames).queued != b;
        && ledger.replaced == old(ledger).replaced + (if displaced then {old(frames).queuedTicket.serial} else {})
        && frames.nextSerial == old(frames).nextSerial + (if displaced || old(frames).queued == 0 then 1 else 0)
        && frames.queuedTicket == if displaced || old(frames).queued == 0 then Accept(frames.nextSerial, b, geometry.epoch)
                                  else old(frames).queuedTicket
      ensures ledger.rendered == old(ledger).rendered && ledger.work == old(ledger).work && b in ledger.held
      ensures ledger.held <= old(ledger).held + {b}
      ensures old(Launched()) ==> Launched()
      ensures old(Idle()) ==> Idle()
    {
      hide Objects, ConservedIn, FencedIn, Accounted, PoolsIn, OwnedIn, DisplayedIn, CoherentIn, ComposedIn;
      Elsewhere(b);
      QueuedIsHeld();
      if frames.queued != 0 && frames.queued != b {
        DisplaceQueued();
      }
      Enqueue(b);
      progress := progress.(updatePending := true);
    }

    /** The queued frame becomes the pending one. */
    method TakeQueued()
      requires Core() && Idle() && frames.queued != 0
      modifies this`frames, this`progress
      ensures Core() && Fresh() && Unsubmitted() && !progress.fenceWait && !progress.lastDroppedBuffer
      ensures frames == old(frames).(queued := 0, queuedTicket := NO_TICKET, pending := old(frames).queued,
                                     pendingTicket := old(frames).queuedTicket)
      ensures progress == old(progress).(updatePending := false, lastDroppedBuffer := false)
    {
      hide Objects, ConservedIn, FinishedIn, AttachedIn, Guards, Accounted, PoolsIn, OwnedIn, DisplayedIn, CoherentIn;
      ConservedMoves(0, frames.committed, frames.queued, Quarantine(), ledger.held, ledger.accepts, ledger.releases);
      AccountedMoves(frames.nextSerial, 0, frames.queuedTicket.serial, ledger.rendered, ledger.replaced);
      progress := progress.(updatePending := false, lastDroppedBuffer := false);
      frames := frames.(pending := frames.queued, queued := 0);
      frames := frames.(pendingTicket := frames.queuedTicket, queuedTicket := NO_TICKET);
    }

    /** No frame was accepted or displaced; answers only grow, what is held only shrinks. */
    twostate predicate NothingNew()
      reads this
    {
      && frames.nextSerial == old(frames).nextSerial
      && ledger.replaced == old(ledger).replaced && ledger.accepts == old(ledger).accepts && ledger.work == old(ledger).work
      && old(ledger).rendered <= ledger.rendered && ledger.held <= old(ledger).held
      && buffers.contents == old(buffers).contents
    }

    /** Between the parts of an event. */
    ghost predicate Quiet()
      reads this, board, discardedRenderingFences
    {
      && Core() && !progress.lastWasSynchronous && !bases.captureRequested
      && (if progress.updateRequested then Launched() else Idle())
    }

    /** What the display showed before it still shows. */
    predicate Remains(page: nat, fb: nat)
      reads this
    {
      frames.committed == page && screens.committed == fb
    }

    /** A page frame is what the display shows, or is about to show, under the chrome of this moment. */
    predicate Showing(b: nat, serial: nat, page: nat, fb: nat)
      reads this
    {
      && ChromeIsComposed() && HoleIn(if synchronous then screens.committed else screens.pending) == chrome.video
      && !progress.fenceWait && if synchronous then
           !progress.updateRequested && frames.committed == b && frames.pending == 0 && serial in ledger.rendered
         else
           && progress.updateRequested && progress.atomicInFlight
           && frames.pending == b && frames.pendingTicket.serial == serial && Remains(page, fb)
    }

    /** A page frame waits for its fence. */
    predicate HeldBack(b: nat, serial: nat, page: nat, fb: nat)
      reads this
    {
      && progress.updateRequested && progress.fenceWait
      && frames.pending == b && frames.pendingTicket.serial == serial && Remains(page, fb)
    }

    /** A page frame was answered and not shown. */
    predicate GivenUp(serial: nat, page: nat, fb: nat)
      reads this
    {
      && !progress.updateRequested && !progress.fenceWait && frames.pending == 0 && serial in ledger.rendered
      && Remains(page, fb)
    }

    /** Frame b had its turn, while page was displayed in framebuffer fb. */
    ghost predicate HadItsTurn(b: nat, ticket: FrameTicket, before: bool, page: nat, fb: nat)
      reads this, board, machine
    {
      Decides(ticket.epoch != geometry.epoch, before, Finished(b), Broken(b), machine.answers,
              Showing(b, ticket.serial, page, fb), HeldBack(b, ticket.serial, page, fb), GivenUp(ticket.serial, page, fb))
    }

    /** The pending frame was just accepted; it starts its way to the screen, or is given up and answered. */
    method ShowPending()
      requires Core() && Fresh() && Unsubmitted() && !progress.fenceWait && !progress.lastDroppedBuffer
      requires !progress.updateRequested && !bases.captureRequested
      modifies this`frames, this`progress, this`screens, this`bases, this`chrome, this`buffers, this`ledger,
               discardedRenderingFences, board
      ensures Quiet() && !progress.lastDroppedBuffer
      ensures progress.updatePending == old(progress).updatePending && progress.throttleSource == old(progress).throttleSource
      ensures frames.queued == old(frames).queued && frames.nextSerial == old(frames).nextSerial
      ensures if progress.updateRequested then
                && frames.pending == old(frames).pending && frames.pendingTicket.serial == old(frames).pendingTicket.serial
                && ledger.rendered == old(ledger).rendered
              else ledger.rendered == old(ledger).rendered + {old(frames).pendingTicket.serial}
      ensures NothingNew()
      ensures ChromeKept()
      ensures if screens.committed == old(screens).committed then DisplayKept() else !HoleIsStale()
      ensures HadItsTurn(old(frames).pending, old(frames).pendingTicket, old(Finished(frames.pending)),
                         old(frames).committed, old(screens).committed)
    {
      hide Objects, ConservedIn, FencedIn, Accounted, PoolsIn, OwnedIn, DisplayedIn, CoherentIn, ComposedIn, FinishedIn;
      PendingIsNew();
      LaunchPending();
      if progress.updateRequested {
        CompleteSynchronousCommitIfNeeded();
      }
    }

    lemma PendingIsNew()
      requires Core()
      ensures frames.pending != 0 ==> frames.pending != frames.committed
    {
    }

    method LaunchPending()
      requires Core() && Fresh() && Unsubmitted() && !progress.fenceWait && !progress.lastDroppedBuffer
      requires !progress.updateRequested && !bases.captureRequested
      modifies this`frames, this`progress, this`screens, this`bases, this`chrome, this`buffers, this`ledger,
               discardedRenderingFences, board
      ensures Core() && !bases.captureRequested && !progress.lastDroppedBuffer && NothingNew()
      ensures if progress.updateRequested then Launched() else Idle()
      ensures progress.updatePending == old(progress).updatePending && progress.throttleSource == old(progress).throttleSource
      ensures frames.queued == old(frames).queued && frames.nextSerial == old(frames).nextSerial
      ensures frames.committed == old(frames).committed && DisplayKept()
      ensures if progress.updateRequested then
                && frames.pending == old(frames).pending && frames.pendingTicket.serial == old(frames).pendingTicket.serial
                && ledger.rendered == old(ledger).rendered
              else ledger.rendered == old(ledger).rendered + {old(frames).pendingTicket.serial}
      ensures !progress.updateRequested ==> !progress.lastWasSynchronous
      ensures progress.updateRequested && !progress.fenceWait ==>
                progress.lastWasSynchronous == synchronous && ChromeIsComposed() && HoleIn(screens.pending) == chrome.video
      ensures Decides(old(frames).pendingTicket.epoch != geometry.epoch, old(Finished(frames.pending)),
                      Finished(old(frames).pending), Broken(old(frames).pending), machine.answers,
                      progress.updateRequested && !progress.fenceWait, progress.fenceWait, !progress.updateRequested)
      ensures ChromeKept()
    {
      hide Objects, ConservedIn, FencedIn, Accounted, PoolsIn, OwnedIn, DisplayedIn, CoherentIn, ComposedIn;
      var ok := RequestUpdate();
      if ok {
        if progress.lastDroppedBuffer {
          progress := progress.(lastDroppedBuffer := false);
          return;
        }
        progress := progress.(updateRequested := true);
      }
    }

    /** The frame that waits, if any, has its turn, unless an update is under way. */
    method CommitQueuedBuffer()
      requires Quiet()
      modifies this`frames, this`progress, this`screens, this`bases, this`chrome, this`buffers, this`ledger,
               discardedRenderingFences, board
      ensures Quiet()
      ensures old(progress).updateRequested ==>
                frames == old(frames) && progress == old(progress) && ledger == old(ledger)
      ensures !old(progress).updateRequested ==> frames.queued == 0
      ensures !old(progress).updateRequested && old(frames).queued != 0 ==>
                !progress.updatePending
                && HadItsTurn(old(frames).queued, old(frames).queuedTicket, old(Finished(frames.queued)),
                              old(frames).committed, old(screens).committed)
      ensures !old(progress).updateRequested && old(frames).queued == 0 ==>
                progress == old(progress) && chrome == old(chrome) && screens == old(screens)
                && frames == old(frames) && ledger == old(ledger)
      ensures progress.throttleSource == old(progress).throttleSource
      ensures NothingNew()
      ensures chrome.video == old(chrome).video
      ensures if screens.committed == old(screens).committed then DisplayKept() else !HoleIsStale()
    {
      hide Objects, ConservedIn, FencedIn, Accounted, PoolsIn, DisplayedIn, OwnedIn, CoherentIn, ComposedIn, FinishedIn,
           AttachedIn, HadItsTurn;
      if frames.queued == 0 {
        return;
      }
      if progress.updateRequested {
        return;
      }
      TakeQueued();
      ShowPending();
    }

    method ScheduleQueuedCommit()
      modifies this`progress
      ensures progress == old(progress).(throttleSource := true)
    {
      if progress.throttleSource {
        return;
      }
      progress := progress.(throttleSource := true);
    }

    // ---------------------------------------------------------------- main-loop events

    method AcceptPending(b: nat)
      requires Core() && Idle() && frames.queued == 0
      requires b in swapchain && b !in ledger.held && AttachedIn(b, ledger.work, buffers.fences)
      modifies this`frames, this`progress, this`ledger
      ensures Core() && Fresh() && Unsubmitted() && !progress.fenceWait && !progress.lastDroppedBuffer
      ensures frames == old(frames).(pending := b, pendingTicket := frames.pendingTicket, nextSerial := old(frames).nextSerial + 1)
      ensures frames.pendingTicket == Accept(frames.nextSerial, b, geometry.epoch)
      ensures progress == old(progress).(lastDroppedBuffer := false)
      ensures ledger == old(ledger).(held := old(ledger).held + {b}, accepts := ledger.accepts)
    {
      hide ConservedIn, AttachedIn, FinishedIn, Guards, PoolsIn, OwnedIn, DisplayedIn, CoherentIn, Accounted;
      ConservedEnters(b, 0, frames.committed, 0, Quarantine(), ledger.held, ledger.accepts, ledger.releases);
      AccountedMoves(frames.nextSerial, 0, 0, ledger.rendered, ledger.replaced);
      ledger := ledger.(held := ledger.held + {b}, accepts := ledger.accepts[b := Look(ledger.accepts, b) + 1]);
      frames := frames.(pending := b, nextSerial := frames.nextSerial + 1,
                        pendingTicket := Accept(frames.nextSerial + 1, b, geometry.epoch));
      progress := progress.(lastDroppedBuffer := false);
    }

    /**
     The producer hands over a page it drew in one of its buffers.  A frame of a usable format gets a
     serial of its own, unless the same buffer still waits in the queue.
     */
    method RenderBuffer(b: nat, fence: nat, content: nat, supported: bool, width: int, height: int, inset: nat)
      returns (accepted: bool)
      requires Valid() && b in swapchain && (b !in ledger.held || b == frames.queued)
      modifies this`frames, this`geometry, this`progress, this`screens, this`bases, this`chrome, this`buffers, this`ledger,
               discardedRenderingFences, board
      ensures Valid() && accepted == supported
      ensures accepted ==> frames.nextSerial == old(frames).nextSerial + if b == old(frames).queued then 0 else 1
      ensures accepted && b != old(frames).queued ==>
                || (frames.queued == b && frames.queuedTicket.serial == frames.nextSerial)
                || (frames.pending == b && frames.pendingTicket.serial == frames.nextSerial)
                || frames.nextSerial in ledger.rendered
      ensures accepted && (old(progress).updateRequested || old(progress).throttleSource) ==> frames.queued == b
      ensures ledger.replaced == old(ledger).replaced
                + if accepted && old(frames).queued !in {0, b} then {old(frames).queuedTicket.serial} else {}
      ensures accepted && b == old(frames).queued ==> frames.queued == b && frames.queuedTicket == old(frames).queuedTicket
      ensures accepted && frames.queued == b != old(frames).queued ==>
                frames.queuedTicket == Accept(frames.nextSerial, b, geometry.epoch)
      ensures ledger.held <= old(ledger).held + {b}
      ensures accepted ==> ledger.work == old(ledger).work[b := fence]
      ensures ChromeKept()
      ensures accepted ==> geometry == old(geometry).Relaid(width, height, inset)
      ensures accepted && old(progress).updateRequested ==>
                && frames == old(frames).(queued := b, queuedTicket := frames.queuedTicket, nextSerial := frames.nextSerial)
                && progress == old(progress).(updatePending := true)
      ensures accepted ==> (old(DueAtOnce()) ==> frames.queued == 0) && (old(DueLater()) ==> frames.queued == b)
      ensures accepted && frames.queued == 0 ==>
                !progress.throttleSource
                && HadItsTurn(b, Accept(frames.nextSerial, b, geometry.epoch), old(board.Open(fence)),
                              old(frames).committed, old(screens).committed)
      ensures accepted && frames.queued != 0 ==> frames.queued == b && (old(progress).updateRequested || progress.throttleSource)
      ensures !accepted ==> frames == old(frames) && ledger == old(ledger) && progress == old(progress) && screens == old(screens)
    {
      hide Core, Awake, Launched, Idle, FinishedIn, AttachedIn, HadItsTurn;
      if !supported {
        return false;
      }
      TakeIn(b, fence, content, width, height, inset);
      Place(b);
      return true;
    }

    /** The drawing, its fence and the layout it was made for. */
    method TakeIn(b: nat, fence: nat, content: nat, width: int, height: int, inset: nat)
      requires Valid() && b in swapchain && (b !in ledger.held || b == frames.queued)
      modifies this`geometry, this`bases, this`buffers, this`ledger
      ensures Valid() && b != 0 && AttachedIn(b, ledger.work, buffers.fences) && (Finished(b) <==> board.Open(fence))
      ensures ledger == old(ledger).(work := old(ledger).work[b := fence])
      ensures geometry == old(geometry).Relaid(width, height, inset)
    {
      hide Objects, ConservedIn, FencedIn, Accounted, PoolsIn, DisplayedIn, OwnedIn, CoherentIn, ComposedIn, FinishedIn, AttachedIn;
      ElsewhereInCore(b);
      Receive(b, fence, content);
      FinishedWhenOpen(b);
      var _ := RefreshContentGeometry(width, height, inset);
    }

    /** A frame handed over now has its turn at once. */
    predicate DueAtOnce()
      reads this, machine
    {
      && !progress.updateRequested && !progress.throttleSource
      && (frames.committed == 0 || machine.answers.early == Always(false))
    }

    /** A frame handed over now has to wait for a page flip or the throttle timer. */
    predicate DueLater()
      reads this, machine
    {
      progress.updateRequested || progress.throttleSource || (frames.committed != 0 && machine.answers.early == Always(true))
    }

    /** The frame is shown, or waits for its turn. */
    method Place(b: nat)
      requires Valid() && b in swapchain && (b !in ledger.held || b == frames.queued) && b != 0
      requires AttachedIn(b, ledger.work, buffers.fences)
      modifies this`frames, this`progress, this`screens, this`bases, this`chrome, this`buffers, this`ledger,
               discardedRenderingFences, board
      ensures Valid()
      ensures frames.nextSerial == old(frames).nextSerial + if b == old(frames).queued then 0 else 1
      ensures b != old(frames).queued ==>
                || (frames.queued == b && frames.queuedTicket.serial == frames.nextSerial)
                || (frames.pending == b && frames.pendingTicket.serial == frames.nextSerial)
                || frames.nextSerial in ledger.rendered
      ensures old(progress).updateRequested || old(progress).throttleSource ==> frames.queued == b
      ensures ledger.replaced == old(ledger).replaced
                + if old(frames).queued !in {0, b} then {old(frames).queuedTicket.serial} else {}
      ensures b == old(frames).queued ==> frames.queued == b && frames.queuedTicket == old(frames).queuedTicket
      ensures frames.queued == b != old(frames).queued ==> frames.queuedTicket == Accept(frames.nextSerial, b, geometry.epoch)
      ensures ledger.held <= old(ledger).held + {b} && ledger.work == old(ledger).work
      ensures ChromeKept()
      ensures old(progress).updateRequested ==>
                && frames == old(frames).(queued := b, queuedTicket := frames.queuedTicket, nextSerial := frames.nextSerial)
                && progress == old(progress).(updatePending := true)
      ensures (old(DueAtOnce()) ==> frames.queued == 0) && (old(DueLater()) ==> frames.queued == b)
      ensures frames.queued == 0 ==>
                !progress.throttleSource
                && HadItsTurn(b, Accept(frames.nextSerial, b, geometry.epoch), old(Finished(b)),
                              old(frames).committed, old(screens).committed)
      ensures frames.queued != 0 ==> frames.queued == b && (old(progress).updateRequested || progress.throttleSource)
    {
      hide Objects, ConservedIn, FencedIn, Accounted, PoolsIn, DisplayedIn, OwnedIn, CoherentIn, ComposedIn, FinishedIn,
           AttachedIn, HadItsTurn;
      if progress.updateRequested {
        QueueBuffer(b);
        return;
      }
      var delayed := Ask(machine.answers.early);
      if progress.throttleSource || (frames.committed != 0 && delayed) {
        QueueBuffer(b);
        ScheduleQueuedCommit();
        return;
      }
      ShowAtOnce(b);
    }

    /** With nothing under way the frame needs no queue. */
    method ShowAtOnce(b: nat)
      requires Core() && Idle() && frames.queued == 0 && !progress.updateRequested && !bases.captureRequested
      requires b in swapchain && b !in ledger.held && AttachedIn(b, ledger.work, buffers.fences)
      modifies this`frames, this`progress, this`screens, this`bases, this`chrome, this`buffers, this`ledger,
               discardedRenderingFences, board
      ensures Quiet() && !progress.lastDroppedBuffer && frames.queued == 0
      ensures progress.updatePending == old(progress).updatePending && progress.throttleSource == old(progress).throttleSource
      ensures ledger.held <= old(ledger).held + {b} && ledger.work == old(ledger).work
      ensures ChromeKept()
      ensures frames.nextSerial == old(frames).nextSerial + 1 && ledger.replaced == old(ledger).replaced
      ensures (frames.pending == b && frames.pendingTicket.serial == frames.nextSerial) || frames.nextSerial in ledger.rendered
      ensures HadItsTurn(b, Accept(frames.nextSerial, b, geometry.epoch), old(Finished(b)),
                         old(frames).committed, old(screens).committed)
    {
      hide Objects, ConservedIn, FencedIn, Accounted, PoolsIn, DisplayedIn, OwnedIn, CoherentIn, ComposedIn, FinishedIn,
           AttachedIn, HadItsTurn;
      AcceptPending(b);
      ShowPending();
    }

    lemma FinishedWhenOpen(b: nat)
      requires b in ledger.work
      ensures Finished(b) <==> board.Open(ledger.work[b])
    {
    }

    lemma ElsewhereInCore(b: nat)
      requires Core() && b in swapchain && (b !in ledger.held || b == frames.queued)
      ensures b != 0
    {
      Elsewhere(b);
    }

    /** The pending frame's fence became readable, failed, or timed out. */
    method FenceWaitEvent(timedOut: bool)
      requires Valid() && progress.fenceWait
      modifies this`frames, this`progress, this`screens, this`bases, this`chrome, this`buffers, this`ledger,
               discardedRenderingFences, board
      ensures Valid()
      ensures NothingNew()
      ensures progress.fenceWait ==> frames == old(frames) && ledger == old(ledger) && progress == old(progress)
      ensures !progress.fenceWait && !progress.updateRequested ==>
                ledger.rendered == old(ledger).rendered + {old(frames).pendingTicket.serial}
      ensures !timedOut ==> (progress.fenceWait <==> !Finished(old(frames).pending) && !Broken(old(frames).pending))
      ensures timedOut ==> !progress.fenceWait
      ensures (!timedOut && !progress.fenceWait) || old(Finished(frames.pending)) ==>
                HadItsTurn(old(frames).pending, old(frames).pendingTicket, old(Finished(frames.pending)),
                           old(frames).committed, old(screens).committed)
      ensures timedOut && !Finished(old(frames).pending) ==>
                GivenUp(old(frames).pendingTicket.serial, old(frames).committed, old(screens).committed)
    {
      hide Objects, ConservedIn, FencedIn, Accounted, PoolsIn, DisplayedIn, OwnedIn, CoherentIn, ComposedIn, AttachedIn;
      PendingIsNew();
      var result := ProbePendingFence();
      if result == Pending {
        if !timedOut {
          return;
        }
        result := TimedOut;
      }
      progress := progress.(fenceWait := false);
      RenderingFenceFinished(result);
    }

    method RenderingFenceFinished(result: FenceResult)
      requires Core() && FenceHeld() && !progress.fenceWait && Unsubmitted() && !progress.lastDroppedBuffer
      requires progress.updateRequested && !bases.captureRequested && (frames.queued != 0 <==> progress.updatePending)
      requires result == FenceResult.Ready ==> board.Open(progress.fence)
      modifies this`frames, this`progress, this`screens, this`bases, this`chrome, this`buffers, this`ledger,
               discardedRenderingFences, board
      ensures Valid() && !progress.fenceWait && NothingNew() && board.Later()
      ensures !progress.updateRequested ==>
                ledger.rendered == old(ledger).rendered + {old(frames).pendingTicket.serial}
      ensures result == FenceResult.Ready ==>
                HadItsTurn(old(frames).pending, old(frames).pendingTicket, true, old(frames).committed, old(screens).committed)
      ensures result != FenceResult.Ready ==>
                GivenUp(old(frames).pendingTicket.serial, old(frames).committed, old(screens).committed)
    {
      hide Objects, ConservedIn, FencedIn, Accounted, PoolsIn, DisplayedIn, OwnedIn, CoherentIn, ComposedIn, FinishedIn, Drawn,
           Decides;
      progress := progress.(updateRequested := false);
      if result != FenceResult.Ready {
        var _ := AbortPendingCommit();
      } else {
        ResumeUpdate();
      }
      if !progress.updateRequested && frames.queued != 0 {
        ScheduleQueuedCommit();
      }
    }

    /** The pending frame's page may be read at last. */
    method ResumeUpdate()
      requires Core() && FenceHeld() && !progress.fenceWait && Unsubmitted() && !progress.lastDroppedBuffer
      requires !progress.updateRequested && !bases.captureRequested && board.Open(progress.fence)
      modifies this`frames, this`progress, this`screens, this`bases, this`chrome, this`buffers, this`ledger,
               discardedRenderingFences, board
      ensures Quiet() && !progress.fenceWait && NothingNew() && board.Later()
      ensures frames.queued == old(frames).queued && progress.updatePending == old(progress).updatePending
      ensures !progress.updateRequested ==>
                ledger.rendered == old(ledger).rendered + {old(frames).pendingTicket.serial}
      ensures HadItsTurn(old(frames).pending, old(frames).pendingTicket, true, old(frames).committed, old(screens).committed)
    {
      hide Objects, ConservedIn, FencedIn, Accounted, PoolsIn, DisplayedIn, OwnedIn, CoherentIn, ComposedIn;
      PendingIsNew();
      var ok := RequestUpdate();
      if ok && !progress.lastDroppedBuffer {
        progress := progress.(updateRequested := true);
        CompleteSynchronousCommitIfNeeded();
      }
    }

    /** The throttle timer fires. */
    method ThrottleTimer()
      requires Valid() && progress.throttleSource
      modifies this`frames, this`progress, this`screens, this`bases, this`chrome, this`buffers, this`ledger,
               discardedRenderingFences, board
      ensures Valid()
      ensures NothingNew()
      ensures machine.answers.early.Always? ==> (progress.throttleSource <==> machine.answers.early.value)
      ensures progress.throttleSource || old(progress).updateRequested || old(frames).queued == 0 ==>
                frames == old(frames) && ledger == old(ledger)
      ensures !progress.throttleSource && !old(progress).updateRequested && old(frames).queued != 0 ==>
                frames.queued == 0
                && HadItsTurn(old(frames).queued, old(frames).queuedTicket, old(Finished(frames.queued)),
                              old(frames).committed, old(screens).committed)
    {
      hide Objects, ConservedIn, FencedIn, Accounted, PoolsIn, DisplayedIn, OwnedIn, CoherentIn, ComposedIn, FinishedIn,
           AttachedIn, HadItsTurn;
      progress := progress.(throttleSource := false);
      var delayed := Ask(machine.answers.early);
      if delayed {
        ScheduleQueuedCommit();
        return;
      }
      CommitQueuedBuffer();
    }

    /** The display took over the submitted framebuffer. */
    method PageFlip()
      requires Valid() && progress.atomicInFlight
      modifies this`frames, this`progress, this`screens, this`bases, this`chrome, this`buffers, this`ledger,
               discardedRenderingFences, board
      ensures Valid()
      ensures NothingNew()
      ensures machine.answers.video.Always? ==>
                chrome.video == if machine.answers.video.value.Some? then machine.answers.video.value.value else old(chrome).video
      ensures if screens.committed == old(screens).pending then HoleIsStale() <==> old(HoleIn(screens.pending)) != chrome.video
              else !HoleIsStale()
      ensures old(frames).pending != 0 ==> old(frames).pendingTicket.serial in ledger.rendered
      ensures old(frames).pending != 0 && old(frames).committed != 0 ==> old(frames).committed !in ledger.held
      ensures old(frames).queued == 0 ==>
                && !progress.updateRequested && screens.committed == old(screens).pending
                && screens.pixels == old(screens).pixels
                && (machine.answers.video == Always(None) ==> chrome == old(chrome).(motionPending := !ChromeIsComposed()))
                && progress.throttleSource == old(progress).throttleSource
                && frames.committed == if old(frames).pending != 0 then old(frames).pending else old(frames).committed
      ensures machine.answers.early.Always? && old(frames).queued != 0 ==>
                (frames.queued != 0 <==> machine.answers.early.value)
      ensures frames.queued != 0 ==>
                frames.queued == old(frames).queued && frames.queuedTicket == old(frames).queuedTicket && progress.throttleSource
      ensures old(frames).queued != 0 == frames.queued ==>
                HadItsTurn(old(frames).queued, old(frames).queuedTicket, old(Finished(frames.queued)),
                           if old(frames).pending != 0 then old(frames).pending else old(frames).committed,
                           old(screens).pending)
    {
      hide Core, Launched, Waits, InFlight, FinishedIn, AttachedIn, HadItsTurn;
      var updatePending := CompleteFlip();
      DrainVideo();
      if updatePending {
        ResumeQueue();
      }
    }

    /** The flags are taken, and what was submitted becomes what is displayed. */
    method CompleteFlip() returns (updatePending: bool)
      requires Valid() && progress.atomicInFlight
      modifies this`frames, this`progress, this`screens, this`bases, this`chrome, this`ledger
      ensures Quiet() && NothingNew()
      ensures progress == old(progress).(atomicInFlight := false, updateRequested := false, updatePending := false)
      ensures updatePending == old(progress).updatePending == (frames.queued != 0)
      ensures frames.queued == old(frames).queued && frames.queuedTicket == old(frames).queuedTicket
      ensures screens.committed == old(screens).pending != 0 && screens.pixels == old(screens).pixels
      ensures chrome == old(chrome).(motionPending := !ChromeIsComposed())
      ensures frames.committed == if old(frames).pending != 0 then old(frames).pending else old(frames).committed
      ensures old(frames).pending != 0 ==> old(frames).pendingTicket.serial in ledger.rendered
      ensures old(frames).pending != 0 && old(frames).committed != 0 ==> old(frames).committed !in ledger.held
    {
      hide Objects, ConservedIn, FencedIn, Accounted, PoolsIn, DisplayedIn, OwnedIn, CoherentIn, ComposedIn, FinishedIn, AttachedIn;
      SubmittedIsThere();
      var flags := progress;
      progress := progress.(atomicInFlight := false, updateRequested := false, updatePending := false);
      if flags.updateRequested {
        FinishBufferCommit();
      }
      updatePending := flags.updatePending;
    }

    /** The frame that waits has its turn, now or when the timer says so. */
    method ResumeQueue()
      requires Quiet() && !progress.updateRequested && !progress.updatePending && frames.queued != 0
      modifies this`frames, this`progress, this`screens, this`bases, this`chrome, this`buffers, this`ledger,
               discardedRenderingFences, board
      ensures Valid() && NothingNew() && chrome.video == old(chrome).video
      ensures if screens.committed == old(screens).committed then DisplayKept() else !HoleIsStale()
      ensures machine.answers.early.Always? ==> (frames.queued != 0 <==> machine.answers.early.value)
      ensures frames.queued != 0 ==> frames == old(frames) && ledger == old(ledger) && progress.throttleSource
      ensures frames.queued == 0 ==>
                HadItsTurn(old(frames).queued, old(frames).queuedTicket, old(Finished(frames.queued)),
                           old(frames).committed, old(screens).committed)
    {
      hide Objects, ConservedIn, FencedIn, Accounted, PoolsIn, DisplayedIn, OwnedIn, CoherentIn, ComposedIn, FinishedIn,
           AttachedIn, HadItsTurn;
      var delayed := Ask(machine.answers.early);
      if delayed {
        progress := progress.(updatePending := true);
        ScheduleQueuedCommit();
      } else {
        CommitQueuedBuffer();
      }
    }

    /** videoOverlayDrainPending or videoOverlayRecommit, as far as the page sees it: the video may be elsewhere afterwards. */
    method DrainVideo()
      requires Quiet()
      modifies this`chrome
      ensures Quiet() && (old(Valid()) ==> Valid())
      ensures chrome == old(chrome) || chrome == old(chrome).(video := chrome.video, motionPending := true)
      ensures machine.answers.video.Always? ==>
                chrome == if machine.answers.video.value.None? then old(chrome)
                          else old(chrome).(video := machine.answers.video.value.value, motionPending := true)
    {
      hide Objects, ConservedIn, FencedIn, Accounted, PoolsIn, DisplayedIn, OwnedIn, CoherentIn, ComposedIn, FinishedIn, AttachedIn;
      var place := Ask(machine.answers.video);
      if place.Some? {
        chrome := chrome.(video := place.value, motionPending := true);
      }
    }

    lemma SubmittedIsThere()
      requires Valid() && progress.atomicInFlight
      ensures screens.pending != 0
    {
    }

    predicate FrameUnderWay()
      reads this
    {
      frames.pending != 0 || screens.pending != 0 || frames.queued != 0 || progress.updateRequested
    }

    /**
     A trim that finds no frame under way keeps only the clean page of the committed frame, and when memory
     is critical not even that, unless it is needed or the chrome is about to be drawn over it.
     */
    method TrimCaches(critical: bool, baseNeeded: bool)
      requires Valid()
      modifies this`bases
      ensures Valid()
      ensures bases == if old(FrameUnderWay()) then old(bases)
                       else if critical && !baseNeeded && !chrome.motionPending then
                         old(bases).(prepared := None, preparedGeneration := 0, base := None, baseGeneration := 0)
                       else old(bases).(prepared := None, preparedGeneration := 0)
    {
      hide Objects, ConservedIn, FencedIn, Accounted, PoolsIn, DisplayedIn, OwnedIn, FinishedIn;
      if !FrameUnderWay() {
        bases := bases.(prepared := None, preparedGeneration := 0);
        if critical && !baseNeeded && !chrome.motionPending {
          bases := bases.(base := None, baseGeneration := 0);
        }
      }
    }

    method RequestChromeRedraw(width: int, height: int, inset: nat, snapshot: nat)
      requires Valid()
      modifies this`geometry, this`bases, this`chrome
      ensures Valid()
      ensures chrome == old(chrome).(snapshot := snapshot, motionPending := true, source := true,
                                     snapshotChanged := old(chrome).snapshotChanged || snapshot != old(chrome).snapshot
                                                        || geometry.(epoch := old(geometry).epoch) != old(geometry))
    {
      hide Objects, ConservedIn, FencedIn, Accounted, PoolsIn, DisplayedIn, OwnedIn, CoherentIn, ComposedIn, FinishedIn, AttachedIn;
      var snapshotChanged := snapshot != chrome.snapshot;
      var geometryChanged := RefreshContentGeometry(width, height, inset);
      chrome := chrome.(snapshot := snapshot, motionPending := true, source := true,
                        snapshotChanged := chrome.snapshotChanged || snapshotChanged || geometryChanged);
    }

    /**
     The chrome timer: chrome changes are drawn over the clean page when no page frame is under way.  The
     redrawn framebuffer is what drawing the page anew would give.  A change that could not be drawn yet
     keeps the timer running, unless drawing it was tried and failed, or there is no page.
     */
    method ChromeTick(width: int, height: int, inset: nat, snapshot: nat, motion: nat, animationActive: bool)
      returns (outcome: TickOutcome)
      requires Valid() && chrome.source
      modifies this`frames, this`geometry, this`progress, this`screens, this`bases, this`chrome, this`buffers, this`ledger,
               discardedRenderingFences, board
      ensures Valid() && frames.committed == old(frames).committed && frames.queued == old(frames).queued
      ensures chrome.snapshot == snapshot && chrome.motion == motion && NothingNew()
      ensures old(chrome).motionPending || old(chrome).snapshotChanged || animationActive
              || snapshot != old(chrome).snapshot || motion != old(chrome).motion || geometry != old(geometry) ==>
                outcome == Redrawn || chrome.motionPending
      ensures chrome.motionPending && frames.committed != 0 ==> outcome == Deferred || outcome == RedrawFailed
      ensures outcome == Redrawn ==>
                && frames.committed != 0 && !chrome.motionPending
                && Drawn(if progress.updateRequested then screens.pending else screens.committed,
                         Page(Look(buffers.contents, frames.committed), geometry.epoch))
      ensures outcome == Deferred <==> chrome.motionPending && frames.committed != 0 && old(FrameWaiting())
      ensures chrome.source <==> animationActive || (chrome.motionPending && old(FrameWaiting()))
      ensures Undrawn() <==> outcome == RedrawFailed && !animationActive
      ensures machine.answers.Works() ==> outcome != RedrawFailed
      ensures machine.answers.Refuses() ==>
                (outcome == RedrawFailed <==>
                   && frames.committed != 0 && !old(FrameWaiting())
                   && (|| old(chrome).motionPending || old(chrome).snapshotChanged || snapshot != old(chrome).snapshot
                       || motion != old(chrome).motion || animationActive || geometry != old(geometry)))
    {
      hide Core, Awake, Launched, Idle, FinishedIn, AttachedIn;
      var recommit := NoteChanges(width, height, inset, snapshot, motion, animationActive);
      if recommit {
        DrainVideo();
      }
      outcome := NothingToDraw;
      var webFrameWaiting := FrameWaiting();
      if chrome.motionPending && frames.committed != 0 && !webFrameWaiting {
        var redrawn := Redraw();
        outcome := if redrawn then Redrawn else RedrawFailed;
      } else if chrome.motionPending && webFrameWaiting && frames.committed != 0 {
        outcome := Deferred;
      }
      KeepTicking(animationActive || (chrome.motionPending && webFrameWaiting));
    }

    /** What the chrome timer finds changed is to be drawn. */
    method NoteChanges(width: int, height: int, inset: nat, snapshot: nat, motion: nat, animationActive: bool)
      returns (recommit: bool)
      requires Valid()
      modifies this`geometry, this`bases, this`chrome
      ensures Valid() && (recommit ==> chrome.motionPending)
      ensures chrome == old(chrome).(snapshotChanged := false, snapshot := snapshot, motion := motion,
                                     motionPending := chrome.motionPending)
      ensures chrome.motionPending <==>
                || old(chrome).motionPending || old(chrome).snapshotChanged || animationActive
                || snapshot != old(chrome).snapshot || motion != old(chrome).motion || geometry != old(geometry)
    {
      hide Objects, ConservedIn, FencedIn, Accounted, PoolsIn, DisplayedIn, OwnedIn, CoherentIn, ComposedIn, FinishedIn, AttachedIn;
      var stateChanged := chrome.snapshotChanged || snapshot != chrome.snapshot;
      var geometryChanged := RefreshContentGeometry(width, height, inset);
      var changed := stateChanged || geometryChanged || animationActive || motion != chrome.motion;
      chrome := chrome.(snapshotChanged := false, snapshot := snapshot, motion := motion,
                        motionPending := chrome.motionPending || changed);
      recommit := stateChanged || geometryChanged || animationActive;
    }

    method KeepTicking(on: bool)
      requires Valid()
      modifies this`chrome
      ensures Valid() && chrome == old(chrome).(source := on)
    {
      hide Objects, ConservedIn, FencedIn, Accounted, PoolsIn, DisplayedIn, OwnedIn, CoherentIn, ComposedIn, FinishedIn, AttachedIn;
      chrome := chrome.(source := on);
    }

    /** The display shows the video through a hole in another place. */
    predicate HoleIsStale()
      reads this
    {
      screens.committed != 0 && HoleIn(screens.committed) != chrome.video
    }

    lemma CommittedTogether()
      requires Valid()
      ensures frames.committed == 0 <==> screens.committed == 0
    {
    }

    /** The video appears, moves, or disappears; the flag is set, but no timer is started. */
    method VideoChanged(place: nat)
      requires Valid()
      modifies this`chrome
      ensures Valid() && chrome == old(chrome).(video := place, motionPending := true)
      ensures HoleIsStale() <==> frames.committed != 0 && HoleIn(screens.committed) != place
      ensures Undrawn() <==> frames.committed != 0 && !chrome.source
    {
      hide Objects, ConservedIn, FencedIn, Accounted, PoolsIn, DisplayedIn, OwnedIn, CoherentIn, ComposedIn, FinishedIn, AttachedIn;
      CommittedTogether();
      chrome := chrome.(video := place, motionPending := true);
    }

    /** A change of the chrome that nothing is about to draw, although there is a page to draw it over. */
    predicate Undrawn()
      reads this
    {
      chrome.motionPending && frames.committed != 0 && !chrome.source
    }

    predicate FrameWaiting()
      reads this
    {
      frames.pending != 0 || frames.queued != 0 || progress.throttleSource || progress.updateRequested || progress.updatePending
    }

    /** Draws the chrome over the clean page, which is captured first when it is not at hand. */
    method Redraw() returns (redrawn: bool)
      requires Valid() && !FrameWaiting() && frames.committed != 0
      modifies this`frames, this`progress, this`screens, this`bases, this`chrome, this`buffers, this`ledger,
               discardedRenderingFences, board
      ensures Valid() && frames.committed == old(frames).committed && frames.queued == old(frames).queued
      ensures NothingNew()
      ensures chrome == old(chrome).(motionPending := chrome.motionPending,
                                     composedSnapshot := chrome.composedSnapshot, composedMotion := chrome.composedMotion)
      ensures !redrawn ==> chrome.motionPending == old(chrome).motionPending
      ensures (machine.answers.Works() ==> redrawn) && (machine.answers.Refuses() ==> !redrawn)
      ensures redrawn ==>
                && !chrome.motionPending
                && Drawn(if progress.updateRequested then screens.pending else screens.committed,
                         Page(Look(buffers.contents, frames.committed), geometry.epoch))
    {
      hide Objects, ConservedIn, FencedIn, Accounted, PoolsIn, DisplayedIn, OwnedIn, CoherentIn, ComposedIn, FinishedIn, AttachedIn;
      var baseReady := bases.baseGeneration == bases.frameGeneration;
      if !baseReady {
        baseReady := CaptureCommittedChromeBase();
      }
      redrawn := false;
      if baseReady {
        redrawn := LaunchRedraw();
        if redrawn {
          chrome := chrome.(motionPending := false);
        }
      }
    }

    method LaunchRedraw() returns (redrawn: bool)
      requires Core() && Awake() && Idle() && !FrameWaiting() && !bases.captureRequested && RedrawDue()
      modifies this`frames, this`progress, this`screens, this`bases, this`chrome, this`buffers, this`ledger,
               discardedRenderingFences, board
      ensures Valid() && frames.committed == old(frames).committed && frames.queued == old(frames).queued
      ensures NothingNew()
      ensures chrome == old(chrome).(motionPending := chrome.motionPending,
                                     composedSnapshot := chrome.composedSnapshot, composedMotion := chrome.composedMotion)
      ensures !redrawn ==> chrome.motionPending == old(chrome).motionPending
      ensures (machine.answers.Works() ==> redrawn) && (machine.answers.Refuses() ==> !redrawn)
      ensures redrawn ==> Drawn(if progress.updateRequested then screens.pending else screens.committed,
                                Page(Look(buffers.contents, frames.committed), geometry.epoch))
    {
      hide Objects, ConservedIn, FencedIn, Accounted, PoolsIn, DisplayedIn, OwnedIn, CoherentIn, ComposedIn, FinishedIn, AttachedIn;
      redrawn := RequestUpdate();
      if redrawn {
        progress := progress.(updateRequested := true);
        CompleteSynchronousCommitIfNeeded();
      }
    }

    // ---------------------------------------------------------------- what the invariant says

    /** In how many places the view has a buffer. */
    ghost function Places(b: nat): nat
      reads this, discardedRenderingFences
    {
      (if b == frames.pending then 1 else 0) + (if b == frames.committed then 1 else 0)
      + (if b == frames.queued then 1 else 0) + (if b in Quarantine() then 1 else 0)
    }

    /** A buffer that is accepted and not released is in exactly one place, any other in none. */
    lemma EveryBufferIsInOnePlace(b: nat)
      requires Valid() && b != 0
      ensures Places(b) == Look(ledger.accepts, b) - Look(ledger.releases, b) == if b in ledger.held then 1 else 0
    {
    }

    lemma QuarantineIsBounded()
      requires Valid()
      ensures |Quarantine()| <= MAXIMUM_RETAINED
    {
      Subset(Quarantine(), swapchain);
    }

    /** Every accepted frame is waiting, was answered with FrameDone, or was displaced: exactly one of these. */
    lemma EveryFrameHasOneFate(s: nat)
      requires Valid()
      ensures (if s in ledger.rendered then 1 else 0) + (if s in ledger.replaced then 1 else 0)
              + (if s != 0 && s == frames.pendingTicket.serial then 1 else 0)
              + (if s != 0 && s == frames.queuedTicket.serial then 1 else 0)
              == if 1 <= s <= frames.nextSerial then 1 else 0
    {
    }

    /** A producer that sends a frame only when all its frames were answered never has one displaced. */
    lemma AnsweredProducerFindsNothingWaiting()
      requires Valid()
      requires forall s: nat :: 1 <= s <= frames.nextSerial ==> s in ledger.rendered || s in ledger.replaced
      ensures frames.queued == 0 && frames.pending == 0
    {
      EveryFrameHasOneFate(frames.queuedTicket.serial);
      EveryFrameHasOneFate(frames.pendingTicket.serial);
    }

    /** A queued frame will be looked at again: by a fence event, a page flip, or the throttle timer. */
    lemma NoLostWakeup()
      requires Valid() && frames.queued != 0
      ensures progress.updatePending
      ensures progress.throttleSource || progress.fenceWait || progress.atomicInFlight
    {
    }

    /** The display has the committed and the submitted framebuffer; each pool has another one to draw in. */
    lemma DoubleBuffering(inShm: bool)
      requires Valid()
      ensures screens.owned == Sole(screens.committed) + Sole(screens.pending)
      ensures screens.pending != 0 ==> progress.atomicInFlight
      ensures !progress.atomicInFlight ==>
                exists i :: 0 <= i < |Pool(inShm)| && (Pool(inShm)[i] == 0 || Pool(inShm)[i] !in screens.owned)
    {
      hide ConservedIn, FencedIn, Accounted, DisplayedIn, CoherentIn, ComposedIn;
      var pool := Pool(inShm);
      assert pool[0] == 0 || pool[0] != pool[1];
      assert screens.pending == 0 ==> screens.owned == Sole(screens.committed);
      assert !progress.atomicInFlight ==> pool[0] == 0 || pool[0] !in screens.owned || pool[1] == 0 || pool[1] !in screens.owned;
    }

    /** What is on the display is the committed page, with the chrome drawn over it once. */
    lemma DisplayShowsCommittedPage()
      requires Valid() && screens.committed != 0
      ensures frames.committed != 0 && screens.committed in screens.pixels
      ensures Shows(screens.pixels[screens.committed], Look(buffers.contents, frames.committed))
    {
    }

    /** Drawing the chrome over a kept base of the committed generation equals drawing the page anew. */
    lemma KeptBaseIsTheCommittedPage()
      requires Valid() && frames.committed != 0 && bases.baseGeneration == bases.frameGeneration
      ensures bases.base == Some(Page(Look(buffers.contents, frames.committed), geometry.epoch))
    {
    }

    // ---------------------------------------------------------------- runs

    method AnyEvent()
      requires Valid()
      modifies this`frames, this`geometry, this`progress, this`screens, this`bases, this`chrome, this`buffers, this`ledger,
               discardedRenderingFences, board, machine
      ensures Valid()
    {
      hide Core, Awake, Launched, Idle;
      var answers: Answers := *;
      machine.answers := answers;
      var event: nat := *;
      var width: int, height: int, inset: nat, snapshot: nat, motion: nat, choice: bool, another: bool := *, *, *, *, *, *, *;
      var b: nat, fence: nat, content: nat, i: nat := *, *, *, *;
      match event {
        case 0 =>
          if b in swapchain && (b !in ledger.held || b == frames.queued) {
            var _ := RenderBuffer(b, fence, content, choice, width, height, inset);
          }
        case 1 =>
          if progress.atomicInFlight {
            PageFlip();
          }
        case 2 =>
          if progress.fenceWait {
            FenceWaitEvent(choice);
          }
        case 3 =>
          if progress.throttleSource {
            ThrottleTimer();
          }
        case 4 =>
          if chrome.source {
            var _ := ChromeTick(width, height, inset, snapshot, motion, choice);
          }
        case 5 =>
          RequestChromeRedraw(width, height, inset, snapshot);
        case 6 =>
          TrimCaches(choice, another);
        case 7 =>
          VideoChanged(content);
        case _ =>
          if i < |discardedRenderingFences.entries| && discardedRenderingFences.entries[i].watched {
            DiscardedFenceEvent(i);
          }
      }
    }

    /** Any events, in any order, as far as the producer, the kernel and the timers allow them. */
    method MainLoop(rounds: nat)
      requires Valid()
      modifies this`frames, this`geometry, this`progress, this`screens, this`bases, this`chrome, this`buffers, this`ledger,
               discardedRenderingFences, board, machine
      ensures Valid()
    {
      hide Core, Awake, Launched, Idle;
      for round := 0 to rounds
        invariant Valid()
      {
        AnyEvent();
      }
    }
  }

  lemma Fewer(waiting: set<nat>, b: nat, swapchain: set<nat>)
    requires waiting <= swapchain - {b} && b in swapchain && |swapchain| <= MAXIMUM_RETAINED
    ensures |waiting| < MAXIMUM_RETAINED
  {
    Subset(waiting, swapchain - {b});
  }

  lemma {:induction false} Subset(a: set<nat>, b: set<nat>)
    requires a <= b
    ensures |a| <= |b|
  {
    if a != {} {
      var x :| x in a;
      Subset(a - {x}, b - {x});
    }
  }
}
