/**
 The display side of the hole punch: VideoOverlayState and the functions that drive it.

 The kernel's answers (socket sends, atomic commits, descriptor duplication) are arbitrary, or
 foreseen, so that it can be said which answers lead where.
 Every effect is logged as a step of VideoProtocol.CNext, so `steps` is a run of the display
 process that VideoSafety.dfy composes with the decoder.
 */
module VideoConsumer {
  import opened VideoWire
  import opened VideoProtocol
  import opened VideoReleaseQueue
  import opened Wrappers

  /** Visible: the plane now reads the given frame.  Clipped: the frame is off screen, plane off. */
  datatype CommitResult = Visible | Clipped | Busy | Failed

  datatype FrameResult = Shown | Retry | Unusable

  /** What a conforming decoder can deliver: rising numbers, and no frame after a close request. */
  predicate Conforms(messages: seq<Down>, high: nat, hidden: bool) {
    messages == [] ||
    match messages[0]
    case Rect => Conforms(messages[1..], high, hidden)
    case Frame(s) => s > high && !hidden && Conforms(messages[1..], s, hidden)
    case Hide(q) => q > high && !hidden && Conforms(messages[1..], q, true)
  }

  /** What the kernel answers to the display. */
  datatype Answers = Answers(sends: Forecast<SendResult>, duplicates: Forecast<bool>, imports: Forecast<bool>,
                             commits: Forecast<CommitResult>, blanks: Forecast<bool>)
  {
    predicate Foreseen() {
      sends.Always? && duplicates.Always? && imports.Always? && commits.Always? && blanks.Always?
    }

    // Each of these holds of answers that are foreseen; atomic tells whether the view's commit is in flight.

    predicate CanBlank(atomic: bool) {
      !atomic && blanks == Always(true)
    }

    predicate CannotBlank(atomic: bool) {
      atomic || blanks == Always(false)
    }

    predicate WillShow(atomic: bool) {
      !atomic && imports == Always(true) && commits == Always(Visible)
    }

    predicate WillDiscard(atomic: bool) {
      !atomic && imports.Always? && commits.Always? && (!imports.value || commits.value == Failed)
    }

    /** What becomes of a deferred frame whose turn it is. */
    predicate Foretold(atomic: bool, result: FrameResult) {
      if atomic then result == Retry
      else if imports == Always(false) then result == Unusable
      else if imports == Always(true) && commits.Always? then
        result == match commits.value
                  case Busy => Retry
                  case Failed => Unusable
                  case _ => Shown
      else true
    }

    /** Sending the message after acks ends in dropping the client. */
    predicate Severs(acks: seq<Up>, message: Up) {
      && message.sequence != 0
      && (sends == Always(Broken) || (message !in acks && |acks| >= ACK_LIMIT))
    }

    predicate Spares(acks: seq<Up>, message: Up) {
      || message.sequence == 0
      || ((sends == Always(Sent) || sends == Always(WouldBlock)) && (message in acks || |acks| < ACK_LIMIT))
    }

    lemma Foretells(atomic: bool, result: FrameResult)
      requires Foreseen() && Foretold(atomic, result)
      ensures result == Unusable <==> WillDiscard(atomic)
      ensures result == Shown && commits.value == Visible <==> WillShow(atomic)
    {
      assert imports == Always(true) || imports == Always(false) by {
        if imports.value {
        }
      }
    }

    lemma BlanksOrNot(atomic: bool)
      requires Foreseen()
      ensures CanBlank(atomic) <==> !CannotBlank(atomic)
    {
      if blanks.value {
      }
    }

    /** The kernel does all it is asked. */
    predicate Smooth() {
      this == Answers(Always(Sent), Always(true), Always(true), Always(Visible), Always(true))
    }

    lemma SmoothFacts(acks: seq<Up>, message: Up)
      requires Smooth()
      ensures forall result :: Foretold(false, result) ==> result == Shown
      ensures |acks| < ACK_LIMIT ==> Spares(acks, message)
      ensures CanBlank(false)
    {
    }

    lemma SeversOrSpares(acks: seq<Up>, message: Up)
      requires sends.Always?
      ensures Severs(acks, message) <==> !Spares(acks, message)
    {
      match sends.value
      case Sent =>
      case WouldBlock =>
      case Broken =>
    }
  }

  class Kernel {
    var answers: Answers

    constructor ()
      ensures answers == Answers(Open, Open, Open, Open, Open)
    {
      answers := Answers(Open, Open, Open, Open, Open);
    }
  }

  datatype Client = Client(fd: int, source: bool, dropping: bool)

  /** The framebuffer on the plane, by its sequence, 0 for none. */
  datatype Plane = Plane(current: nat, haveFrame: bool, enabled: bool)

  /** The frame that waits for its commit, and whether the page has moved the video since the last one. */
  datatype Deferred = Deferred(present: bool, frame: nat, geometry: bool)

  /** The overlay is to be disabled, for a close request or before a dropped client is closed. */
  datatype Request = Request(disable: bool, closeAfter: bool, closeSequence: nat)

  /** The frame in the receive loop's locals, and a close request not yet acted on; 0 for none. */
  datatype Loop = Loop(packet: nat, arriving: nat)

  /**
   The descriptor that the attached release source polls, -1 for none; a client that is accepted
   while a source is left over that polls another one inherits it.
   */
  datatype Watch = Watch(fd: int, inherited: bool)

  /** What the display shows and has waiting: the frame on the plane, the deferred one, the one in hand. */
  datatype Picture = Picture(current: nat, deferred: nat, packet: nat, shown: seq<nat>)

  // What the receive loop makes of messages when the kernel does all it is asked.

  function Flushed(v: Picture): Picture {
    if v.packet == 0 then v else Picture(v.packet, 0, 0, v.shown + [v.packet])
  }

  function Played(v: Picture, message: Down): Picture {
    match message
    case Frame(sequence) => v.(packet := sequence)
    case Rect =>
      var w := Flushed(v);
      if w.current == 0 then w
      else
        var again := if w.deferred != 0 then w.deferred else w.current;
        Picture(again, 0, 0, w.shown + [again])
    case Hide(_) => Picture(0, 0, 0, Flushed(v).shown)
  }

  function PlayedAll(v: Picture, messages: seq<Down>): Picture {
    if messages == [] then v else Played(PlayedAll(v, messages[..|messages| - 1]), messages[|messages| - 1])
  }

  /** What is left of a queue from whose front some were taken. */
  predicate IsSuffix<T(==)>(rest: seq<T>, whole: seq<T>) {
    |rest| <= |whole| && rest == whole[|whole| - |rest|..]
  }

  lemma SuffixTaken<T>(rest: seq<T>, whole: seq<T>)
    requires IsSuffix(rest, whole)
    ensures rest != [] ==> IsSuffix(rest[1..], whole)
    ensures rest == [] ==> IsSuffix(rest, whole)
  {
  }

  lemma SuffixWhole<T>(whole: seq<T>)
    ensures IsSuffix(whole, whole)
  {
  }

  class VideoOverlayState {
    const kernel: Kernel
    var client: Client
    const pendingReleaseAcks: ReleaseQueue
    var releaseSource: bool
    var plane: Plane
    var deferred: Deferred
    var request: Request
    var retrySource: bool
    var atomicInFlight: bool    // the view's own commit has not completed

    ghost var loop: Loop
    ghost var orphan: nat       // a held frame that nothing but a local refers to, 0 for none
    ghost var given: bool       // the deferred frame has been given up but is not yet cleared
    ghost var model: Consumer
    ghost var steps: seq<CStep>
    ghost var origin: seq<CStep> // the log when the current main-loop event began
    ghost var shown: seq<nat>   // the frames put on the plane so far
    ghost var watch: Watch

    // -------------------------------------------------------------- consistency

    /** The samples the display still owes the decoder. */
    ghost function Held(): set<nat>
      reads this`deferred, this`given, this`plane, this`loop, this`orphan
    {
      HeldOf(if deferred.present && !given then deferred.frame else 0, plane.current, loop.packet, orphan)
    }

    static ghost function HeldOf(a: nat, b: nat, c: nat, d: nat): set<nat> {
      Sole(a) + Sole(b) + Sole(c) + Sole(d)
    }

    /** What giving up an orphan, or the deferred frame, leaves. */
    lemma HeldWithout(sequence: nat)
      requires sequence != 0 && sequence != loop.packet
      ensures orphan == sequence && sequence != plane.current && !(deferred.present && deferred.frame == sequence) ==>
                sequence in Held() && Held() - {sequence} ==
                  HeldOf(if deferred.present && !given then deferred.frame else 0, plane.current, loop.packet, 0)
      ensures orphan == 0 && deferred.present && !given && deferred.frame == sequence && sequence != plane.current ==>
                sequence in Held() && Held() - {sequence} == HeldOf(0, plane.current, loop.packet, 0)
      ensures deferred.present && deferred.frame == sequence == plane.current ==>
                Held() == HeldOf(0, plane.current, loop.packet, orphan)
    {
    }

    /** The frame on the plane is held, and with no frame anywhere nothing is. */
    lemma HeldFrames()
      ensures plane.current != 0 ==> plane.current in Held()
      ensures !deferred.present && plane.current == 0 && loop.packet == 0 && orphan == 0 ==> Held() == {}
    {
    }

    predicate LiveClient()
      reads this
    {
      client.fd >= 0 && !client.dropping
    }

    /** The log is a run of the display process and only grows. */
    ghost predicate Logged()
      reads this`steps, this`model, this`origin
    {
      CRun(steps) == Some(model) && origin <= steps
    }

    /** The fields mirror the logged run; holds at every call between the functions below. */
    ghost predicate Core()
      reads this`client, this`request, this`plane, this`deferred,
            this`given, this`loop, this`orphan, this`model, this`steps, this`origin, pendingReleaseAcks
    {
      && Logged()
      && pendingReleaseAcks.limit == ACK_LIMIT
      && -1 <= client.fd == model.client
      && model.dropping == client.dropping == request.closeAfter
      && model.acks == pendingReleaseAcks.messages
      && (client.fd < 0 ==> model.acks == [])
      && model.held == Held()
      && model.closing in {0, request.closeSequence, loop.arriving}
      && (loop.arriving != 0 ==> request.closeSequence == 0 && model.hidden)
      && (request.closeSequence != 0 ==> loop.packet == 0 && model.hidden)
      && model.scanning == (if plane.enabled then plane.current else 0)
      && (plane.enabled ==> plane.current != 0)
      && (plane.current != 0 ==> plane.haveFrame)
      && plane.current <= model.high && loop.packet <= model.high && deferred.frame <= model.high && orphan <= model.high
      && (loop.packet != 0 ==> loop.packet != plane.current)
      && (orphan != 0 ==> orphan != plane.current && orphan != loop.packet && (deferred.present ==> orphan != deferred.frame))
      && (deferred.present ==> deferred.frame != 0 && deferred.frame != loop.packet)
    }

    /** Between calls of the receive loop: no frame is half given up. */
    ghost predicate Linked()
      reads this, pendingReleaseAcks
    {
      && Core()
      && orphan == 0
      && (deferred.present ==> !given && deferred.frame != plane.current)
      && (LiveClient() ==> model.closing == if loop.arriving != 0 then loop.arriving else request.closeSequence)
      && (plane.haveFrame <==> plane.current != 0)
      && (client.dropping || request.closeSequence != 0 ==> request.disable)
    }

    lemma LogGrows()
      requires Core()
      ensures origin <= steps
    {
    }

    lemma CoreFacts()
      requires Core()
      ensures -1 <= client.fd && request.closeAfter == client.dropping
      ensures (plane.enabled ==> plane.current != 0) && (plane.current != 0 ==> plane.haveFrame)
      ensures request.closeSequence != 0 ==> loop.packet == 0 && loop.arriving == 0
      ensures deferred.present ==> deferred.frame != 0 && deferred.frame != loop.packet
      ensures loop.packet != 0 ==> loop.packet != plane.current
      ensures model.acks == pendingReleaseAcks.messages && (client.fd < 0 ==> model.acks == [])
      ensures model.closing in {0, request.closeSequence, loop.arriving}
    {
    }

    /** Linked, and deferred work has a timer that retries it. */
    ghost predicate Exact()
      reads this, pendingReleaseAcks
    {
      Linked() && Armed() && (deferred.present || request.disable ==> retrySource)
    }

    /** Between main-loop events. */
    ghost predicate Valid()
      reads this, pendingReleaseAcks
    {
      Exact() && loop.packet == 0 && loop.arriving == 0
    }

    ghost method Log(step: CStep)
      requires Logged() && CNext(model, step).Some?
      modifies this`model, this`steps
      ensures Logged() && CNext(old(model), step) == Some(model)
    {
      CRunSnoc(steps, step);
      steps := steps + [step];
      model := CNext(model, step).value;
    }

    constructor (kernel: Kernel)
      ensures Valid() && fresh(pendingReleaseAcks) && this.kernel == kernel
      ensures steps == [] && client.fd == -1 && shown == [] && watch.fd == -1
      ensures !request.disable && !plane.enabled && !deferred.present && !plane.haveFrame && !atomicInFlight
      ensures !deferred.geometry && model == CONSUMER_INIT
    {
      this.kernel := kernel;
      client, releaseSource, retrySource := Client(-1, false, false), false, false;
      pendingReleaseAcks := new ReleaseQueue(ACK_LIMIT);
      plane, deferred, request := Plane(0, false, false), Deferred(false, 0, false), Request(false, false, 0);
      atomicInFlight := false;
      loop, orphan, given, watch := Loop(0, 0), 0, false, Watch(-1, false);
      model, steps, origin, shown := CONSUMER_INIT, [], [], [];
    }

    // -------------------------------------------------------------- what calls leave behind

    /** Bookkeeping no helper touches. */
    twostate predicate Continues()
      reads this
    {
      && loop == old(loop) && atomicInFlight == old(atomicInFlight)
      && origin == old(origin) && model.high == old(model.high) && model.hidden == old(model.hidden)
    }

    // -------------------------------------------------------------- what the kernel's answers decide

    /** The plane shows a frame although no client is there and nothing is about to take it off. */
    predicate Stranded()
      reads this
    {
      plane.enabled && client.fd == -1 && !request.disable
    }

    /** A changed geometry waits for a commit that nothing will start. */
    predicate Lapsed()
      reads this
    {
      deferred.geometry && plane.haveFrame && !retrySource
    }

    /** A client drop ran: the deferred frame is gone, and so are client and plane unless it is stuck. */
    twostate predicate Dropped()
      reads this, kernel
    {
      && Continues() && !deferred.present && shown == old(shown)
      && (kernel.answers.CanBlank(atomicInFlight) ==> !client.dropping)
      && (kernel.answers.CannotBlank(atomicInFlight) && old(plane.enabled) ==> client.dropping)
      && (if client.dropping then
            && client.fd == old(client.fd) && request.disable && retrySource
            && plane == old(plane) && plane.enabled && request.closeSequence == old(request.closeSequence)
          else
            && client.fd == -1 && !request.disable && request.closeSequence == 0
            && plane.current == 0 && !plane.haveFrame && !deferred.geometry)
    }

    /**
     A source is attached even after the send that broke the connection, when the plane could not
     be taken off and the client is therefore still there.
     */
    twostate predicate Rewatched()
      reads this
    {
      client.dropping && |old(model.acks)| < ACK_LIMIT ==> releaseSource && watch.fd == client.fd
    }

    twostate predicate SourceKept()
      reads this
    {
      releaseSource == old(releaseSource) && watch == old(watch)
    }

    /**
     A live client's source, once there, is left alone while the client is; no client comes back to
     life; and with a socket that takes everything no answers pile up.
     */
    twostate predicate WatchKept()
      reads this, kernel
    {
      && (kernel.answers.sends == Always(Sent) && LiveClient() ==> |model.acks| <= |old(model.acks)|)
      && (!old(LiveClient()) ==> !LiveClient())
      && (!old(LiveClient()) || (old(releaseSource) && LiveClient()) ==> SourceKept())
    }

    /** Only the answer queue, its source and the log changed. */
    twostate predicate Undisturbed()
      reads this
    {
      && Continues()
      && client == old(client) && deferred == old(deferred) && plane == old(plane) && request == old(request)
      && retrySource == old(retrySource) && shown == old(shown)
    }

    ghost function View(): Picture
      reads this
    {
      Picture(plane.current, if deferred.present then deferred.frame else 0, loop.packet, shown)
    }

    /** The display serves a client, and the kernel does all it is asked. */
    ghost predicate Running()
      reads this, kernel
    {
      && LiveClient() && !request.disable && !atomicInFlight && |model.acks| < ACK_LIMIT
      && kernel.answers.Smooth()
    }

    /** A socket that takes everything costs no client. */
    twostate predicate Served()
      reads this, kernel
    {
      old(LiveClient() && kernel.answers.sends == Always(Sent) && |model.acks| < ACK_LIMIT) ==> LiveClient()
    }

    // -------------------------------------------------------------- answers

    method ScheduleDrain()
      modifies this`retrySource
      ensures retrySource
    {
      if retrySource {
        return;
      }
      retrySource := true;
    }

    /** The socket took the oldest answer. */
    method PopSent()
      requires Core() && client.fd >= 0 && pendingReleaseAcks.messages != []
      modifies this`model, this`steps, pendingReleaseAcks
      ensures Core() && old(model.acks) != [] && model == old(model).(acks := old(model.acks)[1..])
    {
      hide CRun, Logged;
      Log(Transmit);
      pendingReleaseAcks.Pop();
    }

    /** True when the socket took every queued answer; else the last ones are left, or the client is not. */
    method FlushReleases() returns (flushed: bool)
      requires Core() && orphan == 0
      modifies this, pendingReleaseAcks
      ensures Core() && orphan == 0
      ensures flushed ==> model.acks == []
      ensures LiveClient() || !old(LiveClient()) ==>
                && Undisturbed() && SourceKept() && given == old(given) && model.closing == old(model.closing)
                && IsSuffix(model.acks, old(model.acks)) && (client.fd >= 0 && !flushed ==> model.acks != [])
      ensures old(LiveClient()) && !LiveClient() ==> Dropped() && !flushed && !releaseSource && watch.fd == -1
      ensures old(LiveClient()) && old(model.acks) != [] && kernel.answers.sends == Always(Broken) ==> !LiveClient()
      ensures old(LiveClient()) && (kernel.answers.sends == Always(Sent) || kernel.answers.sends == Always(WouldBlock)) ==>
                LiveClient()
      ensures old(LiveClient()) && kernel.answers.sends == Always(Sent) ==> flushed
      ensures old(LiveClient()) && kernel.answers.sends == Always(WouldBlock) ==> model.acks == old(model.acks)
      decreases if client.dropping then 0 else if client.fd < 0 then 1 else 2, 2
    {
      hide CRun, Logged, Core, CNext, HeldOf, IsSuffix;
      CoreFacts();
      SuffixWhole(model.acks);
      if client.fd < 0 {
        return false;
      }
      var result := SendWaiting();
      CoreFacts();
      if result == Broken {
        DropClient();
        CoreFacts();
      }
      return result == Sent;
    }

    /** Sends queued answers, oldest first, until the socket takes no more. */
    method SendWaiting() returns (result: SendResult)
      requires Core() && orphan == 0 && client.fd >= 0
      modifies this`model, this`steps, pendingReleaseAcks
      ensures Core() && model == old(model).(acks := model.acks) && IsSuffix(model.acks, old(model.acks))
      ensures result == Sent <==> model.acks == []
      ensures kernel.answers.sends.Always? && result != Sent ==> result == kernel.answers.sends.value
      ensures kernel.answers.sends == Always(WouldBlock) ==> model.acks == old(model.acks)
      ensures old(model.acks) != [] && kernel.answers.sends == Always(Broken) ==> result == Broken
    {
      hide CRun, Logged, Core, CNext, HeldOf, IsSuffix;
      CoreFacts();
      SuffixWhole(model.acks);
      while pendingReleaseAcks.messages != []
        invariant Core() && model == old(model).(acks := model.acks) && IsSuffix(model.acks, old(model.acks))
        invariant model.acks == pendingReleaseAcks.messages
        invariant kernel.answers.sends in {Always(Broken), Always(WouldBlock)} ==> model.acks == old(model.acks)
        decreases |pendingReleaseAcks.messages|
      {
        result := Ask(kernel.answers.sends);
        if result != Sent {
          return;
        }
        SuffixTaken(model.acks, old(model.acks));
        PopSent();
        CoreFacts();
      }
      return Sent;
    }

    /** Queues an answer for the client and tries to send it; without a live client it is void. */
    method SendRelease(message: Up)
      requires Core() && Armed()
      requires message.Release? ==> Surrenders(message.sequence)
      requires message.CloseComplete? ==> orphan == 0
      requires message.CloseComplete? && LiveClient() ==> message.sequence == model.closing != 0 && Held() == {} && plane.current == 0
      modifies this, pendingReleaseAcks
      ensures Core() && Armed() && orphan == 0
      ensures LiveClient() || !old(LiveClient()) ==>
                && Undisturbed()
                && given == (old(given) || (message.Release? && message.sequence != 0 && old(orphan) == 0))
                && model.closing == if message.Release? then old(model.closing) else 0
      ensures old(LiveClient()) && !LiveClient() ==> Dropped() && Rewatched()
      ensures WatchKept() && Served()
      ensures message.sequence == 0 ==> model.acks == old(model.acks)
      ensures old(LiveClient()) && LiveClient() && message.sequence != 0 ==>
                && (kernel.answers.sends == Always(Sent) ==> model.acks == [])
                && (kernel.answers.sends == Always(WouldBlock) ==>
                      model.acks == old(model.acks) + if message in old(model.acks) then [] else [message])
      ensures old(LiveClient() && kernel.answers.Severs(model.acks, message)) ==> !LiveClient()
      ensures old(LiveClient() && kernel.answers.Spares(model.acks, message)) ==> LiveClient()
      decreases if client.dropping then 0 else if client.fd < 0 then 1 else 2, 3
    {
      hide CNext, HeldOf, Sole, Core, CRun, Logged, IsSuffix;
      CoreFacts();
      if client.dropping || client.fd < 0 || message.sequence == 0 {
        if message.CloseComplete? {
          Abandon();
        } else if message.sequence != 0 {
          Renounce(message.sequence);
        }
        return;
      }
      var addResult;
      match message {
        case Release(sequence) => addResult := EnqueueRelease(sequence);
        case CloseComplete(sequence) => addResult := EnqueueClose(sequence);
      }
      TransmitOrWatch(addResult == AddResult.Overflow);
    }

    /** The second half of videoOverlaySendRelease, for a live client. */
    method TransmitOrWatch(overflow: bool)
      requires Core() && LiveClient() && orphan == 0 && (overflow || model.acks != [])
      requires Watched() && (overflow && model.acks != [] ==> releaseSource)
      modifies this, pendingReleaseAcks
      ensures WatchKept()
      ensures Core() && Armed() && orphan == 0
      ensures LiveClient() ==> Undisturbed() && given == old(given) && model.closing == old(model.closing)
      ensures !LiveClient() ==> Dropped()
      ensures LiveClient() && !overflow ==>
                && (kernel.answers.sends == Always(Sent) ==> model.acks == [])
                && (kernel.answers.sends == Always(WouldBlock) ==> model.acks == old(model.acks))
      ensures client.dropping && !overflow ==> releaseSource && watch.fd == client.fd
      ensures overflow || kernel.answers.sends == Always(Broken) ==> !LiveClient()
      ensures !overflow && (kernel.answers.sends == Always(Sent) || kernel.answers.sends == Always(WouldBlock)) ==> LiveClient()
      decreases 2, 3, 0
    {
      hide CNext, HeldOf, Sole, Core, CRun, Logged, IsSuffix;
      if overflow {
        DropClient();
        return;
      }
      var flushed := FlushReleases();
      if flushed || releaseSource || client.fd < 0 {
        return;
      }
      WatchReleases();
    }

    /** Attaches the source that tells when the socket takes answers again. */
    method WatchReleases()
      requires Core() && !releaseSource
      modifies this`releaseSource, this`watch
      ensures releaseSource && watch.fd == client.fd && !watch.inherited && Core()
    {
      releaseSource := true;
      watch := Watch(client.fd, false);
    }

    /** Queues a release; the frame it is about is given up whatever the queue says. */
    method EnqueueRelease(sequence: nat) returns (result: AddResult)
      requires Core() && LiveClient() && sequence != 0 && Surrenders(sequence)
      modifies this`model, this`steps, this`orphan, this`given, pendingReleaseAcks
      ensures Core() && orphan == 0 && Continues() && model.closing == old(model.closing)
      ensures given == (old(given) || old(orphan) == 0)
      ensures result == AddResult.Overflow <==>
                Release(sequence) !in old(model.acks) && |old(model.acks)| >= ACK_LIMIT
      ensures result == Duplicate <==> Release(sequence) in old(model.acks)
      ensures result == AddResult.Overflow || Release(sequence) in model.acks
      ensures model.acks == old(model.acks) + (if result == Added then [Release(sequence)] else [])
    {
      hide HeldOf, Sole, CRun, Logged;
      HeldWithout(sequence);
      result := pendingReleaseAcks.Add(Release(sequence));
      Log(match result
          case Added => Retire(sequence)
          case Duplicate => Repeat(Release(sequence))
          case Overflow => CStep.Overflow(Release(sequence)));
      if orphan != 0 {
        orphan := 0;
      } else {
        given := true;
      }
    }

    method EnqueueClose(sequence: nat) returns (result: AddResult)
      requires Core() && LiveClient() && orphan == 0 && 0 != sequence == model.closing && Held() == {} && plane.current == 0
      modifies this`model, this`steps, pendingReleaseAcks
      ensures Core() && Continues() && model.closing == 0
      ensures result == AddResult.Overflow <==>
                CloseComplete(sequence) !in old(model.acks) && |old(model.acks)| >= ACK_LIMIT
      ensures result == Duplicate <==> CloseComplete(sequence) in old(model.acks)
      ensures result == AddResult.Overflow || CloseComplete(sequence) in model.acks
      ensures model.acks == old(model.acks) + (if result == Added then [CloseComplete(sequence)] else [])
    {
      hide HeldOf, Sole, CRun, Logged;
      result := pendingReleaseAcks.Add(CloseComplete(sequence));
      Log(match result
          case Added => QueueClose
          case Duplicate => Repeat(CloseComplete(sequence))
          case Overflow => CStep.Overflow(CloseComplete(sequence)));
    }

    /** The frame about to be given up: an orphan, or the deferred frame when it is not on the plane. */
    ghost predicate Surrenders(sequence: nat)
      reads this
    {
      if sequence == 0 then orphan == 0
      else if orphan != 0 then orphan == sequence
      else deferred.present && deferred.frame == sequence && (LiveClient() ==> !given && sequence != plane.current)
    }

    /**
     Answers that wait have a source; it polls the client's descriptor unless it was inherited.
     */
    ghost predicate Armed()
      reads this
    {
      (LiveClient() && model.acks != [] ==> releaseSource) && Watched()
    }

    ghost predicate Watched()
      reads this
    {
      && (watch.fd >= 0 ==> releaseSource)
      && (LiveClient() ==> (watch.inherited <==> releaseSource && watch.fd != client.fd))
    }

    ghost method Abandon()
      requires Core() && !LiveClient()
      modifies this`model, this`steps
      ensures Core() && model == old(model).(closing := 0)
    {
      hide CRun, Logged;
      if model.closing != 0 {
        Log(AbandonClose);
      }
    }

    /** Without a client to tell, a frame is simply forgotten. */
    ghost method Renounce(sequence: nat)
      requires Core() && !LiveClient() && sequence != 0 && Surrenders(sequence)
      modifies this`model, this`steps, this`orphan, this`given
      ensures Core() && orphan == 0 && Continues()
      ensures model.acks == old(model.acks) && model.closing == old(model.closing)
      ensures given == (old(given) || old(orphan) == 0)
    {
      hide HeldOf, Sole, CRun, Logged;
      HeldWithout(sequence);
      if sequence != plane.current && (orphan != 0 || !given) {
        Log(Discard(sequence));
      }
      if orphan != 0 {
        orphan := 0;
      } else {
        given := true;
      }
    }

    // -------------------------------------------------------------- the plane

    /** videoOverlayCommit: puts a held frame on the plane, or takes the plane off when clipped. */
    method Commit(sequence: nat) returns (result: CommitResult)
      requires Logged() && sequence != 0 && sequence in model.held
      requires plane.enabled <==> model.scanning != 0
      modifies this`plane, this`shown, this`model, this`steps
      ensures Logged()
      ensures atomicInFlight ==> result == Busy
      ensures !atomicInFlight && kernel.answers.commits.Always? ==> result == kernel.answers.commits.value
      ensures shown == old(shown) + if result == Visible then [sequence] else []
      ensures match result
              case Visible => plane == old(plane).(enabled := true) && model == old(model).(scanning := sequence)
              case Clipped => plane == old(plane).(enabled := false) && model == old(model).(scanning := 0)
              case _ => plane == old(plane) && model == old(model)
    {
      hide CRun, Logged;
      if atomicInFlight {
        return Busy;
      }
      result := Ask(kernel.answers.commits);
      if result == Visible {
        plane := plane.(enabled := true);
        shown := shown + [sequence];
        Log(Show(sequence));
      } else if result == Clipped && plane.enabled {
        plane := plane.(enabled := false);
        Log(Blank);
      }
    }

    /** Takes the plane off; false when the display refused. */
    method BlankPlane() returns (off: bool)
      requires Core()
      modifies this`plane, this`model, this`steps
      ensures Core() && off == !plane.enabled && plane == old(plane).(enabled := !off) && (!off ==> old(plane.enabled))
      ensures kernel.answers.CanBlank(atomicInFlight) ==> off
      ensures kernel.answers.CannotBlank(atomicInFlight) && old(plane.enabled) ==> !off
      ensures model == old(model).(scanning := if off then 0 else old(model.scanning))
    {
      hide CRun, Logged;
      if plane.enabled {
        if atomicInFlight {
          return false;
        }
        var success := Ask(kernel.answers.blanks);
        if !success {
          return false;
        }
        plane := plane.(enabled := false);
        Log(Blank);
      }
      return true;
    }

    /** The frame that was on the plane belongs to nobody until it is given back. */
    method DetachCurrent() returns (sequence: nat)
      requires Core() && orphan == 0 && !plane.enabled && !deferred.present
      modifies this`plane, this`orphan
      ensures Core() && plane == old(plane).(current := 0) && orphan == sequence == old(plane.current) && Surrenders(sequence)
    {
      hide CRun, Logged;
      sequence := plane.current;
      orphan := plane.current;
      plane := plane.(current := 0);
    }

    /** videoOverlayDisable: takes the plane off and gives its frame back; false changes nothing. */
    method Disable() returns (disabled: bool)
      requires Core() && Armed() && orphan == 0 && !deferred.present
      modifies this, pendingReleaseAcks
      ensures Core() && Armed() && orphan == 0 && Continues() && !deferred.present && shown == old(shown)
      ensures kernel.answers.CanBlank(atomicInFlight) ==> disabled
      ensures kernel.answers.CannotBlank(atomicInFlight) && old(plane.enabled) ==> !disabled
      ensures WatchKept() && Served()
      ensures !disabled ==> plane.enabled && Undisturbed() && SourceKept() && model.closing == old(model.closing)
      ensures disabled ==> plane.current == 0 && !plane.haveFrame
      ensures disabled && (LiveClient() || !old(LiveClient())) ==>
                client == old(client) && request == old(request) && model.closing == old(model.closing)
      ensures disabled && old(LiveClient()) && !LiveClient() ==>
                client.fd == -1 && !client.dropping && request.closeSequence == 0
      decreases if client.dropping then 0 else if client.fd < 0 then 1 else 2, 4
    {
      hide CNext, HeldOf, Sole, CRun, Logged, Core, Answers.Severs, Answers.Spares, Answers.Foretold;
      var off := BlankPlane();
      if !off {
        return false;
      }
      var releasedSequence := DetachCurrent();
      SendRelease(Release(releasedSequence));
      ForgetFrame();
      return true;
    }

    method ForgetFrame()
      requires Core() && plane.current == 0
      modifies this`plane
      ensures Core() && plane == old(plane).(haveFrame := false)
    {
      hide CRun, Logged;
      plane := plane.(haveFrame := false);
    }

    /** Closes the deferred frame's descriptors, once it was given up or is on the plane. */
    method ClosePendingFrame()
      requires Core() && (deferred.present ==> given || deferred.frame == plane.current)
      modifies this`deferred, this`given
      ensures Core() && deferred == old(deferred).(present := false) && !given
    {
      hide CRun, Logged;
      deferred := deferred.(present := false);
      given := false;
    }

    /** Commits the frame on the plane again, for a changed geometry. */
    method CommitCurrent() returns (committed: CommitResult)
      requires Core() && plane.current != 0
      modifies this`plane, this`shown, this`model, this`steps
      ensures Core() && model.closing == old(model.closing) && model.acks == old(model.acks) && Continues()
      ensures plane == old(plane).(enabled := plane.enabled)
      ensures !atomicInFlight && kernel.answers.commits.Always? ==> committed == kernel.answers.commits.value
      ensures match committed
              case Visible => plane.enabled && shown == old(shown) + [plane.current]
              case Clipped => !plane.enabled && shown == old(shown)
              case _ => plane.enabled == old(plane.enabled) && shown == old(shown)
    {
      hide CRun, Logged;
      HeldFrames();
      committed := Commit(plane.current);
    }

    /** Commits the deferred frame; on success it is current and the previous one is to be given back. */
    method CommitPending() returns (committed: CommitResult, previous: nat)
      requires Core() && orphan == 0 && deferred.present && !given && deferred.frame != plane.current
      modifies this`plane, this`shown, this`orphan, this`model, this`steps
      ensures Core() && model.closing == old(model.closing) && model.acks == old(model.acks) && Continues()
      ensures atomicInFlight ==> committed == Busy
      ensures !atomicInFlight && kernel.answers.commits.Always? ==> committed == kernel.answers.commits.value
      ensures if committed == Visible || committed == Clipped
              then plane == Plane(deferred.frame, true, committed == Visible) && orphan == previous == old(plane.current)
                   && shown == old(shown) + if committed == Visible then [deferred.frame] else []
              else plane == old(plane) && orphan == 0 && shown == old(shown)
    {
      hide CRun, Logged, CNext;
      committed := Commit(deferred.frame);
      previous := 0;
      if committed == Visible || committed == Clipped {
        previous := AdoptPending();
      }
    }

    method AdoptPending() returns (previous: nat)
      modifies this`plane, this`orphan
      ensures previous == orphan == old(plane.current)
      ensures plane == old(plane).(current := deferred.frame, haveFrame := true)
    {
      previous := plane.current;
      orphan := plane.current;
      plane := plane.(current := deferred.frame, haveFrame := true);
    }

    /** The deferred frame was put on the plane, or is current and clipped. */
    twostate predicate Displayed()
      reads this
    {
      shown == old(shown) + if plane.enabled then [old(deferred.frame)] else []
    }

    /** The frame that was on the plane is given back, which may cost the client. */
    twostate predicate ReplacedGivenBack()
      reads this, kernel
    {
      && (old(LiveClient() && kernel.answers.Severs(model.acks, Release(plane.current))) ==> !LiveClient())
      && (old(LiveClient() && kernel.answers.Spares(model.acks, Release(plane.current))) ==> LiveClient())
      && (old(plane.current) == 0 ==> model.acks == old(model.acks))
    }

    /** videoOverlayHandleFrame: imports the deferred frame, commits it, gives the previous one back. */
    method HandleFrame() returns (result: FrameResult)
      requires Linked() && Armed() && deferred.present && !request.disable
      modifies this, pendingReleaseAcks
      ensures Core() && Armed() && orphan == 0 && Continues() && kernel.answers.Foretold(atomicInFlight, result)
      ensures WatchKept() && Served()
      ensures result != Shown ==>
                Undisturbed() && SourceKept() && given == old(given) && model.closing == old(model.closing)
                && model.acks == old(model.acks)
      ensures result == Shown && (LiveClient() || !old(LiveClient())) ==>
                && client == old(client) && deferred == old(deferred) && request == old(request)
                && plane.current == deferred.frame && plane.haveFrame
                && model.closing == old(model.closing) && retrySource == old(retrySource) && Displayed()
                && (kernel.answers.commits.Always? ==> plane.enabled == (kernel.answers.commits.value == Visible))
      ensures result == Shown ==> ReplacedGivenBack()
      ensures result == Shown && old(LiveClient()) && !LiveClient() ==>
                && Rewatched()
                && (kernel.answers.CannotBlank(atomicInFlight) && kernel.answers.commits == Always(Visible) ==> client.dropping)
                && !deferred.present && (plane.haveFrame <==> plane.current != 0)
                && (if client.dropping then request.disable && retrySource && client.fd == old(client.fd)
                    else client.fd == -1 && !request.disable && request.closeSequence == 0 && plane.current == 0)
      decreases if client.dropping then 0 else if client.fd < 0 then 1 else 2, 4, 0
    {
      hide CNext, HeldOf, Sole, Core, CRun, Logged, Answers.Severs, Answers.Spares;
      if atomicInFlight {
        return Retry;
      }
      var imported := Ask(kernel.answers.imports);
      if !imported {
        return Unusable;
      }
      var committed, previous := CommitPending();
      CoreFacts();
      if committed == Busy {
        return Retry;
      }
      if committed == Failed {
        return Unusable;
      }
      SendRelease(Release(previous));
      return Shown;
    }

    // -------------------------------------------------------------- draining and dropping

    method FinishDrop()
      requires Core() && Armed() && client.dropping && plane.current == 0 && orphan == 0
      modifies this, pendingReleaseAcks
      ensures Core() && Armed() && orphan == 0 && Continues() && client.fd == -1 && !client.dropping && SourceKept()
      ensures deferred == old(deferred) && given == old(given) && plane == old(plane) && shown == old(shown)
      ensures request == old(request).(closeAfter := false) && retrySource == old(retrySource)
    {
      hide CRun, Logged, HeldOf;
      Abandon();
      Log(CStep.FinishDrop);
      pendingReleaseAcks.Clear();
      client := client.(fd := -1, dropping := false);
      request := request.(closeAfter := false);
    }

    /** Gives the deferred frame back, if there is one, and closes its descriptors. */
    method GiveUpPending()
      requires Core() && Armed() && orphan == 0
      requires LiveClient() && deferred.present ==> !given && deferred.frame != plane.current
      modifies this, pendingReleaseAcks
      ensures Core() && Armed() && orphan == 0 && Continues() && !deferred.present
      ensures WatchKept() && Served()
      ensures LiveClient() || !old(LiveClient()) ==>
                && client == old(client) && plane == old(plane) && request == old(request)
                && retrySource == old(retrySource) && deferred.geometry == old(deferred.geometry)
                && model.closing == old(model.closing) && shown == old(shown)
      ensures old(LiveClient()) && !LiveClient() ==> Dropped()
      ensures old(LiveClient() && deferred.present && kernel.answers.Severs(model.acks, Release(deferred.frame))) ==> !LiveClient()
      ensures old(LiveClient() && (!deferred.present || kernel.answers.Spares(model.acks, Release(deferred.frame)))) ==> LiveClient()
      decreases if client.dropping then 0 else if client.fd < 0 then 1 else 2, 4, 0
    {
      hide CNext, HeldOf, Sole, Core, CRun, Logged, Answers.Severs, Answers.Spares, Answers.Foretold;
      CoreFacts();
      if deferred.present {
        SendRelease(Release(deferred.frame));
        ClosePendingFrame();
      }
    }

    method ForgetClose()
      requires Core() && model.closing in {0, loop.arriving}
      modifies this`request
      ensures Core() && request == old(request).(closeSequence := 0)
    {
      hide CRun, Logged;
      request := request.(closeSequence := 0);
    }

    /** The plane is off and nothing is left to show. */
    predicate Dark()
      reads this
    {
      plane == Plane(0, false, false) && !deferred.present && !deferred.geometry
    }

    /** The first half of videoOverlayDrainPending: a requested disable. */
    method CarryOutDisable() returns (disabled: bool)
      requires Core() && Armed() && orphan == 0 && request.disable
      requires !client.dropping ==> Linked()
      modifies this, pendingReleaseAcks
      ensures Core() && Armed() && orphan == 0 && Continues() && shown == old(shown)
      ensures kernel.answers.CanBlank(atomicInFlight) ==> disabled
      ensures kernel.answers.CannotBlank(atomicInFlight) && old(plane.enabled) ==> !disabled
      ensures WatchKept() && Served()
      ensures !disabled ==>
                && request.disable && retrySource && plane.enabled && old(plane.enabled) && !deferred.present
                && plane == old(plane) && client.fd == old(client.fd) && request.closeSequence == old(request.closeSequence)
                && if old(client.dropping) then Dropped() else Exact()
      ensures disabled ==>
                && (client.fd == old(client.fd) || client.fd == -1) && !client.dropping && !request.disable
                && request.closeSequence == 0 && Dark() && (LiveClient() ==> model.closing == loop.arriving)
      ensures disabled && old(client.dropping) ==> client.fd == -1
      decreases if client.dropping then 0 else if client.fd < 0 then 1 else 2, 5
    {
      hide CNext, HeldOf, Sole, Core, CRun, Logged, Answers.Severs, Answers.Spares, Answers.Foretold;
      CoreFacts();
      var off := GiveUpAll();
      CoreFacts();
      if !off {
        ScheduleDrain();
        return false;
      }
      CompleteDisable();
      CoreFacts();
      return true;
    }

    /** The deferred frame is given back first, then the one on the plane. */
    method GiveUpAll() returns (off: bool)
      requires Core() && Armed() && orphan == 0 && request.disable
      requires !client.dropping ==> Linked()
      modifies this, pendingReleaseAcks
      ensures Core() && Armed() && orphan == 0 && Continues() && shown == old(shown) && !deferred.present
      ensures (kernel.answers.CanBlank(atomicInFlight) ==> off)
              && (kernel.answers.CannotBlank(atomicInFlight) && old(plane.enabled) ==> !off)
      ensures WatchKept() && Served()
      ensures !off ==>
                && request.disable && plane.enabled && plane == old(plane) && client.fd == old(client.fd)
                && request.closeSequence == old(request.closeSequence)
                && (LiveClient() || !old(LiveClient()) ==>
                      client == old(client) && request == old(request) && retrySource == old(retrySource)
                      && model.closing == old(model.closing))
      ensures off ==> plane.current == 0 && !plane.haveFrame
                      && (LiveClient() ==> model.closing == old(model.closing) && request == old(request))
                      && (LiveClient() || !old(LiveClient()) ==> client == old(client))
      ensures client.fd == old(client.fd) || client.fd == -1
      decreases if client.dropping then 0 else if client.fd < 0 then 1 else 2, 5, 0
    {
      hide CNext, HeldOf, Sole, Core, CRun, Logged, Answers.Severs, Answers.Spares;
      CoreFacts();
      GiveUpPending();
      CoreFacts();
      off := Disable();
      CoreFacts();
    }

    method Forget()
      requires Core() && Armed()
      modifies this`request, this`deferred
      ensures Core() && Armed()
      ensures request == old(request).(disable := false) && deferred == old(deferred).(geometry := false)
    {
      hide CRun, Logged;
      request := request.(disable := false);
      deferred := deferred.(geometry := false);
    }

    /** With the plane off, a close request is answered and a lost client is forgotten. */
    method CompleteDisable()
      requires Core() && Armed() && orphan == 0
      requires plane.current == 0 && !plane.haveFrame && !deferred.present
      requires LiveClient() ==> model.closing == if loop.arriving != 0 then loop.arriving else request.closeSequence
      modifies this, pendingReleaseAcks
      ensures Core() && Armed() && orphan == 0 && Continues() && shown == old(shown)
      ensures WatchKept() && Served()
      ensures (client.fd == old(client.fd) || client.fd == -1) && !client.dropping && !request.disable
      ensures request.closeSequence == 0 && plane.current == 0 && !plane.haveFrame && !deferred.present && !deferred.geometry
      ensures LiveClient() ==> model.closing == loop.arriving
      ensures old(client.dropping) ==> client.fd == -1
      decreases if client.dropping then 0 else if client.fd < 0 then 1 else 2, 4
    {
      hide CNext, HeldOf, Sole, Core, CRun, Logged, Answers.Severs, Answers.Spares, Answers.Foretold;
      CoreFacts();
      Forget();
      if request.closeSequence != 0 {
        HeldFrames();
        SendRelease(CloseComplete(request.closeSequence));
        CoreFacts();
        ForgetClose();
      }
      CoreFacts();
      if request.closeAfter {
        FinishDrop();
      }
    }

    /** Nothing that is or was to be displayed changed, nor for whom. */
    twostate predicate Unmoved()
      reads this
    {
      && plane == old(plane) && shown == old(shown) && deferred.geometry == old(deferred.geometry)
      && client == old(client) && request == old(request)
    }

    /**
     The deferred frame's turn: it is displayed, or given back as unusable, or waits again.
     Without a client to lose, nothing else happens.
     */
    method CommitDeferredFrame() returns (result: FrameResult)
      requires Linked() && Armed() && !request.disable && deferred.present
      modifies this, pendingReleaseAcks
      ensures WatchKept() && Served()
      ensures Exact() && Continues() && (client.fd == old(client.fd) || client.fd == -1)
      ensures Processed(result) && (result == Unusable ==> GivenBack())
      ensures result == Unusable && (LiveClient() || !old(LiveClient())) ==> retrySource == old(retrySource)
      decreases if client.dropping || !deferred.present then 0 else if client.fd < 0 then 1 else 2, 5, 0
    {
      hide CNext, HeldOf, Sole, Core, CRun, Logged, Answers.Foretold, Answers.CannotBlank, Answers.CanBlank,
           Answers.Severs, Answers.Spares;
      CoreFacts();
      result := HandleAndClose();
      CoreFacts();
      if result == Retry {
        ScheduleDrain();
      } else if result == Unusable {
        GiveBackUnusable();
      }
    }

    method HandleAndClose() returns (result: FrameResult)
      requires Linked() && Armed() && !request.disable && deferred.present
      modifies this, pendingReleaseAcks
      ensures WatchKept() && Served()
      ensures Linked() && Armed() && Continues() && (client.fd == old(client.fd) || client.fd == -1)
      ensures result != Shown ==> Undisturbed() && SourceKept() && model.acks == old(model.acks)
                                  && kernel.answers.Foretold(atomicInFlight, result)
      ensures result == Shown ==> Exact() && Processed(result)
      decreases if client.dropping || !deferred.present then 0 else if client.fd < 0 then 1 else 2, 4, 1
    {
      hide CNext, HeldOf, Sole, Core, CRun, Logged, Answers.Foretold, Answers.CannotBlank;
      CoreFacts();
      result := HandleFrame();
      CoreFacts();
      if result == Shown {
        FrameDone();
      }
    }

    method GiveBackUnusable()
      requires Linked() && Armed() && !request.disable && deferred.present
      modifies this, pendingReleaseAcks
      ensures WatchKept() && Served()
      ensures Exact() && Continues() && !deferred.present && (client.fd == old(client.fd) || client.fd == -1)
      ensures if LiveClient() || !old(LiveClient()) then Unmoved() && retrySource == old(retrySource) else Lost()
      ensures GivenBack()
      decreases if client.dropping || !deferred.present then 0 else if client.fd < 0 then 1 else 2, 4, 1
    {
      hide CNext, HeldOf, Sole, Core, CRun, Logged, Answers.Severs, Answers.Spares, Answers.CanBlank, Answers.CannotBlank;
      CoreFacts();
      GiveUpPending();
      CoreFacts();
    }

    /** The displayed frame waits no longer, and it was displayed for the present geometry. */
    method FrameDone()
      requires Core() && Armed() && (deferred.present ==> given || deferred.frame == plane.current)
      modifies this`deferred, this`given
      ensures Core() && Armed() && deferred == Deferred(false, old(deferred.frame), false) && !given
    {
      hide CRun, Logged;
      GeometryDone();
      ClosePendingFrame();
    }

    method GeometryDone()
      requires Core() && Armed()
      modifies this`deferred
      ensures Core() && Armed() && deferred == old(deferred).(geometry := false)
    {
      hide CRun, Logged;
      deferred := deferred.(geometry := false);
    }

    /** The current frame is committed again, or a timer will try once more. */
    method CommitGeometry()
      requires Linked() && Armed() && !request.disable && !deferred.present && deferred.geometry && plane.haveFrame
      modifies this`retrySource, this`deferred, this`plane, this`shown, this`model, this`steps
      ensures Exact() && Continues() && Recommitted() && model.acks == old(model.acks)
    {
      hide CNext, HeldOf, Sole, Core, CRun, Logged;
      CoreFacts();
      var committed := CommitCurrent();
      CoreFacts();
      if committed == Visible || committed == Clipped {
        GeometryDone();
      } else {
        ScheduleDrain();
      }
    }

    /** Either the current frame was committed again, or the plane is as it was and a timer is armed. */
    twostate predicate Recommitted()
      reads this, kernel
    {
      && (!atomicInFlight && kernel.answers.commits.Always? ==>
            match kernel.answers.commits.value
            case Visible => !deferred.geometry && plane.enabled
            case Clipped => !deferred.geometry && !plane.enabled
            case _ => deferred.geometry)
      && plane.current == old(plane.current) && plane.haveFrame == old(plane.haveFrame) && client.fd == old(client.fd)
      && request.disable == old(request.disable) && !deferred.present
      && (if deferred.geometry then retrySource && plane.enabled == old(plane.enabled) && shown == old(shown)
          else shown == old(shown) + if plane.enabled then [plane.current] else [])
    }

    /** What became of a deferred frame, whoever else was still waiting for something. */
    twostate predicate Processed(result: FrameResult)
      reads this, kernel
    {
      && kernel.answers.Foretold(atomicInFlight, result)
      && (result == Retry ==>
            && Unmoved() && retrySource && deferred.present && deferred.frame == old(deferred.frame)
            && model.acks == old(model.acks))
      && (result != Retry ==> !deferred.present)
      && (if LiveClient() || !old(LiveClient()) then
            && (result == Unusable ==> Unmoved())
            && (result == Shown ==>
                  && plane.current == old(deferred.frame) && plane.haveFrame && !deferred.geometry && !request.disable
                  && client == old(client) && Displayed()
                  && (kernel.answers.commits.Always? ==> plane.enabled == (kernel.answers.commits.value == Visible)))
          else Lost())
      && (result == Shown ==> ReplacedGivenBack())
      && (result == Shown && old(LiveClient()) && !LiveClient() ==>
            && Rewatched()
            && (kernel.answers.CannotBlank(atomicInFlight) && kernel.answers.commits == Always(Visible) ==> client.dropping))
    }

    /** A client was lost: the plane is off, or a timer will take it off. */
    twostate predicate Lost()
      reads this
    {
      if client.fd == -1 then Dark() && !request.disable && !client.dropping
      else client.fd == old(client.fd) && request.disable && retrySource
    }

    /** An unusable frame is given back, which may cost the client. */
    twostate predicate GivenBack()
      reads this, pendingReleaseAcks, kernel
    {
      && (old(LiveClient() && kernel.answers.Severs(model.acks, Release(deferred.frame))) ==> !LiveClient())
      && (old(LiveClient() && kernel.answers.Spares(model.acks, Release(deferred.frame))) ==> LiveClient())
    }

    /** A requested disable was carried out before anything else, or nothing was done. */
    twostate predicate DisableTried()
      reads this
    {
      && shown == old(shown)
      && (if request.disable then
            && plane.enabled && plane.current == old(plane.current) && !deferred.present && retrySource
            && request.closeSequence == old(request.closeSequence)
          else Dark())
    }

    /** The deferred frame is displayed, or the current one again, if either is due. */
    twostate predicate Advanced()
      reads this
    {
      var due := if old(deferred.present) then old(deferred.frame)
                 else if old(deferred.geometry) then old(plane.current) else 0;
      View() == if due == 0 then old(View()) else Picture(due, 0, old(loop.packet), old(shown) + [due])
    }

    /** What videoOverlayDrainPending has done. */
    twostate predicate Drained(result: FrameResult)
      reads this, kernel
    {
      if old(request.disable) then DisableTried()
      else if old(deferred.present) then Processed(result)
      else if old(deferred.geometry && plane.haveFrame) then Recommitted()
      else Unmoved() && !deferred.present
    }

    /** The second half of videoOverlayDrainPending: the deferred frame, or a changed geometry. */
    method CommitDeferred() returns (result: FrameResult)
      requires Linked() && Armed() && !request.disable
      modifies this, pendingReleaseAcks
      ensures WatchKept() && Served()
      ensures Exact() && Continues() && (client.fd == old(client.fd) || client.fd == -1)
      ensures !old(deferred.present) && !old(deferred.geometry) ==> Undisturbed() && SourceKept()
      ensures Drained(result)
      ensures old(deferred.present) && result == Unusable ==> GivenBack()
      ensures old(atomicInFlight) ==>
                Unmoved() && deferred.present == old(deferred.present) && deferred.frame == old(deferred.frame)
      ensures Lapsed() <==> old(Lapsed() && deferred.present) && result == Unusable && (LiveClient() || !old(LiveClient()))
      decreases if client.dropping || !deferred.present then 0 else if client.fd < 0 then 1 else 2, 5, 1
    {
      hide CNext, HeldOf, Sole, Core, CRun, Logged, Answers.Severs, Answers.Spares;
      CoreFacts();
      result := Retry;
      if atomicInFlight {
        if deferred.present || deferred.geometry {
          ScheduleDrain();
        }
        return;
      }
      if deferred.present {
        result := CommitDeferredFrame();
      } else if deferred.geometry && plane.haveFrame {
        CommitGeometry();
      }
    }

    /**
     videoOverlayDrainPending: carries out a requested disable, then commits the deferred frame
     or the changed geometry.  Called from timers and page flips, and from within a client drop.
     */
    method DrainPending() returns (result: FrameResult)
      requires Core() && Armed() && orphan == 0
      requires if client.dropping then request.disable else Linked()
      modifies this, pendingReleaseAcks
      ensures Core() && Armed() && orphan == 0 && Continues()
      ensures WatchKept() && Served()
      ensures old(client.dropping) ==> Dropped()
      ensures !old(client.dropping) ==> Exact() && (client.fd == old(client.fd) || client.fd == -1)
      ensures Drained(result) && (old(client.fd) >= 0 ==> !Stranded())
      ensures !old(request.disable) && old(deferred.present) && result == Unusable ==> GivenBack()
      ensures old(request.disable) && kernel.answers.CanBlank(atomicInFlight) ==> !request.disable
      ensures old(client.dropping) && !request.disable ==> client.fd == -1
      ensures !old(request.disable) && !old(deferred.present) && !old(deferred.geometry) ==> Undisturbed()
      ensures old(Running()) ==> Running() && Advanced()
      ensures Lapsed() <==> old(Lapsed() && deferred.present && !request.disable) && result == Unusable
                            && (LiveClient() || !old(LiveClient()))
      decreases if client.dropping then 0 else if client.fd < 0 then 1 else 2, 6
    {
      hide CNext, HeldOf, Sole, Core, CRun, Logged, Answers.Severs, Answers.Spares, Answers.Foretold;
      if Running() {
        kernel.answers.SmoothFacts(model.acks, Release(plane.current));
      }
      if request.disable {
        var disabled := CarryOutDisable();
        if !disabled {
          return Retry;
        }
      }
      result := CommitDeferred();
    }

    /** videoOverlayDropClient: stops serving the client; the plane is taken off before it closes. */
    method DropClient()
      requires Core() && orphan == 0
      modifies this, pendingReleaseAcks
      ensures Core() && orphan == 0 && Continues()
      ensures old(client.dropping) ==> Undisturbed() && SourceKept() && given == old(given) && model == old(model)
      ensures !old(client.dropping) ==> Dropped() && !releaseSource && watch.fd == -1
      decreases if client.dropping then 0 else if client.fd < 0 then 1 else 2, 1
    {
      hide CNext, CRun, Logged, HeldOf, Sole, Core;
      if client.dropping {
        return;
      }
      MarkDropping();
      var _ := DrainPending();
    }

    method MarkDropping()
      requires Core() && !client.dropping
      modifies this`client, this`request, this`model, this`steps,
               this`releaseSource, this`watch
      ensures Core() && model == old(model).(dropping := true) && !releaseSource && watch.fd == -1
      ensures client == old(client).(source := false, dropping := true)
      ensures request == old(request).(disable := true, closeAfter := true)
    {
      hide CRun, Logged;
      client := client.(source := false, dropping := true);
      releaseSource := false;
      watch := watch.(fd := -1);
      request := request.(disable := true, closeAfter := true);
      Log(BeginDrop);
    }

    // -------------------------------------------------------------- the receive loop

    /**
     videoOverlayDeferFrame: the received frame replaces the deferred one.  Duplicating its
     descriptors may fail, and then it is given back at once.
     */
    method DeferFrame(sequence: nat) returns (duplicated: bool)
      requires Exact() && sequence == loop.packet != 0
      modifies this, pendingReleaseAcks
      ensures WatchKept()
      ensures Exact() && loop.packet == 0 && LoopKept() && shown == old(shown)
      ensures client.fd == old(client.fd) || client.fd == -1
      ensures duplicated <==> deferred.present
      ensures duplicated ==> deferred.frame == sequence
      ensures kernel.answers.duplicates.Always? ==> duplicated == kernel.answers.duplicates.value
      ensures old(client.fd) >= 0 && client.fd == -1 ==> Vacant()
      ensures duplicated && !old(deferred.present) ==> Unmoved() && SourceKept() && model.acks == old(model.acks)
      ensures duplicated && old(client.fd) >= 0 && client.fd == -1 ==> old(LiveClient() && deferred.present)
      ensures duplicated && old(LiveClient() && deferred.present && kernel.answers.Severs(model.acks, Release(deferred.frame))) ==>
                && (kernel.answers.CanBlank(atomicInFlight) || !old(plane.enabled) ==> client.fd == -1)
                && (kernel.answers.CannotBlank(atomicInFlight) && old(plane.enabled) ==> client.fd >= 0)
      ensures duplicated && old(LiveClient() && deferred.present && kernel.answers.Spares(model.acks, Release(deferred.frame))) ==> client.fd >= 0
      ensures old(Running()) ==> Running() && plane == old(plane) && duplicated
    {
      hide CNext, HeldOf, Sole, Core, CRun, Logged, Linked, Armed;
      MakeRoom();
      duplicated := Ask(kernel.answers.duplicates);
      if !duplicated {
        ReturnPacket(sequence);
        return;
      }
      Defer(sequence);
    }

    /** The plane is off and nothing asks for it; there may be a frame that waits. */
    predicate Vacant()
      reads this
    {
      plane == Plane(0, false, false) && !request.disable && !deferred.geometry
    }

    /** What the receive loop relies on. */
    twostate predicate LoopKept()
      reads this
    {
      && loop.arriving == old(loop.arriving) && origin == old(origin) && atomicInFlight == old(atomicInFlight)
      && model.high == old(model.high) && model.hidden == old(model.hidden)
    }

    /** The frame that waits is given back, which may cost the client. */
    method MakeRoom()
      requires Exact() && loop.packet != 0
      modifies this, pendingReleaseAcks
      ensures WatchKept() && Served()
      ensures Exact() && Continues() && shown == old(shown) && !deferred.present
      ensures client.fd == old(client.fd) || client.fd == -1
      ensures !old(deferred.present) ==> Unmoved() && SourceKept() && model.acks == old(model.acks)
      ensures old(client.fd) >= 0 && client.fd == -1 ==> Vacant() && old(LiveClient() && deferred.present)
      ensures old(LiveClient() && deferred.present && kernel.answers.Severs(model.acks, Release(deferred.frame))) ==>
                && (kernel.answers.CanBlank(atomicInFlight) || !old(plane.enabled) ==> client.fd == -1)
                && (kernel.answers.CannotBlank(atomicInFlight) && old(plane.enabled) ==> client.fd >= 0)
      ensures old(LiveClient() && deferred.present && kernel.answers.Spares(model.acks, Release(deferred.frame))) ==>
                client.fd >= 0
      ensures old(Running()) ==> Running() && plane == old(plane)
    {
      hide CNext, HeldOf, Sole, Core, CRun, Logged, Answers.Severs, Answers.Spares;
      CoreFacts();
      if Running() {
        kernel.answers.SmoothFacts(model.acks, Release(deferred.frame));
      }
      if deferred.present {
        GiveUpPending();
        CoreFacts();
      }
    }

    /** The received frame waits for its commit, and a timer will see to it. */
    method Defer(sequence: nat)
      requires Exact() && sequence == loop.packet != 0 && !deferred.present
      modifies this`loop, this`deferred, this`given, this`retrySource
      ensures Exact() && loop == old(loop).(packet := 0)
      ensures deferred == old(deferred).(present := true, frame := sequence) && retrySource
    {
      hide CNext, HeldOf, Sole, Core, CRun, Logged;
      CoreFacts();
      AttachPending(sequence);
      ScheduleDrain();
    }

    /** Without its descriptors the received frame is given back. */
    method ReturnPacket(sequence: nat)
      requires Exact() && sequence == loop.packet != 0 && !deferred.present
      modifies this, pendingReleaseAcks
      ensures WatchKept()
      ensures Exact() && loop == old(loop).(packet := 0) && !deferred.present && shown == old(shown) && LoopKept()
      ensures client.fd == old(client.fd) || client.fd == -1
      ensures !old(LiveClient()) ==> client == old(client) && plane == old(plane) && request == old(request)
                                     && deferred == old(deferred)
      ensures old(client.fd) >= 0 && client.fd == -1 ==> Vacant()
    {
      hide CNext, HeldOf, Sole, Core, CRun, Logged, Answers.Severs, Answers.Spares, Answers.Foretold;
      CoreFacts();
      DetachPacket(sequence);
      SendRelease(Release(sequence));
      CoreFacts();
    }

    /** The received frame is no longer the loop's, but not yet anybody else's. */
    ghost method DetachPacket(sequence: nat)
      requires Core() && orphan == 0 && sequence == loop.packet != 0 && !deferred.present
      modifies this`loop, this`orphan
      ensures Core() && loop == old(loop).(packet := 0) && orphan == sequence
    {
      hide CRun, Logged;
      loop, orphan := loop.(packet := 0), sequence;
    }

    method AttachPending(sequence: nat)
      requires Core() && orphan == 0 && sequence == loop.packet != 0 && !deferred.present
      modifies this`loop, this`deferred, this`given
      ensures Core() && loop == old(loop).(packet := 0) && !given
      ensures deferred == old(deferred).(present := true, frame := sequence)
    {
      hide CRun, Logged;
      deferred := deferred.(present := true, frame := sequence);
      loop, given := loop.(packet := 0), false;
    }

    /**
     With the kernel's answers foreseen: the frame that waits is replaced by a newer one, giving
     it back breaks the connection, and then the newer one is displayed for nobody.
     */
    ghost predicate WillStrand()
      reads this, kernel
    {
      && LiveClient() && deferred.present && kernel.answers.Severs(model.acks, Release(deferred.frame))
      && (plane.enabled ==> kernel.answers.CanBlank(atomicInFlight))
      && kernel.answers.duplicates == Always(true) && kernel.answers.WillShow(atomicInFlight)
    }

    /** A frame received while no other waits takes its turn at once. */
    twostate predicate TookTurn(sequence: nat, result: FrameResult)
      reads this, kernel
    {
      && kernel.answers.Foretold(atomicInFlight, result)
      && (result == Retry ==> Unmoved() && deferred.present && deferred.frame == sequence && model.acks == old(model.acks))
      && (result == Shown ==> ReplacedGivenBack())
      && (result == Shown && LiveClient() ==>
            && plane.current == sequence && plane.haveFrame && !deferred.present && !deferred.geometry && !request.disable
            && client == old(client) && shown == old(shown) + (if plane.enabled then [sequence] else [])
            && (kernel.answers.commits.Always? ==> plane.enabled == (kernel.answers.commits.value == Visible)))
      && (result == Shown && !LiveClient() ==>
            && Lost() && Rewatched()
            && (kernel.answers.CannotBlank(atomicInFlight) && kernel.answers.commits == Always(Visible) ==> client.dropping))
    }

    predicate Free()
      reads this
    {
      LiveClient() && !deferred.present && !request.disable
    }

    /** Hands the loop's frame over, if it has one. */
    method FlushPacket(sequence: nat) returns (result: FrameResult)
      requires Exact() && sequence == loop.packet
      modifies this, pendingReleaseAcks
      ensures WatchKept()
      ensures Exact() && loop == old(loop).(packet := 0) && LoopKept()
      ensures client.fd == old(client.fd) || client.fd == -1
      ensures Lapsed() ==> old(Lapsed())
      ensures old(client.fd) >= 0 && Stranded() ==>
                && sequence != 0 && old(LiveClient() && deferred.present && !atomicInFlight)
                && shown == old(shown) + [sequence]
      ensures old(client.fd) >= 0 && sequence != 0 && kernel.answers.Foreseen() ==> (Stranded() <==> old(WillStrand()))
      ensures sequence == 0 ==> Untouched() && model == old(model) && result == Unusable
      ensures old(Running()) ==> Running() && View() == Flushed(old(View()))
      ensures sequence != 0 && old(Free()) && kernel.answers.duplicates == Always(true) ==> TookTurn(sequence, result)
    {
      hide CNext, HeldOf, Sole, Core, CRun, Logged, Answers.Severs, Answers.Spares, Answers.Foretold, Exact, TookTurn;
      result := Unusable;
      if sequence == 0 {
        return;
      }
      if kernel.answers.Foreseen() {
        kernel.answers.SeversOrSpares(model.acks, Release(deferred.frame));
      }
      ghost var alone;
      result, alone := HandOver(sequence);
      if alone && kernel.answers.Foreseen() {
        kernel.answers.Foretells(atomicInFlight, result);
        kernel.answers.BlanksOrNot(atomicInFlight);
      }
    }

    /** alone: the frame waited without a client when its turn came. */
    method HandOver(sequence: nat) returns (result: FrameResult, ghost alone: bool)
      requires Exact() && sequence == loop.packet != 0
      modifies this, pendingReleaseAcks
      ensures WatchKept()
      ensures Exact() && loop == old(loop).(packet := 0) && LoopKept()
      ensures client.fd == old(client.fd) || client.fd == -1
      ensures Lapsed() ==> old(Lapsed())
      ensures old(client.fd) >= 0 ==> (Stranded() <==> alone && result == Shown && plane.enabled)
      ensures old(client.fd) >= 0 && Stranded() ==>
                old(LiveClient() && deferred.present && !atomicInFlight) && shown == old(shown) + [sequence]
      ensures alone ==> kernel.answers.Foretold(atomicInFlight, result)
      ensures alone && result == Shown && kernel.answers.commits.Always? ==>
                plane.enabled == (kernel.answers.commits.value == Visible)
      ensures alone && old(client.fd) >= 0 ==> old(LiveClient() && deferred.present)
      ensures alone && kernel.answers.duplicates.Always? ==> kernel.answers.duplicates.value
      ensures old(LiveClient() && deferred.present && kernel.answers.Severs(model.acks, Release(deferred.frame))) ==>
                && (kernel.answers.CannotBlank(atomicInFlight) && old(plane.enabled) ==> !alone)
                && ((kernel.answers.CanBlank(atomicInFlight) || !old(plane.enabled)) && kernel.answers.duplicates == Always(true)
                    ==> alone)
      ensures old(LiveClient() && deferred.present && kernel.answers.Spares(model.acks, Release(deferred.frame))) ==> !alone
      ensures old(Running()) ==> Running() && View() == Flushed(old(View()))
      ensures old(Free()) && kernel.answers.duplicates == Always(true) ==> TookTurn(sequence, result)
    {
      hide CNext, HeldOf, Sole, Core, CRun, Logged, Answers.Severs, Answers.Spares;
      var duplicated := DeferFrame(sequence);
      CoreFacts();
      alone := duplicated && client.fd == -1 && !request.disable;
      result := DrainPending();
    }

    // -------------------------------------------------------------- main-loop events

    /** Between events the kernel may change its mind. */
    method Foresee(answers: Answers)
      requires Valid()
      modifies kernel
      ensures Valid() && kernel.answers == answers
    {
      kernel.answers := answers;
    }

    /** Answers that wait are watched, unless the client inherited a source that polls something else. */
    lemma AnswersAreWatched()
      requires Valid() && LiveClient() && model.acks != []
      ensures releaseSource && (watch.fd == client.fd <==> !watch.inherited)
    {
      hide CRun, Core;
    }

    /** From here on the log of this event is what follows origin. */
    ghost method Begin()
      requires Valid()
      modifies this`origin
      ensures Valid() && origin == steps
    {
      hide CRun;
      origin := steps;
    }

    /** The display's view commits its own plane without waiting for the flip. */
    method PrimaryCommit()
      requires Valid()
      modifies this`atomicInFlight
      ensures Valid() && atomicInFlight
    {
      atomicInFlight := true;
    }

    /** wpeViewDRMDidPageFlip, as far as the overlay is concerned. */
    method PageFlip() returns (result: FrameResult)
      requires Valid()
      modifies this, pendingReleaseAcks
      ensures WatchKept()
      ensures Valid() && old(steps) <= steps && !atomicInFlight
      ensures Drained(result) && !Lapsed() && (old(client.fd) >= 0 ==> !Stranded())
    {
      Begin();
      atomicInFlight := false;
      result := DrainPending();
    }

    /** With the kernel's answers foreseen: the retried frame is given back and the geometry forgotten. */
    ghost predicate WillLapse()
      reads this, kernel
    {
      && deferred.geometry && plane.haveFrame && deferred.present && !request.disable && kernel.answers.WillDiscard(atomicInFlight)
      && (LiveClient() ==> kernel.answers.Spares(model.acks, Release(deferred.frame)))
    }

    /** The 16 ms timer armed by ScheduleDrain. */
    method RetryTimer() returns (result: FrameResult)
      requires Valid() && retrySource
      modifies this, pendingReleaseAcks
      ensures WatchKept()
      ensures Valid() && old(steps) <= steps && atomicInFlight == old(atomicInFlight)
      ensures Drained(result) && (old(client.fd) >= 0 ==> !Stranded())
      ensures old(request.disable) && kernel.answers.CanBlank(atomicInFlight) ==> !request.disable
      ensures old(client.dropping) ==> SourceKept() && (!request.disable ==> client.fd == -1)
      ensures Lapsed() <==> old(deferred.geometry && plane.haveFrame && deferred.present && !request.disable)
                            && result == Unusable && (LiveClient() || !old(LiveClient()))
      ensures kernel.answers.Foreseen() ==> (Lapsed() <==> old(WillLapse()))
    {
      hide CNext, HeldOf, Sole, CRun, Logged, Core, Answers.Severs, Answers.Spares, Answers.Foretold, Answers.WillDiscard,
           Drained, Valid;
      if kernel.answers.Foreseen() {
        kernel.answers.SeversOrSpares(model.acks, Release(deferred.frame));
      }
      ghost var due := deferred.present && !request.disable;
      result := DrainNow();
      if due && kernel.answers.Foreseen() {
        kernel.answers.Foretells(atomicInFlight, result);
      }
    }

    method DrainNow() returns (result: FrameResult)
      requires Valid() && retrySource
      modifies this, pendingReleaseAcks
      ensures WatchKept()
      ensures Valid() && old(steps) <= steps && atomicInFlight == old(atomicInFlight)
      ensures Drained(result) && (old(client.fd) >= 0 ==> !Stranded())
      ensures old(request.disable) && kernel.answers.CanBlank(atomicInFlight) ==> !request.disable
      ensures old(client.dropping) ==> SourceKept() && (!request.disable ==> client.fd == -1)
      ensures Lapsed() <==> old(deferred.geometry && plane.haveFrame && deferred.present && !request.disable)
                            && result == Unusable && (LiveClient() || !old(LiveClient()))
      ensures !old(request.disable) && old(deferred.present) ==>
                kernel.answers.Foretold(atomicInFlight, result) && (result == Unusable ==> GivenBack())
    {
      hide CNext, HeldOf, Sole, CRun, Logged, Core, Answers.Severs, Answers.Spares, Answers.Foretold;
      BeginRetry();
      result := DrainPending();
      LogGrows();
    }

    method BeginRetry()
      requires Valid()
      modifies this`origin, this`retrySource
      ensures Linked() && Armed() && origin == steps && !retrySource && loop == Loop(0, 0)
    {
      hide CRun;
      Begin();
      retrySource := false;
    }

    /** videoOverlayRecommit: the page moved the video. */
    method Recommit() returns (result: FrameResult)
      requires Exact()
      modifies this, pendingReleaseAcks
      ensures WatchKept()
      ensures Exact() && Continues() && (client.fd == old(client.fd) || client.fd == -1)
      ensures old(plane.haveFrame) ==> !Lapsed() && (old(client.fd) >= 0 ==> !Stranded())
      ensures !old(plane.haveFrame) ==> Undisturbed()
      ensures old(plane.haveFrame && !request.disable && !deferred.present) ==> Recommitted()
      ensures old(plane.haveFrame && request.disable) ==> DisableTried()
      ensures old(Running() && plane.haveFrame) ==>
                Running() && View() == Picture(plane.current, 0, old(loop.packet), old(shown) + [plane.current])
                && plane.current == if old(deferred.present) then old(deferred.frame) else old(plane.current)
      ensures old(plane.haveFrame && !request.disable && deferred.present) ==>
                && kernel.answers.Foretold(atomicInFlight, result)
                && (result == Retry ==> MoveWaits())
    {
      hide CNext, HeldOf, Sole, CRun;
      result := Retry;
      if !plane.haveFrame || plane.current == 0 {
        return;
      }
      deferred := deferred.(geometry := true);
      result := DrainPending();
    }

    /** The toolbar or the page moves the video: videoOverlayRecommit from outside the overlay. */
    method MoveVideo() returns (result: FrameResult)
      requires Valid()
      modifies this, pendingReleaseAcks
      ensures WatchKept()
      ensures Valid() && old(steps) <= steps && atomicInFlight == old(atomicInFlight)
      ensures Lapsed() ==> old(Lapsed())
      ensures old(plane.haveFrame && !request.disable && !deferred.present) ==> Recommitted()
      ensures old(plane.haveFrame && !request.disable && deferred.present) && result == Retry ==> MoveWaits()
      ensures old(plane.haveFrame && !request.disable && deferred.present) ==> kernel.answers.Foretold(atomicInFlight, result)
    {
      hide CNext, HeldOf, Sole, CRun, Logged, Core, Answers.Foretold;
      Begin();
      result := Recommit();
      LogGrows();
    }

    /** The changed geometry and the deferred frame both wait. */
    twostate predicate MoveWaits()
      reads this
    {
      && deferred == Deferred(true, old(deferred.frame), true) && retrySource
      && plane == old(plane) && !request.disable && client == old(client) && model.acks == old(model.acks)
    }

    /**
     videoOverlayReleaseWritable: the socket takes answers again, or reports an error.  keep tells
     the main loop whether to go on watching.
     */
    method ReleaseWritable(failed: bool) returns (keep: bool)
      requires Valid() && watch.fd >= 0
      modifies this, pendingReleaseAcks
      ensures Valid() && old(steps) <= steps
      ensures old(LiveClient()) ==> (releaseSource <==> LiveClient() && model.acks != [])
      ensures LiveClient() ==> IsSuffix(model.acks, old(model.acks)) && (keep <==> model.acks != [])
      ensures old(LiveClient()) && failed ==> !LiveClient()
      ensures failed && old(client.dropping) ==>
                && releaseSource && watch.fd == -1 && Unmoved() && retrySource == old(retrySource)
                && deferred == old(deferred) && atomicInFlight == old(atomicInFlight)
    {
      hide CNext, CRun, Logged, Core, HeldOf;
      Begin();
      if failed {
        ReleaseFailed();
        LogGrows();
        return false;
      }
      keep := ReleaseWaiting();
      LogGrows();
    }

    method ReleaseFailed()
      requires Valid()
      modifies this, pendingReleaseAcks
      ensures Valid() && origin == old(origin) && !LiveClient() && watch.fd == -1
      ensures old(client.dropping) ==> Undisturbed() && releaseSource == old(releaseSource)
      ensures !old(client.dropping) ==> !releaseSource
    {
      hide CNext, CRun, Logged, Core, HeldOf;
      CoreFacts();
      DropClient();
      CoreFacts();
      watch := watch.(fd := -1);
    }

    method ReleaseWaiting() returns (keep: bool)
      requires Valid() && watch.fd >= 0
      modifies this, pendingReleaseAcks
      ensures Valid() && origin == old(origin)
      ensures old(LiveClient()) ==> (releaseSource <==> LiveClient() && model.acks != [])
      ensures LiveClient() ==> IsSuffix(model.acks, old(model.acks)) && (keep <==> model.acks != [])
    {
      hide CNext, CRun, Logged, Core, HeldOf, IsSuffix;
      CoreFacts();
      var flushed := FlushReleases();
      CoreFacts();
      if !flushed {
        keep := client.fd >= 0;
        if !keep {
          watch := watch.(fd := -1);
        }
        return;
      }
      releaseSource := false;
      watch := Watch(-1, false);
      return false;
    }

    /** videoOverlayAccept: a new connection replaces the client, unless the plane is still busy. */
    method AcceptClient(fd: nat) returns (served: bool)
      requires Valid()
      modifies this, pendingReleaseAcks
      ensures Valid() && old(steps) <= steps && atomicInFlight == old(atomicInFlight)
      ensures served ==> LiveClient() && client.fd == fd && client.source && model.acks == [] && !request.disable
      ensures served ==> (watch.inherited <==> releaseSource && watch.fd != fd)
      ensures served && old(client.fd) < 0 ==>
                && Carried() && model.high == old(model.high) && !model.hidden && retrySource == old(retrySource)
                && releaseSource == old(releaseSource) && watch.fd == old(watch.fd)
      ensures !served ==> client.fd == old(client.fd) && request.disable
      ensures old(client.fd) < 0 ==> (served <==> !old(request.disable))
      ensures old(client.dropping) ==> !served
      ensures old(LiveClient()) ==> (kernel.answers.CanBlank(atomicInFlight) || !old(plane.enabled) ==> served)
                                    && (kernel.answers.CannotBlank(atomicInFlight) && old(plane.enabled) ==> !served)
    {
      hide CNext, HeldOf, Sole, Core, CRun;
      Begin();
      if client.fd >= 0 {
        DropClient();
      }
      CoreFacts();
      if client.fd >= 0 || request.disable {
        Refuse(fd);
        return false;
      }
      Install(fd);
      return true;
    }

    /** Only the client is another. */
    twostate predicate Carried()
      reads this
    {
      plane == old(plane) && shown == old(shown) && deferred == old(deferred)
    }

    ghost method Refuse(fd: nat)
      requires Core()
      modifies this`model, this`steps
      ensures Core() && model == old(model) && origin <= steps
    {
      Log(Reject(fd));
    }

    method Install(fd: nat)
      requires Valid() && client.fd < 0 && !request.disable
      modifies this`client, this`watch, this`model, this`steps
      ensures Valid() && client == Client(fd, true, false) && origin <= steps
      ensures model == old(model).(client := fd, hidden := false) && model.acks == []
      ensures watch == old(watch).(inherited := releaseSource && watch.fd != fd)
    {
      hide CRun;
      client := client.(fd := fd, source := true);
      watch := watch.(inherited := releaseSource && watch.fd != fd);
      Log(Accept(fd));
    }

    /**
     videoOverlayClientEvent: takes every waiting message.  Only the newest of consecutive frames
     is kept; a close request takes the plane off.  messages is what the socket delivers before
     it runs dry, or ends.
     */
    method ClientEvent(hangup: bool, messages: seq<Down>, ends: bool) returns (result: FrameResult)
      requires Valid() && LiveClient()
      requires Conforms(messages, model.high, model.hidden)
      modifies this, pendingReleaseAcks
      ensures WatchKept()
      ensures Valid() && old(steps) <= steps && atomicInFlight == old(atomicInFlight)
      ensures Lapsed() ==> old(Lapsed())
      ensures Stranded() ==> !hangup && !ends && messages != [] && messages[|messages| - 1].Frame?
      ensures !hangup && !ends && |messages| == 1 && messages[0].Frame? ==>
                && model.high == messages[0].sequence && model.hidden == old(model.hidden)
                && (kernel.answers.Foreseen() ==> (Stranded() <==> old(WillStrand())))
                && (old(Free()) && kernel.answers.duplicates == Always(true) ==> TookTurn(messages[0].sequence, result))
      ensures !hangup && !ends && |messages| == 1 && messages[0].Rect? && LiveClient() ==> RectTaken(result)
      ensures !hangup && !ends && |messages| == 1 && messages[0].Hide? && LiveClient() ==> DisableWanted(messages[0].sequence)
      ensures !hangup && old(Running()) ==>
                var v := Flushed(PlayedAll(old(View()), messages));
                if ends then client.fd == -1 && Dark() && shown == v.shown else Running() && View() == v
    {
      hide CNext, HeldOf, Sole, Core, CRun, Logged, Conforms, PlayedAll, Played, Flushed, Answers.Severs, Answers.Foretold,
           Answers.CanBlank, Answers.CannotBlank, Answers.WillShow, Answers.Smooth, Answers.Spares;
      Begin();
      result := Unusable;
      if hangup {
        DropClient();
        CoreFacts();
        LogGrows();
        return;
      }
      var newest, last, closed := Receive(messages, ends);
      if closed {
        result := LeaveLoop(newest);
        LogGrows();
        return;
      }
      result := FlushPacket(newest);
      if newest == 0 {
        result := last;
      }
      LogGrows();
    }

    /** The messages, one by one, until there are no more or the client is gone. */
    method Receive(messages: seq<Down>, ends: bool) returns (newest: nat, last: FrameResult, closed: bool)
      requires Exact() && loop == Loop(0, 0) && LiveClient()
      requires Conforms(messages, model.high, model.hidden)
      modifies this, pendingReleaseAcks
      ensures WatchKept()
      ensures Exact() && loop == Loop(newest, 0) && origin == old(origin) && atomicInFlight == old(atomicInFlight)
      ensures Lapsed() ==> old(Lapsed())
      ensures !closed ==> !ends && client.fd == old(client.fd)
      ensures newest != 0 && !closed ==> messages != [] && messages[|messages| - 1].Frame?
      ensures |messages| == 1 && messages[0].Frame? && !ends ==>
                && !closed && Untouched() && 0 != newest == messages[0].sequence == model.high
                && model.hidden == old(model.hidden)
      ensures |messages| == 1 && messages[0].Rect? && !closed ==> newest == 0 && RectTaken(last)
      ensures |messages| == 1 && messages[0].Hide? && !closed ==> newest == 0 && DisableWanted(messages[0].sequence)
      ensures old(Running()) ==>
                Running() && View() == PlayedAll(old(View()), messages) && closed == ends
    {
      hide CNext, HeldOf, Sole, Core, CRun, Logged, TookTurn, WillStrand, Played;
      var socketFD := client.fd;
      newest, last := 0, Unusable;
      var i := 0;
      while client.fd == socketFD && i < |messages|
        invariant Exact() && loop == Loop(newest, 0) && origin == old(origin)
        invariant client.fd == socketFD || client.fd == -1
        invariant 0 <= i <= |messages| && Conforms(messages[i..], model.high, model.hidden)
        invariant Lapsed() ==> old(Lapsed())
        invariant WatchKept()
        invariant atomicInFlight == old(atomicInFlight)
        invariant newest != 0 ==> i > 0 && messages[i - 1].Frame?
        invariant i == 0 ==> newest == 0 && Untouched() && model == old(model)
        invariant i == 1 && messages[0].Frame? ==>
                    Untouched() && newest == messages[0].sequence == model.high && model.hidden == old(model.hidden)
        invariant i == 1 && messages[0].Rect? ==> newest == 0 && RectTaken(last)
        invariant i == 1 && messages[0].Hide? ==> newest == 0 && DisableWanted(messages[0].sequence)
        invariant old(Running()) ==> Running() && View() == PlayedAll(old(View()), messages[..i])
        decreases |messages| - i
      {
        assert messages[..i + 1][..i] == messages[..i];
        newest, last := HandleMessage(newest, messages[i]);
        i := i + 1;
      }
      closed := client.fd != socketFD || ends;
      assert i == |messages| ==> messages[..i] == messages;
    }

    /** The connection has ended: the frame in the loop's hands is still displayed, and then the client dropped. */
    method LeaveLoop(newest: nat) returns (result: FrameResult)
      requires Exact() && loop == Loop(newest, 0)
      modifies this, pendingReleaseAcks
      ensures Valid() && origin == old(origin) && atomicInFlight == old(atomicInFlight)
      ensures old(Running()) ==> client.fd == -1 && Dark() && shown == Flushed(old(View())).shown
      ensures !LiveClient() && !Stranded() && (Lapsed() ==> old(Lapsed()))
    {
      hide CNext, HeldOf, Sole, Core, CRun, Logged, WillStrand, TookTurn;
      result := FlushPacket(newest);
      CoreFacts();
      DropClient();
      CoreFacts();
    }

    /** One message of the receive loop; the frame it leaves in the loop's hands is returned. */
    method HandleMessage(previous: nat, message: Down) returns (newest: nat, result: FrameResult)
      requires Exact() && loop == Loop(previous, 0) && client.fd >= 0
      requires !message.Rect? ==> message.sequence > model.high && !model.hidden
      modifies this, pendingReleaseAcks
      ensures WatchKept()
      ensures Exact() && loop == Loop(newest, 0) && origin == old(origin) && atomicInFlight == old(atomicInFlight)
      ensures client.fd == old(client.fd) || client.fd == -1
      ensures model.high == (if message.Rect? then old(model.high) else message.sequence)
      ensures model.hidden == (old(model.hidden) || message.Hide?)
      ensures Lapsed() ==> old(Lapsed())
      ensures newest == if message.Frame? then message.sequence else 0
      ensures message.Frame? && previous == 0 ==> Untouched()
      ensures message.Rect? && previous == 0 ==> RectTaken(result)
      ensures message.Hide? && previous == 0 ==> DisableWanted(message.sequence)
      ensures old(Running()) ==> Running() && View() == Played(old(View()), message)
    {
      hide CNext, HeldOf, Sole, CRun, Logged, Core;
      newest, result := 0, Retry;
      match message {
        case Frame(sequence) =>
          newest := TakeFrame(previous, sequence);
        case Rect =>
          result := HandleRect(previous);
        case Hide(sequence) =>
          HandleHide(previous, sequence);
      }
    }

    /** The page has moved the video: what is on the plane is committed again, or that is due. */
    twostate predicate RectTaken(result: FrameResult)
      reads this, pendingReleaseAcks, kernel
    {
      if !old(plane.haveFrame) then Untouched()
      else if old(request.disable) then DisableTried()
      else if !old(deferred.present) then Recommitted()
      else kernel.answers.Foretold(atomicInFlight, result) && (result == Retry ==> MoveWaits())
    }

    method HandleRect(previous: nat) returns (result: FrameResult)
      requires Exact() && loop == Loop(previous, 0) && client.fd >= 0
      modifies this, pendingReleaseAcks
      ensures WatchKept()
      ensures Exact() && loop == Loop(0, 0) && origin == old(origin) && atomicInFlight == old(atomicInFlight)
      ensures client.fd == old(client.fd) || client.fd == -1
      ensures model.high == old(model.high) && model.hidden == old(model.hidden)
      ensures Lapsed() ==> old(Lapsed())
      ensures previous == 0 ==> RectTaken(result)
      ensures old(Running()) ==> Running() && View() == Played(old(View()), Rect)
    {
      hide CNext, HeldOf, Sole, CRun, Logged, Core, Answers.Foretold, WillStrand, TookTurn;
      TakeRect();
      result := FlushPacket(previous);
      CurrentIsHeld();
      if plane.haveFrame {
        result := Recommit();
      }
    }

    lemma CurrentIsHeld()
      requires Linked()
      ensures plane.haveFrame <==> plane.current != 0
      ensures deferred.present ==> deferred.frame != 0
    {
      hide CRun;
    }

    method HandleHide(previous: nat, sequence: nat)
      requires Exact() && loop == Loop(previous, 0) && client.fd >= 0
      requires sequence > model.high && !model.hidden
      modifies this, pendingReleaseAcks
      ensures WatchKept()
      ensures Exact() && loop == Loop(0, 0) && origin == old(origin) && atomicInFlight == old(atomicInFlight)
      ensures client.fd == old(client.fd) || client.fd == -1
      ensures model.high == sequence && model.hidden && !Lapsed()
      ensures previous == 0 ==> DisableWanted(sequence)
      ensures old(Running()) ==> Running() && View() == Played(old(View()), Hide(sequence))
    {
      hide CNext, HeldOf, Sole, CRun, Logged, Core, Answers.Foretold, WillStrand, TookTurn;
      TakeHide(sequence);
      var _ := FlushPacket(previous);
      RequestDisable(sequence);
    }

    /** Nothing but the log has changed. */
    twostate predicate Untouched()
      reads this, pendingReleaseAcks
    {
      && Unmoved() && SourceKept() && retrySource == old(retrySource) && deferred == old(deferred)
      && model.acks == old(model.acks)
    }

    /** A frame arrives; the one received before it is given back unseen. */
    method TakeFrame(previous: nat, sequence: nat) returns (newest: nat)
      requires Exact() && loop.arriving == 0 && previous == loop.packet && client.fd >= 0
      requires sequence > model.high && !model.hidden
      modifies this, pendingReleaseAcks
      ensures WatchKept()
      ensures Exact() && newest == sequence && loop == Loop(sequence, 0) && origin == old(origin)
      ensures client.fd == old(client.fd) || client.fd == -1
      ensures model.high == sequence && model.hidden == old(model.hidden) && atomicInFlight == old(atomicInFlight)
      ensures Lapsed() ==> old(Lapsed())
      ensures previous == 0 ==> Untouched()
      ensures old(Running()) ==> Running() && View() == old(View()).(packet := sequence)
    {
      hide CNext, HeldOf, Sole, CRun, Logged, Core, Answers.Severs, Answers.Spares, Answers.Foretold;
      CoreFacts();
      if Running() {
        kernel.answers.SmoothFacts(model.acks, Release(previous));
      }
      HoldPacket(sequence);
      CoreFacts();
      if previous != 0 {
        SendRelease(Release(previous));
        CoreFacts();
      }
      newest := sequence;
    }

    /** The frame just read is the loop's; the one before it is about to be given back. */
    method HoldPacket(sequence: nat)
      requires Core() && orphan == 0 && loop.arriving == 0 && client.fd >= 0
      requires sequence > model.high && !model.hidden
      modifies this`loop, this`orphan, this`model, this`steps
      ensures Core() && loop == old(loop).(packet := sequence) && orphan == old(loop.packet)
      ensures model == old(model).(held := old(model.held) + {sequence}, high := sequence)
    {
      hide CRun, Logged;
      Log(TakeMessage(Frame(sequence)));
      orphan := loop.packet;
      loop := loop.(packet := sequence);
    }

    ghost method TakeRect()
      requires Exact() && client.fd >= 0
      modifies this`model, this`steps
      ensures Exact() && model == old(model) && Untouched()
    {
      hide CRun, Logged;
      Log(TakeMessage(Rect));
    }

    ghost method TakeHide(sequence: nat)
      requires Exact() && loop.arriving == 0 && client.fd >= 0
      requires sequence > model.high && !model.hidden
      modifies this`model, this`steps, this`loop
      ensures Exact() && loop == old(loop).(arriving := sequence) && model.high == sequence && model.hidden && Untouched()
    {
      hide CRun, Logged;
      Log(TakeMessage(Hide(sequence)));
      loop := loop.(arriving := sequence);
    }

    /** The plane is off and the close answered, or that is still due, with a timer. */
    twostate predicate DisableWanted(sequence: nat)
      reads this, kernel
    {
      && shown == old(shown)
      && (if request.disable then
            && plane.enabled && plane.current == old(plane.current) && !deferred.present && retrySource
            && request.closeSequence == sequence
          else Dark() && request.closeSequence == 0)
      && (kernel.answers.CanBlank(atomicInFlight) ==> !request.disable)
    }

    method RequestDisable(sequence: nat)
      requires Exact() && loop.arriving == sequence != 0 && loop.packet == 0
      modifies this, pendingReleaseAcks
      ensures WatchKept()
      ensures Exact() && loop == Loop(0, 0) && origin == old(origin)
      ensures model.high == old(model.high) && model.hidden == old(model.hidden)
      ensures client.fd == old(client.fd) || client.fd == -1
      ensures DisableWanted(sequence)
      ensures old(Running()) ==> Running() && View() == Picture(0, 0, 0, old(shown))
      ensures !Lapsed() && atomicInFlight == old(atomicInFlight)
    {
      hide CRun, Logged;
      request := request.(disable := true, closeSequence := sequence);
      loop := loop.(arriving := 0);
      var _ := DrainPending();
    }
  }
}
