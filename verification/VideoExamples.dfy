/** Runs of the display process that end where nobody wants it: what VideoConsumer admits is reached. */
module VideoExamples {
  import opened VideoWire
  import opened VideoProtocol
  import opened VideoConsumer
  import opened Wrappers

  /** One frame arrives at a display that is ready for it. */
  method Deliver(v: VideoOverlayState, sequence: nat) returns (result: FrameResult)
    requires v.Valid() && v.LiveClient() && sequence > v.model.high && !v.model.hidden
    modifies v, v.pendingReleaseAcks
    ensures v.Valid() && v.model.high == sequence && !v.model.hidden && v.atomicInFlight == old(v.atomicInFlight)
    ensures v.kernel.answers.Foreseen() ==> (v.Stranded() <==> old(v.WillStrand()))
    ensures old(v.Free()) && v.kernel.answers.duplicates == Always(true) ==> v.TookTurn(sequence, result)
  {
    hide CNext, CRun, VideoOverlayState.Valid, VideoOverlayState.TookTurn, VideoOverlayState.WillStrand;
    assert Conforms([], sequence, v.model.hidden);
    assert [Frame(sequence)][1..] == [];
    result := v.ClientEvent(false, [Frame(sequence)], false);
  }

  method Connected(answers: Answers) returns (v: VideoOverlayState)
    ensures fresh(v) && fresh(v.kernel) && fresh(v.pendingReleaseAcks) && v.Valid() && v.kernel.answers == answers
    ensures v.client == Client(5, true, false) && v.watch.fd == -1 && !v.atomicInFlight
    ensures v.plane == Plane(0, false, false) && !v.deferred.present && !v.request.disable && v.model.acks == []
    ensures v.model.high == 0 && !v.model.hidden
  {
    hide CNext, CRun, VideoOverlayState.Core;
    var kernel := new Kernel();
    kernel.answers := answers;
    v := new VideoOverlayState(kernel);
    var served := v.AcceptClient(5);
  }

  /** The first frame waits because the kernel is busy; giving it back breaks the connection. */
  method DisplaysForNobody() returns (v: VideoOverlayState)
    ensures v.Valid() && v.Stranded()
  {
    hide CNext, CRun, VideoOverlayState.Valid, VideoOverlayState.Drained;
    v := Connected(Answers(Always(Sent), Always(true), Always(true), Always(Busy), Always(true)));
    var _ := Deliver(v, 1);
    v.Foresee(Answers(Always(Broken), Always(true), Always(true), Always(Visible), Always(true)));
    var _ := Deliver(v, 2);
  }

  /** The page moves the video while a frame waits that turns out to be unusable. */
  method ForgetsGeometry() returns (v: VideoOverlayState)
    ensures v.Valid() && v.Lapsed()
  {
    hide CNext, CRun, VideoOverlayState.Valid, VideoOverlayState.Drained;
    v := Connected(Answers(Always(Sent), Always(true), Always(true), Always(Visible), Always(true)));
    var _ := Deliver(v, 1);
    v.Foresee(Answers(Always(Sent), Always(true), Always(true), Always(Busy), Always(true)));
    var _ := Deliver(v, 2);
    var _ := v.MoveVideo();
    v.Foresee(Answers(Always(Sent), Always(true), Always(false), Always(Busy), Always(true)));
    var _ := v.RetryTimer();
  }

  /**
   The plane cannot be taken off when the connection breaks, the source that is attached then
   reports the error, and the next client inherits what is left of it.
   */
  method InheritsSource() returns (v: VideoOverlayState)
    ensures v.Valid() && v.LiveClient() && v.watch == Watch(-1, true)
  {
    hide CNext, CRun, VideoOverlayState.Valid, VideoOverlayState.Drained;
    v := Connected(Answers(Always(Sent), Always(true), Always(true), Always(Visible), Always(false)));
    var _ := Deliver(v, 1);
    v.Foresee(Answers(Always(Broken), Always(true), Always(true), Always(Visible), Always(false)));
    var _ := Deliver(v, 2);
    var _ := v.ReleaseWritable(true);
    v.Foresee(Answers(Always(Broken), Always(true), Always(true), Always(Visible), Always(true)));
    var _ := v.RetryTimer();
    var _ := v.AcceptClient(6);
  }
}
