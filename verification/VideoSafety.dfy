/**
 Safety of the hole-punch protocol over every run.

 Inv is inductive over SysNext.  It accounts for every sample the decoder has lent out: each is
 in exactly one place while its connection is served, and in at most one afterwards.
 */
module VideoSafety {
  import opened VideoWire
  import opened VideoProtocol
  import opened Wrappers

  // ---------------------------------------------------------------- the newest connection

  /**
   What matters of a system state: both processes and the newest connection.
   waiting: the display has not taken it from the backlog; serving: it is the display's client.
   */
  datatype View = View(p: Producer, c: Consumer, down: seq<Down>, up: seq<Up>,
                       lost: bool, waiting: bool, serving: bool)

  function Latest(s: Sys): int {
    |s.links| - 1
  }

  function Of(s: Sys): View {
    if s.links == [] then View(s.p, s.c, [], [], true, false, false)
    else
      var l := s.links[Latest(s)];
      View(s.p, s.c, l.down, l.up, l.lost, s.accepted < |s.links|, 0 <= s.c.client == Latest(s))
  }

  /** What the sockets must offer for a step, seen from the newest connection. */
  ghost predicate Offers(v: View, step: Step) {
    match step
    case P(TakeAnswer(answer)) => v.up != [] && v.up[0] == answer
    case C(TakeMessage(message)) => if v.serving then v.down != [] && v.down[0] == message else message == Rect
    case C(Transmit) => v.serving && v.c.acks != []
    case C(Accept(_)) => v.waiting
    case C(Reject(_)) => v.waiting
    case _ => true
  }

  function FollowP(v: View, step: PStep): View
    requires PNext(v.p, step).Some? && Offers(v, P(step))
  {
    var w := v.(p := PNext(v.p, step).value);
    match step
    case Connect(_) => w.(down := [], up := [], lost := false, waiting := true, serving := false)
    case SendFrame => w.(down := v.down + [Frame(v.p.next)])
    case SendRect => w.(down := v.down + [Rect])
    case SendHide => w.(down := v.down + [Hide(v.p.closing)])
    case TakeAnswer(_) => w.(up := v.up[1..])
    case _ => w
  }

  function FollowC(v: View, step: CStep, newest: bool): View
    requires CNext(v.c, step).Some? && Offers(v, C(step))
  {
    var w := v.(c := CNext(v.c, step).value);
    match step
    case Accept(_) => w.(waiting := !newest, serving := newest)
    case Reject(_) => w.(waiting := !newest, lost := newest)
    case TakeMessage(_) => if v.serving then w.(down := v.down[1..]) else w
    case Transmit => w.(up := v.up + [v.c.acks[0]])
    case BeginDrop => w.(lost := v.lost || v.serving)
    case FinishDrop => w.(serving := false)
    case _ => w
  }

  // ---------------------------------------------------------------- where a sample can be

  /** In how many places sample s is: travelling out, held by the display, travelling back. */
  function Samples(v: View, s: nat): nat {
    Frames(v.down, s) + Bit(s in v.c.held) + Releases(v.c.acks, s) + Releases(v.up, s)
  }

  /** In how many places close request q is: unsent, sent, being carried out, answered. */
  function Closes(v: View, q: nat): nat {
    Bit(v.p.hideUnsent && q == v.p.closing) + Hides(v.down, q) + Bit(v.c.closing == q != 0)
    + Completes(v.c.acks, q) + Completes(v.up, q)
  }

  ghost predicate NoFrames(q: seq<Down>) {
    forall i :: 0 <= i < |q| ==> !q[i].Frame?
  }

  ghost predicate NoHides(q: seq<Down>) {
    forall i :: 0 <= i < |q| ==> !q[i].Hide?
  }

  ghost predicate Quiet(q: seq<Down>) {
    NoFrames(q) && NoHides(q)
  }

  ghost predicate Answered(q: seq<Up>) {
    exists i :: 0 <= i < |q| && q[i].CloseComplete?
  }

  /** Sequence numbers rise above low, and nothing but rectangles follows a close request. */
  ghost predicate Ordered(q: seq<Down>, low: nat) {
    && (forall i :: 0 <= i < |q| && q[i] != Rect ==> low < q[i].sequence)
    && (forall i, j :: 0 <= i < j < |q| && q[i] != Rect && q[j] != Rect ==>
          q[i].Frame? && q[i].sequence < q[j].sequence)
  }

  /** A close answer is the last answer. */
  ghost predicate CloseLast(q: seq<Up>) {
    forall i :: 0 <= i < |q| - 1 ==> q[i].Release?
  }

  ghost predicate Empty(c: Consumer) {
    c.held == {} && c.acks == [] && c.closing == 0 && c.scanning == 0
  }

  // ---------------------------------------------------------------- the invariant

  ghost predicate Roles(v: View) {
    && (v.waiting ==> !v.lost && !v.serving)
    && (!v.waiting ==> (!v.lost <==> v.serving && !v.c.dropping))
    && (v.serving ==> v.c.client >= 0)
    && (v.waiting || (v.c.client >= 0 && !v.serving) ==> Empty(v.c))
    && (v.c.client < 0 ==> v.c.acks == [])
  }

  ghost predicate Numbers(v: View) {
    && v.c.high < v.p.next && v.p.closing < v.p.next
    && (forall x :: x in v.p.inFlight ==> 0 < x < v.p.next)
    && |v.p.inFlight| <= MAXIMUM_IN_FLIGHT
    && (v.p.closing != 0 ==> forall x :: x in v.p.inFlight ==> x < v.p.closing)
    && (v.p.hideUnsent ==> v.p.closing != 0 && v.p.socket >= 0 && v.c.high < v.p.closing)
    && (v.c.scanning != 0 ==> v.c.scanning in v.c.held)
  }

  ghost predicate Accounted(v: View) {
    && (forall s :: Samples(v, s) <= Bit(s in v.p.inFlight))
    && (!v.lost || Answered(v.up + v.c.acks) ==> forall s :: Samples(v, s) == Bit(s in v.p.inFlight))
    && (forall q :: Closes(v, q) <= Bit(q == v.p.closing != 0))
  }

  ghost predicate Closing(v: View) {
    && Ordered(v.down, v.c.high)
    && (v.serving && v.c.hidden ==>
          Quiet(v.down) && !v.p.hideUnsent && (v.p.socket >= 0 ==> v.p.closing != 0))
    && (v.c.closing != 0 ==> NoFrames(v.down) && v.serving && v.c.hidden)
    && CloseLast(v.up + v.c.acks)
    && (Answered(v.up + v.c.acks) ==> v.c.held == {} && v.c.scanning == 0 && NoFrames(v.down))
  }

  ghost predicate Good(v: View) {
    Roles(v) && Numbers(v) && Accounted(v) && Closing(v)
  }

  ghost predicate Shape(s: Sys) {
    && s.accepted <= |s.links|
    && -1 <= s.p.socket <= Latest(s)
    && (s.p.socket >= 0 ==> s.p.socket == Latest(s))
    && -1 <= s.c.client < s.accepted
    && (forall i :: 0 <= i < Latest(s) ==> Quiet(s.links[i].down))
  }

  ghost predicate Inv(s: Sys) {
    Shape(s) && Good(Of(s))
  }

  // ---------------------------------------------------------------- counts and positions

  lemma {:induction false} DownAt(q: seq<Down>, i: nat)
    requires i < |q|
    ensures q[i].Frame? ==> Frames(q, q[i].sequence) > 0
    ensures q[i].Hide? ==> Hides(q, q[i].sequence) > 0
  {
    if i > 0 {
      DownAt(q[1..], i - 1);
    }
  }

  lemma {:induction false} UpAt(q: seq<Up>, i: nat)
    requires i < |q|
    ensures q[i].Release? ==> Releases(q, q[i].sequence) > 0
    ensures q[i].CloseComplete? ==> Completes(q, q[i].sequence) > 0
  {
    if i > 0 {
      UpAt(q[1..], i - 1);
    }
  }

  lemma {:induction false} NoFramesCount(q: seq<Down>, s: nat)
    requires NoFrames(q)
    ensures Frames(q, s) == 0
  {
    if q != [] {
      NoFramesCount(q[1..], s);
    }
  }

  lemma {:induction false} NoReleaseCount(q: seq<Up>, s: nat)
    requires forall i :: 0 <= i < |q| ==> q[i].CloseComplete?
    ensures Releases(q, s) == 0
  {
    if q != [] {
      NoReleaseCount(q[1..], s);
    }
  }

  lemma AnsweredConcat(q: seq<Up>, r: seq<Up>)
    ensures Answered(q + r) <==> Answered(q) || Answered(r)
  {
    if Answered(q) {
      var i :| 0 <= i < |q| && q[i].CloseComplete?;
      assert (q + r)[i] == q[i];
    }
    if Answered(r) {
      var i :| 0 <= i < |r| && r[i].CloseComplete?;
      assert (q + r)[|q| + i] == r[i];
    }
  }

  lemma OrderedSnoc(q: seq<Down>, low: nat, m: Down)
    requires Ordered(q, low)
    requires m != Rect ==> low < m.sequence && forall i :: 0 <= i < |q| && q[i] != Rect ==>
                             q[i].Frame? && q[i].sequence < m.sequence
    ensures Ordered(q + [m], low)
  {
    var r := q + [m];
    assert forall i :: 0 <= i < |q| ==> r[i] == q[i];
  }

  /** A frame in the socket is lent out. */
  lemma FramesAreLent(v: View)
    requires Accounted(v)
    ensures forall i :: 0 <= i < |v.down| && v.down[i].Frame? ==> v.down[i].sequence in v.p.inFlight
  {
    forall i | 0 <= i < |v.down| && v.down[i].Frame?
      ensures v.down[i].sequence in v.p.inFlight
    {
      DownAt(v.down, i);
      assert Samples(v, v.down[i].sequence) > 0;
    }
  }

  /** While a close request has not been sent, no trace of one is anywhere else. */
  lemma CloseUnsent(v: View)
    requires Accounted(v) && (v.p.closing == 0 || v.p.hideUnsent)
    ensures NoHides(v.down) && !Answered(v.up + v.c.acks) && v.c.closing == 0
  {
    forall i | 0 <= i < |v.down|
      ensures !v.down[i].Hide?
    {
      DownAt(v.down, i);
      assert v.down[i].Hide? ==> Closes(v, v.down[i].sequence) > 0;
    }
    forall i | 0 <= i < |v.up + v.c.acks|
      ensures !(v.up + v.c.acks)[i].CloseComplete?
    {
      var m := (v.up + v.c.acks)[i];
      UpAt(v.up + v.c.acks, i);
      UpConcat(v.up, v.c.acks, m.sequence);
      assert m.CloseComplete? ==> Closes(v, m.sequence) > 0;
    }
    assert v.c.closing != 0 ==> Closes(v, v.c.closing) > 0;
  }

  // ---------------------------------------------------------------- decoder steps

  /** An answer on its way is about a lent sample or about the pending close. */
  lemma AnswersAreLent(v: View, i: nat)
    requires Accounted(v) && i < |v.up + v.c.acks|
    ensures (v.up + v.c.acks)[i].Release? ==> (v.up + v.c.acks)[i].sequence in v.p.inFlight
    ensures (v.up + v.c.acks)[i].CloseComplete? ==> (v.up + v.c.acks)[i].sequence == v.p.closing != 0
  {
    var m := (v.up + v.c.acks)[i];
    UpAt(v.up + v.c.acks, i);
    UpConcat(v.up, v.c.acks, m.sequence);
    assert Samples(v, m.sequence) <= Bit(m.sequence in v.p.inFlight);
    assert Closes(v, m.sequence) <= Bit(m.sequence == v.p.closing != 0);
  }

  /** With nothing lent out and no close pending, nobody holds anything of the decoder's. */
  lemma NothingLent(v: View)
    requires Good(v) && v.p.inFlight == {} && v.p.closing == 0
    ensures Empty(v.c) && Quiet(v.down) && v.up == []
  {
    FramesAreLent(v);
    CloseUnsent(v);
    if |v.up + v.c.acks| > 0 {
      AnswersAreLent(v, 0);
      assert false;
    }
    assert forall s :: s in v.c.held ==> Samples(v, s) > 0;
  }

  lemma ConnectGood(v: View, n: nat)
    requires Good(v) && PNext(v.p, Connect(n)).Some?
    ensures Good(FollowP(v, Connect(n)))
    ensures Empty(v.c) && Quiet(v.down)
  {
    NothingLent(v);
  }

  lemma SendFrameAccounted(v: View)
    requires Roles(v) && Numbers(v) && Accounted(v) && PNext(v.p, SendFrame).Some?
    ensures Accounted(FollowP(v, SendFrame))
  {
    hide Frames, Releases, Hides, Completes, Answered;
    var w, n := FollowP(v, SendFrame), v.p.next;
    forall s
      ensures Samples(w, s) == Samples(v, s) + Bit(s == n) && Closes(w, s) == Closes(v, s)
    {
      DownSnoc(v.down, Frame(n), s);
    }
  }

  lemma SendFrameGood(v: View)
    requires Good(v) && PNext(v.p, SendFrame).Some?
    ensures Good(FollowP(v, SendFrame))
  {
    SendFrameAccounted(v);
    FramesAreLent(v);
    CloseUnsent(v);
    OrderedSnoc(v.down, v.c.high, Frame(v.p.next));
  }

  lemma SendHideGood(v: View)
    requires Good(v) && PNext(v.p, SendHide).Some?
    ensures Good(FollowP(v, SendHide))
  {
    var w, n := FollowP(v, SendHide), v.p.closing;
    forall s
      ensures Samples(w, s) == Samples(v, s) && Closes(w, s) == Closes(v, s)
    {
      DownSnoc(v.down, Hide(n), s);
    }
    FramesAreLent(v);
    CloseUnsent(v);
    OrderedSnoc(v.down, v.c.high, Hide(n));
    assert Accounted(w);
  }

  lemma RequestCloseGood(v: View)
    requires Good(v) && PNext(v.p, RequestClose).Some?
    ensures Good(FollowP(v, RequestClose))
  {
    var w := FollowP(v, RequestClose);
    CloseUnsent(v);
    forall s
      ensures Samples(w, s) == Samples(v, s) && Closes(w, s) == Closes(v, s) + Bit(w.p.hideUnsent && s == w.p.closing)
    {
    }
    assert Closes(v, w.p.closing) == 0;
  }

  lemma TakeReleaseAccounted(v: View, n: nat)
    requires Good(v) && PNext(v.p, TakeAnswer(Release(n))).Some? && Offers(v, P(TakeAnswer(Release(n))))
    ensures Accounted(FollowP(v, TakeAnswer(Release(n))))
    ensures n in v.p.inFlight && n !in v.c.held && n != v.c.scanning
  {
    var w := FollowP(v, TakeAnswer(Release(n)));
    forall s
      ensures Samples(w, s) == Samples(v, s) - Bit(s == n) && Closes(w, s) == Closes(v, s)
    {
    }
    assert Samples(v, n) <= Bit(n in v.p.inFlight);
    assert w.up + w.c.acks == (v.up + v.c.acks)[1..];
    assert Answered(w.up + w.c.acks) ==> Answered(v.up + v.c.acks);
  }

  lemma TakeReleaseGood(v: View, n: nat)
    requires Good(v) && PNext(v.p, TakeAnswer(Release(n))).Some? && Offers(v, P(TakeAnswer(Release(n))))
    ensures Good(FollowP(v, TakeAnswer(Release(n))))
  {
    var w := FollowP(v, TakeAnswer(Release(n)));
    TakeReleaseAccounted(v, n);
    assert w.up + w.c.acks == (v.up + v.c.acks)[1..];
    assert Answered(w.up + w.c.acks) ==> Answered(v.up + v.c.acks);
  }

  lemma TakeCompleteGood(v: View, q: nat)
    requires Good(v) && PNext(v.p, TakeAnswer(CloseComplete(q))).Some? && Offers(v, P(TakeAnswer(CloseComplete(q))))
    ensures Good(FollowP(v, TakeAnswer(CloseComplete(q))))
    ensures q == v.p.closing != 0 && v.p.inFlight == {} && v.c.held == {} && v.c.scanning == 0
  {
    var w, pipe := FollowP(v, TakeAnswer(CloseComplete(q))), v.up + v.c.acks;
    assert pipe[0] == CloseComplete(q);
    assert v.up == [CloseComplete(q)] && v.c.acks == [];
    AnswersAreLent(v, 0);
    assert Answered(v.up) && Answered(pipe);
    forall s
      ensures Samples(v, s) == 0
    {
      NoFramesCount(v.down, s);
      NoReleaseCount(v.up, s);
    }
    assert forall s :: s in v.p.inFlight ==> Samples(v, s) == 1;
    forall s
      ensures Samples(w, s) == Samples(v, s) && Closes(w, s) == Closes(v, s) - Bit(s == q)
    {
      assert Closes(v, q) == 1;
    }
    assert Accounted(w);
  }

  lemma SendRectGood(v: View)
    requires Good(v) && PNext(v.p, SendRect).Some?
    ensures Good(FollowP(v, SendRect))
  {
    var w := FollowP(v, SendRect);
    forall s
      ensures Samples(w, s) == Samples(v, s) && Closes(w, s) == Closes(v, s)
    {
      DownSnoc(v.down, Rect, s);
    }
    OrderedSnoc(v.down, v.c.high, Rect);
    assert Accounted(w);
  }

  lemma SkipGood(v: View)
    requires Good(v)
    ensures Good(FollowP(v, SkipSequence))
  {
    var w := FollowP(v, SkipSequence);
    assert forall s :: Samples(w, s) == Samples(v, s) && Closes(w, s) == Closes(v, s);
    hide Samples, Closes, Ordered, CloseLast, Answered, Quiet, NoFrames;
  }

  lemma DisconnectGood(v: View)
    requires Good(v)
    ensures Good(FollowP(v, Disconnect))
  {
    var w := FollowP(v, Disconnect);
    assert forall s :: Samples(w, s) == Samples(v, s) && Closes(w, s) <= Closes(v, s);
    hide Samples, Closes, Ordered, CloseLast, Answered, Quiet, NoFrames;
  }

  lemma DecoderStepGood(v: View, step: PStep)
    requires Good(v) && PNext(v.p, step).Some? && Offers(v, P(step))
    ensures Good(FollowP(v, step))
  {
    hide Good, FollowP;
    match step
    case Connect(n) => ConnectGood(v, n);
    case SendFrame => SendFrameGood(v);
    case SendRect => SendRectGood(v);
    case RequestClose => RequestCloseGood(v);
    case SendHide => SendHideGood(v);
    case TakeAnswer(Release(n)) => TakeReleaseGood(v, n);
    case TakeAnswer(CloseComplete(q)) => TakeCompleteGood(v, q);
    case SkipSequence => SkipGood(v);
    case Disconnect => DisconnectGood(v);
  }

  // ---------------------------------------------------------------- display steps

  lemma TakeFrameGood(v: View, n: nat)
    requires Good(v) && v.c.client >= 0 && Offers(v, C(TakeMessage(Frame(n))))
    ensures CNext(v.c, TakeMessage(Frame(n))).Some?
    ensures Good(FollowC(v, TakeMessage(Frame(n)), false))
  {
    assert v.down[0] == Frame(n);
    var w := FollowC(v, TakeMessage(Frame(n)), false);
    FramesAreLent(v);
    assert Samples(v, n) <= 1;
    forall s
      ensures Samples(w, s) == Samples(v, s) && Closes(w, s) == Closes(v, s)
    {
    }
    assert Accounted(w);
  }

  lemma TakeHideGood(v: View, q: nat)
    requires Good(v) && v.c.client >= 0 && Offers(v, C(TakeMessage(Hide(q))))
    ensures CNext(v.c, TakeMessage(Hide(q))).Some?
    ensures Good(FollowC(v, TakeMessage(Hide(q)), false))
  {
    var w := FollowC(v, TakeMessage(Hide(q)), false);
    DownAt(v.down, 0);
    assert Closes(v, q) == 1 && q == v.p.closing;
    assert v.c.closing != 0 ==> Closes(v, v.c.closing) > 0;
    forall s
      ensures Samples(w, s) == Samples(v, s) && Closes(w, s) == Closes(v, s)
    {
    }
    assert forall i :: 0 <= i < |w.down| ==> w.down[i] == v.down[i + 1];
    assert Accounted(w);
  }

  lemma TakeRectGood(v: View)
    requires Good(v) && v.c.client >= 0 && Offers(v, C(TakeMessage(Rect)))
    ensures Good(FollowC(v, TakeMessage(Rect), false))
  {
    var w := FollowC(v, TakeMessage(Rect), false);
    forall s
      ensures Samples(w, s) == Samples(v, s) && Closes(w, s) == Closes(v, s)
    {
    }
    assert Accounted(w);
  }

  lemma RetireGood(v: View, n: nat)
    requires Good(v) && CNext(v.c, Retire(n)).Some?
    ensures Good(FollowC(v, Retire(n), false))
  {
    var w := FollowC(v, Retire(n), false);
    forall s
      ensures Samples(w, s) == Samples(v, s) && Closes(w, s) == Closes(v, s)
    {
      UpConcat(v.c.acks, [Release(n)], s);
    }
    assert w.up + w.c.acks == v.up + v.c.acks + [Release(n)];
    assert Accounted(w);
  }

  lemma QueueCloseGood(v: View)
    requires Good(v) && CNext(v.c, QueueClose).Some?
    ensures Good(FollowC(v, QueueClose, false))
  {
    var w, q := FollowC(v, QueueClose, false), v.c.closing;
    forall s
      ensures Samples(w, s) == Samples(v, s) && Closes(w, s) == Closes(v, s)
    {
      UpConcat(v.c.acks, [CloseComplete(q)], s);
    }
    assert Closes(v, q) <= 1;
    var pipe := v.up + v.c.acks;
    assert w.up + w.c.acks == pipe + [CloseComplete(q)];
    forall i | 0 <= i < |pipe|
      ensures pipe[i].Release?
    {
      AnswersAreLent(v, i);
      UpAt(pipe, i);
      UpConcat(v.up, v.c.acks, q);
    }
    assert Accounted(w);
  }

  lemma TransmitGood(v: View)
    requires Good(v) && CNext(v.c, Transmit).Some? && Offers(v, C(Transmit))
    ensures Good(FollowC(v, Transmit, false))
  {
    var w, m := FollowC(v, Transmit, false), v.c.acks[0];
    forall s
      ensures Samples(w, s) == Samples(v, s) && Closes(w, s) == Closes(v, s)
    {
      UpConcat(v.up, [m], s);
    }
    assert w.up + w.c.acks == v.up + v.c.acks;
    assert Accounted(w);
  }

  lemma DiscardGood(v: View, n: nat)
    requires Good(v) && CNext(v.c, Discard(n)).Some?
    ensures Good(FollowC(v, Discard(n), false))
  {
    var w := FollowC(v, Discard(n), false);
    AnsweredConcat(v.up, v.c.acks);
    forall s
      ensures Samples(w, s) <= Samples(v, s) && Closes(w, s) == Closes(v, s)
    {
    }
    assert Accounted(w);
  }

  lemma BeginDropGood(v: View)
    requires Good(v) && CNext(v.c, BeginDrop).Some?
    ensures Good(FollowC(v, BeginDrop, false))
  {
    var w := FollowC(v, BeginDrop, false);
    assert forall s :: Samples(w, s) == Samples(v, s) && Closes(w, s) == Closes(v, s);
    assert Accounted(w);
  }

  lemma FinishDropGood(v: View)
    requires Good(v) && CNext(v.c, FinishDrop).Some?
    ensures Good(FollowC(v, FinishDrop, false))
  {
    var w := FollowC(v, FinishDrop, false);
    AnsweredConcat(v.up, v.c.acks);
    if Answered(v.up) {
      var i :| 0 <= i < |v.up| && v.up[i].CloseComplete?;
      assert (v.up + v.c.acks)[i] == v.up[i];
    }
    forall s
      ensures Samples(w, s) <= Samples(v, s) && Closes(w, s) <= Closes(v, s)
      ensures Answered(v.up) ==> Samples(w, s) == Samples(v, s)
    {
    }
    assert Accounted(w);
    assert w.up + w.c.acks == v.up;
    assert CloseLast(v.up) by {
      assert forall i :: 0 <= i < |v.up| ==> (v.up + v.c.acks)[i] == v.up[i];
    }
  }

  /** An answer that is already queued is about nothing the display still has. */
  lemma RepeatIsVoid(v: View, answer: Up)
    requires Accounted(v) && answer in v.c.acks
    ensures answer.Release? ==> answer.sequence !in v.c.held
    ensures answer.CloseComplete? ==> answer.sequence != v.c.closing || v.c.closing == 0
  {
    var i :| 0 <= i < |v.c.acks| && v.c.acks[i] == answer;
    UpAt(v.c.acks, i);
    assert Samples(v, answer.sequence) <= 1 && Closes(v, answer.sequence) <= 1;
  }

  /** At most one answer per lent sample, and one about the close, is waiting. */
  lemma AckBacklog(v: View)
    requires Accounted(v) && Numbers(v)
    ensures |v.c.acks| <= MAXIMUM_IN_FLIGHT + 1
  {
    forall s
      ensures Releases(v.c.acks, s) <= Bit(s in v.p.inFlight)
      ensures Completes(v.c.acks, s) <= Bit(s in {v.p.closing})
    {
      assert Samples(v, s) <= Bit(s in v.p.inFlight);
      assert Closes(v, s) <= Bit(s == v.p.closing != 0);
    }
    AnswersAreFew(v.c.acks, v.p.inFlight, {v.p.closing});
  }

  lemma PlaneStepGood(v: View, step: CStep, newest: bool)
    requires Good(v) && CNext(v.c, step).Some? && Offers(v, C(step))
    requires step.Show? || step.Blank? || step.AbandonClose? || step.Accept? || step.Reject? || step.Repeat? || step.Overflow?
    ensures Good(FollowC(v, step, newest))
  {
    var w := FollowC(v, step, newest);
    if step.Repeat? {
      RepeatIsVoid(v, step.answer);
    } else if step.Overflow? {
      AckBacklog(v);
      assert false;
    }
    assert forall s :: Samples(w, s) == Samples(v, s) && Closes(w, s) <= Closes(v, s);
    if step.Show? && Answered(v.up + v.c.acks) {
      assert false;
    }
    assert Accounted(w);
  }

  lemma DisplayStepGood(v: View, step: CStep, newest: bool)
    requires Good(v) && CNext(v.c, step).Some? && Offers(v, C(step))
    ensures Good(FollowC(v, step, newest))
  {
    hide Good;
    match step
    case TakeMessage(Frame(n)) => TakeFrameGood(v, n);
    case TakeMessage(Hide(q)) => TakeHideGood(v, q);
    case TakeMessage(Rect) => TakeRectGood(v);
    case Retire(n) => RetireGood(v, n);
    case Discard(n) => DiscardGood(v, n);
    case QueueClose => QueueCloseGood(v);
    case Transmit => TransmitGood(v);
    case BeginDrop => BeginDropGood(v);
    case FinishDrop => FinishDropGood(v);
    case _ => PlaneStepGood(v, step, newest);
  }

  // ---------------------------------------------------------------- runs

  /** The newest connection sees every decoder step. */
  lemma DecoderStepFollowed(s: Sys, step: PStep, t: Sys)
    requires Inv(s) && SysNext(s, P(step)) == Some(t)
    ensures Offers(Of(s), P(step)) && Of(t) == FollowP(Of(s), step)
  {
    if step.Connect? {
      assert t.links[Latest(t)] == Connection([], [], false);
    }
  }

  lemma DecoderStepShape(s: Sys, step: PStep, t: Sys)
    requires Inv(s) && SysNext(s, P(step)) == Some(t)
    ensures Shape(t)
  {
    if step.Connect? {
      ConnectGood(Of(s), step.connection);
      forall i | 0 <= i < Latest(t)
        ensures Quiet(t.links[i].down)
      {
        assert t.links[i] == s.links[i];
        assert i == Latest(s) ==> s.links[i].down == Of(s).down;
      }
    }
  }

  /** The newest connection sees every display step; an older one only delivers rectangles. */
  lemma DisplayStepFollowed(s: Sys, step: CStep, t: Sys) returns (newest: bool)
    requires Inv(s) && SysNext(s, C(step)) == Some(t)
    ensures Offers(Of(s), C(step)) && Of(t) == FollowC(Of(s), step, newest)
  {
    newest := (step.Accept? || step.Reject?) && step.connection == Latest(s);
    if step.TakeMessage? && s.c.client < Latest(s) {
      assert Quiet(s.links[s.c.client].down);
      assert s.links[s.c.client].down[0] == Rect;
    }
  }

  lemma DisplayStepShape(s: Sys, step: CStep, t: Sys)
    requires Inv(s) && SysNext(s, C(step)) == Some(t)
    ensures Shape(t)
  {
    forall i | 0 <= i < Latest(t)
      ensures Quiet(t.links[i].down)
    {
      assert Quiet(s.links[i].down);
    }
  }

  lemma StepKeepsInv(s: Sys, step: Step, t: Sys)
    requires Inv(s) && SysNext(s, step) == Some(t)
    ensures Inv(t)
  {
    match step
    case P(p) =>
      DecoderStepFollowed(s, p, t);
      DecoderStepShape(s, p, t);
      DecoderStepGood(Of(s), p);
    case C(c) =>
      var newest := DisplayStepFollowed(s, c, t);
      DisplayStepShape(s, c, t);
      DisplayStepGood(Of(s), c, newest);
  }

  lemma {:induction false} RunsKeepInv(steps: seq<Step>)
    requires SysRun(steps).Some?
    ensures Inv(SysRun(steps).value)
  {
    if steps != [] {
      RunsKeepInv(steps[..|steps| - 1]);
      StepKeepsInv(SysRun(steps[..|steps| - 1]).value, steps[|steps| - 1], SysRun(steps).value);
    }
  }

  // ---------------------------------------------------------------- main results

  /** What the decoder may not recycle: everything it has lent and not been given back. */
  predicate Retained(s: Sys, sample: nat) {
    sample in s.p.inFlight
  }

  /**
   In every run, the sample the plane may be reading and every sample the display still holds
   is retained by the decoder.
   */
  lemma PlaneNeverScansARecycledSample(steps: seq<Step>)
    requires SysRun(steps).Some?
    ensures var s := SysRun(steps).value;
      && (s.c.scanning != 0 ==> Retained(s, s.c.scanning))
      && (forall sample :: sample in s.c.held ==> Retained(s, sample))
  {
    RunsKeepInv(steps);
    var v := Of(SysRun(steps).value);
    assert forall sample :: sample in v.c.held ==> Samples(v, sample) > 0;
  }

  /**
   While the newest connection is served, or waits to be, every lent sample is in exactly one
   place; afterwards in at most one.  So no sample is ever released twice.
   */
  lemma EverySampleIsInOnePlace(steps: seq<Step>, sample: nat)
    requires SysRun(steps).Some?
    ensures var s := SysRun(steps).value;
      && Samples(Of(s), sample) <= Bit(Retained(s, sample))
      && (!Of(s).lost ==> Samples(Of(s), sample) == Bit(Retained(s, sample)))
  {
    RunsKeepInv(steps);
  }

  /** The decoder lends at most four samples, and at most five answers ever wait: no overflow. */
  lemma QueuesAreBounded(steps: seq<Step>)
    requires SysRun(steps).Some?
    ensures var s := SysRun(steps).value;
      && |s.p.inFlight| <= MAXIMUM_IN_FLIGHT
      && |s.c.acks| <= MAXIMUM_IN_FLIGHT + 1
      && (forall answer :: SysNext(s, C(Overflow(answer))) == None)
  {
    RunsKeepInv(steps);
    AckBacklog(Of(SysRun(steps).value));
  }

  /**
   A close answer reaches the decoder only when it has everything back and the plane is blank,
   so the "close ACK preceded release ACKs" quarantine is unreachable.
   */
  lemma CloseIsLast(steps: seq<Step>, answer: Up)
    requires SysRun(steps).Some? && SysNext(SysRun(steps).value, P(TakeAnswer(answer))).Some?
    requires answer.CloseComplete?
    ensures var s := SysRun(steps).value;
      && answer.sequence == s.p.closing != 0
      && s.p.inFlight == {} && s.c.held == {} && s.c.scanning == 0
      && !Quarantines(s.p, TakeAnswer(answer))
  {
    RunsKeepInv(steps);
    TakeCompleteGood(Of(SysRun(steps).value), answer.sequence);
  }

  /** A release reaches the decoder only for a lent sample the display has given up. */
  lemma ReleaseIsForALentSample(steps: seq<Step>, answer: Up)
    requires SysRun(steps).Some? && SysNext(SysRun(steps).value, P(TakeAnswer(answer))).Some?
    requires answer.Release?
    ensures var s := SysRun(steps).value;
      && Retained(s, answer.sequence)
      && answer.sequence !in s.c.held && answer.sequence != s.c.scanning
  {
    RunsKeepInv(steps);
    TakeReleaseAccounted(Of(SysRun(steps).value), answer.sequence);
  }

  /** The decoder reconnects only when the display holds nothing of its and shows nothing. */
  lemma ReconnectFindsNothingHeld(steps: seq<Step>, n: nat)
    requires SysRun(steps).Some? && SysNext(SysRun(steps).value, P(Connect(n))).Some?
    ensures Empty(SysRun(steps).value.c)
  {
    RunsKeepInv(steps);
    ConnectGood(Of(SysRun(steps).value), n);
  }

  /**
   Whatever a socket delivers, the display's local rules allow taking it: sequence numbers rise,
   and no frame follows a close request.  This discharges what VideoConsumer assumes of its peer.
   */
  lemma DeliveredMessagesConform(steps: seq<Step>)
    requires SysRun(steps).Some?
    ensures var s := SysRun(steps).value;
      0 <= s.c.client < |s.links| && s.links[s.c.client].down != [] ==>
        SysNext(s, C(TakeMessage(s.links[s.c.client].down[0]))).Some?
  {
    RunsKeepInv(steps);
    var s := SysRun(steps).value;
    if 0 <= s.c.client < |s.links| && s.links[s.c.client].down != [] {
      var m := s.links[s.c.client].down[0];
      if s.c.client < Latest(s) {
        assert Quiet(s.links[s.c.client].down);
      } else {
        match m
        case Frame(n) => TakeFrameGood(Of(s), n);
        case Hide(q) => TakeHideGood(Of(s), q);
        case Rect =>
      }
    }
  }
}
