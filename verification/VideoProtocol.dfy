/**
 The video hole-punch protocol as a step system.

 Two processes talk over ordered sockets.  Each process is described by its local steps
 (PNext for the decoder side, CNext for the display side); SysNext couples the local steps
 through one FIFO pair per connection.  Every interleaving, every lost connection and every
 failed display commit is a choice of steps, so a property of all step sequences is a property
 of all runs.  The classes in VideoProducer.dfy and VideoConsumer.dfy are proved to take only
 these local steps.
 */
module VideoProtocol {
  import opened VideoWire
  import opened Wrappers

  const MAXIMUM_IN_FLIGHT: nat := 4
  const ACK_LIMIT: nat := 64

  // ---------------------------------------------------------------- the decoder process

  /** socket is a connection number or -1; closing is the pending close request or 0. */
  datatype Producer = Producer(
    socket: int,
    inFlight: set<nat>,
    next: nat,
    closing: nat,
    hideUnsent: bool)

  const PRODUCER_INIT := Producer(-1, {}, 1, 0, false)

  datatype PStep =
    | Connect(connection: nat)
    | SendFrame
    | SkipSequence
    | SendRect
    | RequestClose
    | SendHide
    | TakeAnswer(answer: Up)
    | Disconnect

  function PNext(p: Producer, step: PStep): Option<Producer> {
    match step
    case Connect(connection) =>
      if p.socket < 0 && p.inFlight == {} && p.closing == 0
      then Some(p.(socket := connection)) else None
    case SendFrame =>
      if p.socket >= 0 && p.closing == 0 && |p.inFlight| < MAXIMUM_IN_FLIGHT
      then Some(p.(inFlight := p.inFlight + {p.next}, next := p.next + 1)) else None
    case SkipSequence =>
      Some(p.(next := p.next + 1))
    case SendRect =>
      if p.socket >= 0 then Some(p) else None
    case RequestClose =>
      if p.closing == 0 && p.inFlight != {}
      then Some(p.(closing := p.next, next := p.next + 1, hideUnsent := p.socket >= 0)) else None
    case SendHide =>
      if p.socket >= 0 && p.hideUnsent then Some(p.(hideUnsent := false)) else None
    case TakeAnswer(Release(s)) =>
      if p.socket >= 0 then Some(p.(inFlight := p.inFlight - {s})) else None
    case TakeAnswer(CloseComplete(q)) =>
      if p.socket < 0 then None
      else if q == 0 || q != p.closing then Some(p)
      else Some(p.(socket := -1, closing := 0, hideUnsent := false))
    case Disconnect =>
      Some(p.(socket := -1, hideUnsent := false))
  }

  /** The CloseComplete that arrives before the releases it should follow. */
  predicate Quarantines(p: Producer, step: PStep) {
    step.TakeAnswer? && step.answer.CloseComplete? && p.socket >= 0
    && p.closing != 0 && step.answer.sequence == p.closing && p.inFlight != {}
  }

  // ---------------------------------------------------------------- the display process

  /**
   held: samples received and not given up; scanning: the sample the plane may be reading, or 0;
   acks: answers not yet taken by the socket; hidden: a close request arrived on this connection.
   */
  datatype Consumer = Consumer(
    client: int,
    dropping: bool,
    held: set<nat>,
    scanning: nat,
    acks: seq<Up>,
    closing: nat,
    high: nat,
    hidden: bool)

  const CONSUMER_INIT := Consumer(-1, false, {}, 0, [], 0, 0, false)

  datatype CStep =
    | Accept(connection: nat)
    | Reject(connection: nat)
    | TakeMessage(message: Down)
    | Show(sequence: nat)
    | Blank
    | Retire(sequence: nat)
    | Discard(sequence: nat)
    | QueueClose
    | Repeat(answer: Up)
    | AbandonClose
    | Transmit
    | Overflow(answer: Up)
    | BeginDrop
    | FinishDrop

  predicate Live(c: Consumer) {
    c.client >= 0 && !c.dropping
  }

  function CNext(c: Consumer, step: CStep): Option<Consumer> {
    match step
    case Accept(connection) =>
      if c.client < 0 && !c.dropping
      then Some(c.(client := connection, hidden := false)) else None
    case Reject(_) => Some(c)
    case TakeMessage(Rect) =>
      if c.client >= 0 then Some(c) else None
    case TakeMessage(Frame(s)) =>
      if c.client >= 0 && s > c.high && !c.hidden
      then Some(c.(held := c.held + {s}, high := s)) else None
    case TakeMessage(Hide(q)) =>
      if c.client >= 0 && q > c.high && !c.hidden
      then Some(c.(closing := q, high := q, hidden := true)) else None
    case Show(s) =>
      if s != 0 && s in c.held then Some(c.(scanning := s)) else None
    case Blank => Some(c.(scanning := 0))
    case Retire(s) =>
      if Live(c) && s in c.held && s != c.scanning && |c.acks| < ACK_LIMIT
      then Some(c.(held := c.held - {s}, acks := c.acks + [Release(s)])) else None
    case Discard(s) =>
      if !Live(c) && s in c.held && s != c.scanning then Some(c.(held := c.held - {s})) else None
    case QueueClose =>
      if Live(c) && c.closing != 0 && c.held == {} && c.scanning == 0 && |c.acks| < ACK_LIMIT
      then Some(c.(acks := c.acks + [CloseComplete(c.closing)], closing := 0)) else None
    case Repeat(answer) =>
      if Live(c) && answer in c.acks && c.scanning != answer.sequence
      then Some(if answer.Release? then c.(held := c.held - {answer.sequence}) else c.(closing := 0)) else None
    case AbandonClose =>
      if !Live(c) then Some(c.(closing := 0)) else None
    case Transmit =>
      if c.client >= 0 && c.acks != [] then Some(c.(acks := c.acks[1..])) else None
    case Overflow(answer) =>
      if Live(c) && |c.acks| >= ACK_LIMIT && c.scanning != answer.sequence
      then Some(if answer.Release? then c.(held := c.held - {answer.sequence}) else c.(closing := 0)) else None
    case BeginDrop =>
      if !c.dropping then Some(c.(dropping := true)) else None
    case FinishDrop =>
      if c.dropping && c.scanning == 0 && c.closing == 0
      then Some(c.(client := -1, dropping := false, acks := [])) else None
  }

  // ---------------------------------------------------------------- runs of one process

  function PRun(steps: seq<PStep>): Option<Producer> {
    if steps == [] then Some(PRODUCER_INIT)
    else
      var before := PRun(steps[..|steps| - 1]);
      if before.None? then None else PNext(before.value, steps[|steps| - 1])
  }

  function CRun(steps: seq<CStep>): Option<Consumer> {
    if steps == [] then Some(CONSUMER_INIT)
    else
      var before := CRun(steps[..|steps| - 1]);
      if before.None? then None else CNext(before.value, steps[|steps| - 1])
  }

  lemma PRunSnoc(steps: seq<PStep>, step: PStep)
    requires PRun(steps).Some?
    ensures PRun(steps + [step]) == PNext(PRun(steps).value, step)
  {
    assert (steps + [step])[..|steps|] == steps;
  }

  lemma CRunSnoc(steps: seq<CStep>, step: CStep)
    requires CRun(steps).Some?
    ensures CRun(steps + [step]) == CNext(CRun(steps).value, step)
  {
    assert (steps + [step])[..|steps|] == steps;
  }

  // ---------------------------------------------------------------- the composed system

  /** One socket pair; lost once the display process has stopped serving it. */
  datatype Connection = Connection(down: seq<Down>, up: seq<Up>, lost: bool)

  datatype Sys = Sys(p: Producer, c: Consumer, links: seq<Connection>, accepted: nat)

  const SYS_INIT := Sys(PRODUCER_INIT, CONSUMER_INIT, [], 0)

  datatype Step = P(p: PStep) | C(c: CStep)

  function SendDown(links: seq<Connection>, i: int, m: Down): seq<Connection>
    requires 0 <= i < |links|
  {
    links[i := links[i].(down := links[i].down + [m])]
  }

  function Lose(links: seq<Connection>, i: int): seq<Connection> {
    if 0 <= i < |links| then links[i := links[i].(lost := true)] else links
  }

  /** The socket-side part of a decoder step: None when the sockets do not offer it. */
  function PLinks(s: Sys, step: PStep): Option<seq<Connection>> {
    match step
    case Connect(connection) =>
      if connection == |s.links| then Some(s.links + [Connection([], [], false)]) else None
    case SendFrame =>
      if 0 <= s.p.socket < |s.links| then Some(SendDown(s.links, s.p.socket, Frame(s.p.next))) else None
    case SendRect =>
      if 0 <= s.p.socket < |s.links| then Some(SendDown(s.links, s.p.socket, Rect)) else None
    case SendHide =>
      if 0 <= s.p.socket < |s.links| then Some(SendDown(s.links, s.p.socket, Hide(s.p.closing))) else None
    case TakeAnswer(answer) =>
      if 0 <= s.p.socket < |s.links| && s.links[s.p.socket].up != [] && s.links[s.p.socket].up[0] == answer
      then
        var l := s.links[s.p.socket];
        Some(s.links[s.p.socket := l.(up := l.up[1..])])
      else None
    case _ => Some(s.links)
  }

  /** The socket-side part of a display step. */
  function CLinks(s: Sys, step: CStep): Option<seq<Connection>> {
    match step
    case Accept(connection) =>
      if connection == s.accepted < |s.links| then Some(s.links) else None
    case Reject(connection) =>
      if connection == s.accepted < |s.links| then Some(Lose(s.links, connection)) else None
    case TakeMessage(message) =>
      if 0 <= s.c.client < |s.links| && s.links[s.c.client].down != [] && s.links[s.c.client].down[0] == message
      then
        var l := s.links[s.c.client];
        Some(s.links[s.c.client := l.(down := l.down[1..])])
      else None
    case Transmit =>
      if 0 <= s.c.client < |s.links| && s.c.acks != []
      then
        var l := s.links[s.c.client];
        Some(s.links[s.c.client := l.(up := l.up + [s.c.acks[0]])])
      else None
    case BeginDrop => Some(Lose(s.links, s.c.client))
    case _ => Some(s.links)
  }

  function SysNext(s: Sys, step: Step): Option<Sys> {
    match step
    case P(p) =>
      var local, links := PNext(s.p, p), PLinks(s, p);
      if local.None? || links.None? then None
      else Some(s.(p := local.value, links := links.value))
    case C(c) =>
      var local, links := CNext(s.c, c), CLinks(s, c);
      if local.None? || links.None? then None
      else Some(s.(c := local.value, links := links.value,
                   accepted := if c.Accept? || c.Reject? then s.accepted + 1 else s.accepted))
  }

  function SysRun(steps: seq<Step>): Option<Sys> {
    if steps == [] then Some(SYS_INIT)
    else
      var before := SysRun(steps[..|steps| - 1]);
      if before.None? then None else SysNext(before.value, steps[|steps| - 1])
  }

  function PSteps(steps: seq<Step>): seq<PStep> {
    if steps == [] then []
    else
      var last := steps[|steps| - 1];
      PSteps(steps[..|steps| - 1]) + (if last.P? then [last.p] else [])
  }

  function CSteps(steps: seq<Step>): seq<CStep> {
    if steps == [] then []
    else
      var last := steps[|steps| - 1];
      CSteps(steps[..|steps| - 1]) + (if last.C? then [last.c] else [])
  }

  /** A run of the system is an interleaving of one run of each process. */
  lemma {:induction false} ProjectionsAreLocalRuns(steps: seq<Step>)
    requires SysRun(steps).Some?
    ensures PRun(PSteps(steps)) == Some(SysRun(steps).value.p)
    ensures CRun(CSteps(steps)) == Some(SysRun(steps).value.c)
  {
    if steps != [] {
      var prefix, last := steps[..|steps| - 1], steps[|steps| - 1];
      ProjectionsAreLocalRuns(prefix);
      match last
      case P(p) => PRunSnoc(PSteps(prefix), p); assert CSteps(steps) == CSteps(prefix);
      case C(c) => CRunSnoc(CSteps(prefix), c); assert PSteps(steps) == PSteps(prefix);
    }
  }

  // ---------------------------------------------------------------- counting who has a sample

  function Bit(b: bool): nat {
    if b then 1 else 0
  }

  function Frames(q: seq<Down>, s: nat): nat {
    if q == [] then 0 else Bit(q[0] == Frame(s)) + Frames(q[1..], s)
  }

  function Hides(q: seq<Down>, s: nat): nat {
    if q == [] then 0 else Bit(q[0] == Hide(s)) + Hides(q[1..], s)
  }

  function Releases(q: seq<Up>, s: nat): nat {
    if q == [] then 0 else Bit(q[0] == Release(s)) + Releases(q[1..], s)
  }

  function Completes(q: seq<Up>, s: nat): nat {
    if q == [] then 0 else Bit(q[0] == CloseComplete(s)) + Completes(q[1..], s)
  }

  lemma {:induction false} DownSnoc(q: seq<Down>, m: Down, s: nat)
    ensures Frames(q + [m], s) == Frames(q, s) + Bit(m == Frame(s))
    ensures Hides(q + [m], s) == Hides(q, s) + Bit(m == Hide(s))
  {
    if q == [] {
      assert (q + [m])[1..] == [];
    } else {
      assert (q + [m])[1..] == q[1..] + [m];
      DownSnoc(q[1..], m, s);
    }
  }

  lemma {:induction false} UpConcat(q: seq<Up>, r: seq<Up>, s: nat)
    ensures Releases(q + r, s) == Releases(q, s) + Releases(r, s)
    ensures Completes(q + r, s) == Completes(q, s) + Completes(r, s)
  {
    if q == [] {
      assert q + r == r;
    } else {
      assert (q + r)[1..] == q[1..] + r;
      UpConcat(q[1..], r, s);
    }
  }

  /** Answers about distinct lent samples, and about one close request, are few. */
  lemma {:induction false} AnswersAreFew(q: seq<Up>, lent: set<nat>, closing: set<nat>)
    requires forall s :: Releases(q, s) <= Bit(s in lent)
    requires forall s :: Completes(q, s) <= Bit(s in closing)
    ensures |q| <= |lent| + |closing|
  {
    if q != [] {
      var s := q[0].sequence;
      if q[0].Release? {
        assert Releases(q, s) >= 1;
        assert |lent - {s}| == |lent| - 1;
        forall t
          ensures Releases(q[1..], t) <= Bit(t in lent - {s}) && Completes(q[1..], t) <= Bit(t in closing)
        {
          assert Releases(q, t) <= Bit(t in lent) && Completes(q, t) <= Bit(t in closing);
        }
        AnswersAreFew(q[1..], lent - {s}, closing);
      } else {
        assert Completes(q, s) >= 1;
        assert |closing - {s}| == |closing| - 1;
        forall t
          ensures Releases(q[1..], t) <= Bit(t in lent) && Completes(q[1..], t) <= Bit(t in closing - {s})
        {
          assert Releases(q, t) <= Bit(t in lent) && Completes(q, t) <= Bit(t in closing);
        }
        AnswersAreFew(q[1..], lent, closing - {s});
      }
    }
  }
}
