/**
 The life of one page frame in the view: the phases it passes, and the FrameDone it is owed.
 The ticket is a value: the view copies it whole from queue to commit.
 */
module FrameLifecycle {

  datatype FramePhase = Retired | Queued | WaitingFence | Preparing | Ready | Submitted | Presented

  datatype FrameTicket = FrameTicket(serial: nat, buffer: nat, epoch: nat, phase: FramePhase, rendered: bool)
  {
    predicate Allows(next: FramePhase) {
      || (phase == Queued && (next == WaitingFence || next == Preparing))
      || (phase == WaitingFence && next == Preparing)
      || (phase == Preparing && next == Ready)
      || (phase == Ready && next == Submitted)
      || (phase == Submitted && next == Presented)
      || (next == Retired && phase != Submitted)
    }

    function Advance(next: FramePhase): (FrameTicket, bool) {
      if Allows(next) then (this.(phase := next), true) else (this, false)
    }

    function Complete(expected: nat): (FrameTicket, bool) {
      if serial == 0 || serial != expected || rendered then (this, false) else (this.(rendered := true), true)
    }
  }

  const NO_TICKET := FrameTicket(0, 0, 0, Retired, false)

  function Accept(serial: nat, buffer: nat, epoch: nat): FrameTicket {
    FrameTicket(serial, buffer, epoch, Queued, false)
  }

  // ---------------------------------------------------------------- what any use of a ticket leads to

  datatype TicketUse = Advancing(next: FramePhase) | Completing(expected: nat)

  function Used(t: FrameTicket, uses: seq<TicketUse>): FrameTicket {
    if uses == [] then t
    else
      var before := Used(t, uses[..|uses| - 1]);
      match uses[|uses| - 1]
      case Advancing(next) => before.Advance(next).0
      case Completing(expected) => before.Complete(expected).0
  }

  /** How many completions the uses grant; each one is a FrameDone. */
  function Granted(t: FrameTicket, uses: seq<TicketUse>): nat {
    if uses == [] then 0
    else
      var before := Used(t, uses[..|uses| - 1]);
      Granted(t, uses[..|uses| - 1]) +
      match uses[|uses| - 1]
      case Advancing(_) => 0
      case Completing(expected) => if before.Complete(expected).1 then 1 else 0
  }

  /** The phases entered, in order. */
  function Entered(t: FrameTicket, uses: seq<TicketUse>): seq<FramePhase> {
    if uses == [] then []
    else
      var before := Used(t, uses[..|uses| - 1]);
      Entered(t, uses[..|uses| - 1]) +
      match uses[|uses| - 1]
      case Advancing(next) => if before.Advance(next).1 then [next] else []
      case Completing(_) => []
  }

  /** A frame is completed exactly once however often completion is tried, and only under its own serial. */
  lemma {:induction false} CompletesOnce(serial: nat, buffer: nat, epoch: nat, uses: seq<TicketUse>)
    ensures var t := Accept(serial, buffer, epoch);
      && Granted(t, uses) == (if serial != 0 && Completing(serial) in uses then 1 else 0)
      && Used(t, uses).rendered == (Granted(t, uses) == 1)
      && Used(t, uses).serial == serial
  {
    if uses != [] {
      var n := |uses| - 1;
      CompletesOnce(serial, buffer, epoch, uses[..n]);
      assert uses == uses[..n] + [uses[n]];
    }
  }

  /** The routes to each phase. */
  predicate Route(entered: seq<FramePhase>, phase: FramePhase) {
    match phase
    case Queued => entered == []
    case WaitingFence => entered == [WaitingFence]
    case Preparing => entered == [Preparing] || entered == [WaitingFence, Preparing]
    case Ready => entered == [Preparing, Ready] || entered == [WaitingFence, Preparing, Ready]
    case Submitted => entered == [Preparing, Ready, Submitted] || entered == [WaitingFence, Preparing, Ready, Submitted]
    case Presented => entered == [Preparing, Ready, Submitted, Presented]
                      || entered == [WaitingFence, Preparing, Ready, Submitted, Presented]
    case Retired => entered != [] && entered[|entered| - 1] == Retired
  }

  /** A frame is presented only after it was prepared, readied and submitted, in that order. */
  lemma {:induction false} PhasesInOrder(serial: nat, buffer: nat, epoch: nat, uses: seq<TicketUse>)
    ensures var t := Accept(serial, buffer, epoch); Route(Entered(t, uses), Used(t, uses).phase)
  {
    if uses != [] {
      PhasesInOrder(serial, buffer, epoch, uses[..|uses| - 1]);
    }
  }
}
