/**
 Runs of the recogniser under its driver: what is delivered to the page, and what a toggle proves.

 Touch frames are numbered by arrival.  The driver dispatches passed frames, retracts a
 speculative stream when the recogniser asks for it, replays the buffer when a candidate fails and
 drops it when the toolbar toggles.
 */
module GestureRuns {
  import opened TouchGesture
  import opened GestureSoundness

  /** Resync: the touch device was closed, dropped events, or replaced a finger within a frame. */
  datatype Event = Touch(frame: TouchFrame, enabled: bool) | Timer(now: int) | Resync

  datatype Output = Dispatch(frame: nat) | Retract(from: nat, until: nat) | Swallow(from: nat, until: nat)

  /** base numbers the first buffered frame. */
  datatype Driver = Driver(g: Recogniser, arrived: nat, base: nat, out: seq<Output>)

  const START := Driver(FRESH, 0, 0, [])

  function Replays(from: nat, until: nat): seq<Output>
    requires from <= until
    decreases until
  {
    if from == until then [] else Replays(from, until - 1) + [Dispatch(until - 1)]
  }

  function DriveTouch(c: Config, d: Driver, f: TouchFrame, enabled: bool): Driver {
    var (h, action) := HandleStep(c, d.g, f, enabled);
    var base := if d.g.frames == [] then d.arrived else d.base;
    match action
    case Pass => Driver(h, d.arrived + 1, base, d.out + [Dispatch(d.arrived)])
    case SpeculativePass => Driver(h, d.arrived + 1, base, d.out + [Dispatch(d.arrived)])
    case CancelBuffer => Driver(h, d.arrived + 1, base, d.out + [Retract(base, d.arrived)])
    case Replay => Driver(ResetStep(h), d.arrived + 1, base, d.out + Replays(base, base + |h.frames|))
    case _ => Driver(h, d.arrived + 1, base, d.out)
  }

  function DriveTimer(c: Config, d: Driver, now: int): Driver {
    var (h, action) := ExpireStep(c, d.g, now);
    match action
    case Replay => d.(g := ResetStep(h), out := d.out + Replays(d.base, d.base + |h.frames|))
    case Toggle => d.(g := ResetStep(h), out := d.out + [Swallow(d.base, d.base + |h.frames|)])
    case _ => d.(g := h)
  }

  /** The buffer is forgotten; what the page has seen stands, although its open contacts are cancelled. */
  function DriveResync(d: Driver): Driver {
    d.(g := ResetStep(d.g))
  }

  function Drive(c: Config, d: Driver, e: Event): Driver {
    match e
    case Touch(f, enabled) => DriveTouch(c, d, f, enabled)
    case Timer(now) => DriveTimer(c, d, now)
    case Resync => DriveResync(d)
  }

  function Run(c: Config, events: seq<Event>): Driver {
    if events == [] then START
    else Drive(c, Run(c, events[..|events| - 1]), events[|events| - 1])
  }

  // ---------------------------------------------------------------- who has seen a frame

  /** How often frame i has been dispatched and not retracted. */
  function Delivered(out: seq<Output>, i: nat): int {
    if out == [] then 0
    else
      var before := Delivered(out[..|out| - 1], i);
      match out[|out| - 1]
      case Dispatch(n) => if n == i then before + 1 else before
      case Retract(from, until) => if from <= i < until then before - 1 else before
      case Swallow(_, _) => before
  }

  /** How often frame i was consumed by a toggle. */
  function Swallowed(out: seq<Output>, i: nat): int {
    if out == [] then 0
    else
      var before := Swallowed(out[..|out| - 1], i);
      match out[|out| - 1]
      case Swallow(from, until) => if from <= i < until then before + 1 else before
      case _ => before
  }

  lemma OutputsAppend(out: seq<Output>, o: Output, i: nat)
    ensures Delivered(out + [o], i) == Delivered(out, i) + (match o
                                                           case Dispatch(n) => if n == i then 1 else 0
                                                           case Retract(from, until) => if from <= i < until then -1 else 0
                                                           case Swallow(_, _) => 0)
    ensures Swallowed(out + [o], i) == Swallowed(out, i) + (if o.Swallow? && o.from <= i < o.until then 1 else 0)
  {
    assert (out + [o])[..|out|] == out;
  }

  lemma {:induction false} OutputsReplay(out: seq<Output>, from: nat, until: nat, i: nat)
    requires from <= until
    ensures Delivered(out + Replays(from, until), i) == Delivered(out, i) + (if from <= i < until then 1 else 0)
    ensures Swallowed(out + Replays(from, until), i) == Swallowed(out, i)
    decreases until
  {
    if from == until {
      assert out + [] == out;
    } else {
      OutputsReplay(out, from, until - 1, i);
      assert out + Replays(from, until) == (out + Replays(from, until - 1)) + [Dispatch(until - 1)];
      OutputsAppend(out + Replays(from, until - 1), Dispatch(until - 1), i);
    }
  }

  predicate Buffered(d: Driver, i: nat) {
    d.g.frames != [] && d.base <= i < d.arrived
  }

  /** Frame i is accounted for: still buffered, delivered once, or consumed once. */
  predicate Settled(d: Driver, i: nat) {
    if i >= d.arrived then Delivered(d.out, i) == 0 && Swallowed(d.out, i) == 0
    else if Buffered(d, i) then Delivered(d.out, i) == (if d.g.speculative then 1 else 0) && Swallowed(d.out, i) == 0
    else Delivered(d.out, i) + Swallowed(d.out, i) == 1 && 0 <= Delivered(d.out, i) && 0 <= Swallowed(d.out, i)
  }

  predicate Consistent(g: Recogniser) {
    && |g.frames| <= MAX_BUFFERED_FRAMES
    && (g.frames == [] <==> g.phase == Idle)
    && (g.phase == Idle ==> !g.speculative && !g.haveReference)
    && (g.speculative ==> g.phase == WaitPair && !g.haveReference)
  }

  ghost predicate Ledger(d: Driver) {
    && Consistent(d.g)
    && (d.g.frames != [] ==> d.base + |d.g.frames| == d.arrived)
    && forall i: nat :: Settled(d, i)
  }

  /**
   What breaks exactly-once delivery: a frame that does not fit the buffer, a third finger while
   the first one's stream is passed through speculatively, and a resynchronised device while
   frames wait in the buffer that the page has not seen.
   */
  predicate Irregular(d: Driver, e: Event) {
    match e
    case Touch(f, enabled) =>
      && d.g.phase != Idle
      && (|d.g.frames| >= MAX_BUFFERED_FRAMES || (d.g.speculative && enabled && Active(f.contacts) > 2))
    case Timer(_) => false
    case Resync => d.g.frames != [] && !d.g.speculative
  }

  lemma HandleConsistent(c: Config, g: Recogniser, f: TouchFrame, enabled: bool)
    requires Consistent(g)
    ensures var (h, action) := HandleStep(c, g, f, enabled);
      && action != Toggle
      && (action != Replay ==> Consistent(h))
      && (action == Replay ==> g.phase != Idle)
      && (action == Replay && g.speculative ==>
            |g.frames| >= MAX_BUFFERED_FRAMES || (enabled && Active(f.contacts) > 2))
      && (action == Pass ==> g.phase == Idle && h == g)
      && (action == CancelBuffer ==> g.speculative && !h.speculative && h.frames == g.frames + [f])
      && (action == Buffer ==> !g.speculative && !h.speculative && h.frames == g.frames + [f])
      && (action == SpeculativePass ==>
            (h.frames == [] && g.speculative) || (h.frames == g.frames + [f] && h.speculative
                                                  && (g.frames == [] || g.speculative)))
      && (action == Replay ==> h.frames == if |g.frames| >= MAX_BUFFERED_FRAMES then g.frames else g.frames + [f])
  {
    hide Active, Downs, ActivePoints, NearReference, FirstMoved, PairMoved, Effective;
  }

  /** The frame just received settles, and so do the buffered ones. */
  lemma TouchSettles(c: Config, d: Driver, f: TouchFrame, enabled: bool, i: nat)
    requires Ledger(d) && !Irregular(d, Touch(f, enabled)) && HandleStep(c, d.g, f, enabled).1 != Replay
    ensures Settled(DriveTouch(c, d, f, enabled), i)
  {
    hide HandleStep, Delivered, Swallowed, Active;
    HandleConsistent(c, d.g, f, enabled);
    assert Settled(d, i);
    OutputsAppend(d.out, Dispatch(d.arrived), i);
    OutputsAppend(d.out, Retract(d.base, d.arrived), i);
  }

  lemma ReplaySettles(c: Config, d: Driver, f: TouchFrame, enabled: bool, i: nat)
    requires Ledger(d) && !Irregular(d, Touch(f, enabled)) && HandleStep(c, d.g, f, enabled).1 == Replay
    ensures Settled(DriveTouch(c, d, f, enabled), i)
  {
    hide HandleStep, Delivered, Swallowed, Active;
    HandleConsistent(c, d.g, f, enabled);
    assert Settled(d, i);
    OutputsReplay(d.out, d.base, d.base + |HandleStep(c, d.g, f, enabled).0.frames|, i);
  }

  lemma TouchKeepsLedger(c: Config, d: Driver, f: TouchFrame, enabled: bool)
    requires Ledger(d) && !Irregular(d, Touch(f, enabled))
    ensures Ledger(DriveTouch(c, d, f, enabled))
  {
    hide HandleStep, Active, Delivered, Swallowed, Settled;
    HandleConsistent(c, d.g, f, enabled);
    forall i: nat
      ensures Settled(DriveTouch(c, d, f, enabled), i)
    {
      if HandleStep(c, d.g, f, enabled).1 == Replay {
        ReplaySettles(c, d, f, enabled, i);
      } else {
        TouchSettles(c, d, f, enabled, i);
      }
    }
  }

  lemma ExpireFrames(c: Config, g: Recogniser, now: int)
    requires Consistent(g)
    ensures var (h, action) := ExpireStep(c, g, now);
      && action in {Pass, Replay, Toggle}
      && (action != Pass ==> h.frames == g.frames != [] && !g.speculative)
      && (action == Pass ==> h == g || (g.speculative && h == ResetStep(g)))
  {
  }

  lemma TimerKeepsLedger(c: Config, d: Driver, now: int)
    requires Ledger(d)
    ensures Ledger(DriveTimer(c, d, now))
  {
    hide ExpireStep, Delivered, Swallowed;
    ExpireFrames(c, d.g, now);
    var (h, action) := ExpireStep(c, d.g, now);
    forall i: nat
      ensures Settled(DriveTimer(c, d, now), i)
    {
      assert Settled(d, i);
      match action
      case Replay => OutputsReplay(d.out, d.base, d.base + |h.frames|, i);
      case Toggle => OutputsAppend(d.out, Swallow(d.base, d.base + |h.frames|), i);
      case _ =>
    }
  }

  lemma ResyncKeepsLedger(d: Driver)
    requires Ledger(d) && !(d.g.frames != [] && !d.g.speculative)
    ensures Ledger(DriveResync(d))
  {
    hide Delivered, Swallowed;
    forall i: nat
      ensures Settled(DriveResync(d), i)
    {
      assert Settled(d, i);
    }
  }

  /** Frame i has left the buffer and was not accounted for once. */
  predicate Broken(d: Driver, i: nat) {
    && Consistent(d.g)
    && (d.g.frames != [] ==> d.base + |d.g.frames| == d.arrived && i < d.base)
    && i < d.arrived && Delivered(d.out, i) + Swallowed(d.out, i) != 1
  }

  /** Nothing that comes later makes up for it. */
  lemma BrokenStays(c: Config, d: Driver, e: Event, i: nat)
    requires Broken(d, i)
    ensures Broken(Drive(c, d, e), i)
  {
    hide HandleStep, Delivered, Swallowed;
    match e
    case Touch(f, enabled) =>
      HandleConsistent(c, d.g, f, enabled);
      var base := if d.g.frames == [] then d.arrived else d.base;
      OutputsAppend(d.out, Dispatch(d.arrived), i);
      OutputsAppend(d.out, Retract(base, d.arrived), i);
      OutputsReplay(d.out, base, base + |HandleStep(c, d.g, f, enabled).0.frames|, i);
    case Timer(now) =>
      ExpireFrames(c, d.g, now);
      var until := d.base + |ExpireStep(c, d.g, now).0.frames|;
      OutputsReplay(d.out, d.base, until, i);
      OutputsAppend(d.out, Swallow(d.base, until), i);
    case Resync =>
  }

  /** An irregular event loses a frame, or the speculative stream is delivered twice. */
  lemma IrregularBreaks(c: Config, d: Driver, e: Event) returns (i: nat)
    requires Ledger(d) && Irregular(d, e)
    ensures Broken(Drive(c, d, e), i)
  {
    if e.Resync? {
      i := d.base;
      assert Settled(d, i);
    } else {
      var (h, action) := HandleStep(c, d.g, e.frame, e.enabled);
      assert action == Replay;
      i := if |d.g.frames| >= MAX_BUFFERED_FRAMES then d.arrived else d.base;
      assert Settled(d, i);
      OutputsReplay(d.out, d.base, d.base + |h.frames|, i);
    }
  }

  /** Exactly the irregular events break the ledger. */
  lemma LedgerIff(c: Config, d: Driver, e: Event)
    requires Ledger(d)
    ensures Ledger(Drive(c, d, e)) <==> !Irregular(d, e)
  {
    if Irregular(d, e) {
      var i := IrregularBreaks(c, d, e);
      BrokenLedger(Drive(c, d, e), i);
    } else {
      match e
      case Touch(f, enabled) => TouchKeepsLedger(c, d, f, enabled);
      case Timer(now) => TimerKeepsLedger(c, d, now);
      case Resync => ResyncKeepsLedger(d);
    }
  }

  // ---------------------------------------------------------------- main results

  predicate Regular(c: Config, events: seq<Event>) {
    forall n :: 0 <= n < |events| ==> !Irregular(Run(c, events[..n]), events[n])
  }

  lemma RegularPrefix(c: Config, events: seq<Event>)
    requires events != []
    ensures var n := |events| - 1;
      Regular(c, events) <==> Regular(c, events[..n]) && !Irregular(Run(c, events[..n]), events[n])
  {
    hide Irregular, Run;
    var n := |events| - 1;
    forall k | 0 <= k < n
      ensures events[..n][..k] == events[..k] && events[..n][k] == events[k]
    {
    }
  }

  /**
   Every touch frame of a run is still buffered, or was delivered exactly once and not consumed,
   or was consumed by a toggle and not delivered: exactly when no event was irregular.
   */
  lemma {:induction false} EveryFrameIsDeliveredOnce(c: Config, events: seq<Event>)
    ensures Ledger(Run(c, events)) <==> Regular(c, events)
  {
    if Regular(c, events) {
      RegularRun(c, events);
    } else {
      var i := IrregularRun(c, events);
    }
  }

  lemma {:induction false} RegularRun(c: Config, events: seq<Event>)
    requires Regular(c, events)
    ensures Ledger(Run(c, events))
  {
    if events != [] {
      RegularPrefix(c, events);
      RegularRun(c, events[..|events| - 1]);
      LedgerIff(c, Run(c, events[..|events| - 1]), events[|events| - 1]);
    }
  }

  lemma {:induction false} IrregularRun(c: Config, events: seq<Event>) returns (i: nat)
    requires !Regular(c, events)
    ensures Broken(Run(c, events), i)
    ensures !Ledger(Run(c, events))
  {
    var n := |events| - 1;
    RegularPrefix(c, events);
    var d, e := Run(c, events[..n]), events[n];
    if Regular(c, events[..n]) {
      RegularRun(c, events[..n]);
      i := IrregularBreaks(c, d, e);
    } else {
      i := IrregularRun(c, events[..n]);
      BrokenStays(c, d, e, i);
    }
    BrokenLedger(Run(c, events), i);
  }

  lemma BrokenLedger(d: Driver, i: nat)
    requires Broken(d, i)
    ensures !Ledger(d)
  {
    hide Delivered, Swallowed;
    assert !Settled(d, i);
  }

  // ---------------------------------------------------------------- arrival order

  function Without(net: seq<nat>, from: nat, until: nat): seq<nat> {
    if net == [] then []
    else
      var last := net[|net| - 1];
      Without(net[..|net| - 1], from, until) + if from <= last < until then [] else [last]
  }

  /** What the page is left with: the frames dispatched and not retracted, as they came. */
  function Net(out: seq<Output>): seq<nat> {
    if out == [] then []
    else
      var before := Net(out[..|out| - 1]);
      match out[|out| - 1]
      case Dispatch(n) => before + [n]
      case Retract(from, until) => Without(before, from, until)
      case Swallow(_, _) => before
  }

  predicate Increasing(s: seq<nat>) {
    forall i, j :: 0 <= i < j < |s| ==> s[i] < s[j]
  }

  predicate Below(s: seq<nat>, bound: nat) {
    forall i :: 0 <= i < |s| ==> s[i] < bound
  }

  lemma OrderSnoc(s: seq<nat>, x: nat)
    requires Increasing(s) && Below(s, x)
    ensures Increasing(s + [x]) && Below(s + [x], x + 1)
  {
  }

  /** Taking back the frames from `from` on leaves the earlier ones. */
  lemma {:induction false} WithoutKeepsOrder(net: seq<nat>, from: nat, until: nat)
    requires Increasing(net) && Below(net, until)
    ensures Increasing(Without(net, from, until)) && Below(Without(net, from, until), from)
  {
    if net != [] {
      var before, last := net[..|net| - 1], net[|net| - 1];
      assert Below(before, last);
      WithoutKeepsOrder(before, from, until);
      if last < from {
        WithoutNothing(before, from, until);
      }
    }
  }

  lemma {:induction false} WithoutMembers(net: seq<nat>, from: nat, until: nat, i: nat)
    ensures i in Without(net, from, until) <==> i in net && !(from <= i < until)
  {
    if net != [] {
      WithoutMembers(net[..|net| - 1], from, until, i);
      assert net == net[..|net| - 1] + [net[|net| - 1]];
    }
  }

  lemma {:induction false} WithoutNothing(net: seq<nat>, from: nat, until: nat)
    requires Below(net, from)
    ensures Without(net, from, until) == net
  {
    if net != [] {
      WithoutNothing(net[..|net| - 1], from, until);
      assert net == net[..|net| - 1] + [net[|net| - 1]];
    }
  }

  lemma NetAppend(out: seq<Output>, o: Output)
    ensures o.Dispatch? ==> Net(out + [o]) == Net(out) + [o.frame]
    ensures o.Retract? ==> Net(out + [o]) == Without(Net(out), o.from, o.until)
    ensures o.Swallow? ==> Net(out + [o]) == Net(out)
  {
    assert (out + [o])[..|out|] == out;
  }

  /** Net and Delivered speak of the same frames. */
  ghost predicate Matches(out: seq<Output>) {
    forall i: nat :: Delivered(out, i) == if i in Net(out) then 1 else 0
  }

  lemma MatchesDispatch(out: seq<Output>, n: nat)
    requires Matches(out) && Below(Net(out), n)
    ensures Matches(out + [Dispatch(n)])
  {
    forall i: nat
      ensures Delivered(out + [Dispatch(n)], i) == if i in Net(out + [Dispatch(n)]) then 1 else 0
    {
      OutputsAppend(out, Dispatch(n), i);
      NetAppend(out, Dispatch(n));
    }
  }

  lemma MatchesRetract(out: seq<Output>, from: nat, until: nat)
    requires Matches(out) && forall i :: from <= i < until ==> Delivered(out, i) == 1
    ensures Matches(out + [Retract(from, until)])
  {
    forall i: nat
      ensures Delivered(out + [Retract(from, until)], i) == if i in Net(out + [Retract(from, until)]) then 1 else 0
    {
      OutputsAppend(out, Retract(from, until), i);
      NetAppend(out, Retract(from, until));
      WithoutMembers(Net(out), from, until, i);
    }
  }

  lemma MatchesSwallow(out: seq<Output>, from: nat, until: nat)
    requires Matches(out)
    ensures Matches(out + [Swallow(from, until)])
  {
    forall i: nat
      ensures Delivered(out + [Swallow(from, until)], i) == if i in Net(out + [Swallow(from, until)]) then 1 else 0
    {
      OutputsAppend(out, Swallow(from, until), i);
      NetAppend(out, Swallow(from, until));
    }
  }

  lemma {:induction false} NetReplay(out: seq<Output>, from: nat, until: nat)
    requires from <= until && Increasing(Net(out)) && Below(Net(out), from) && Matches(out)
    ensures Matches(out + Replays(from, until))
    ensures Increasing(Net(out + Replays(from, until))) && Below(Net(out + Replays(from, until)), until)
    decreases until
  {
    hide Net, Increasing, Below, Matches, Delivered;
    if from == until {
      assert out + [] == out;
    } else {
      NetReplay(out, from, until - 1);
      assert out + Replays(from, until) == (out + Replays(from, until - 1)) + [Dispatch(until - 1)];
      NetAppend(out + Replays(from, until - 1), Dispatch(until - 1));
      OrderSnoc(Net(out + Replays(from, until - 1)), until - 1);
      MatchesDispatch(out + Replays(from, until - 1), until - 1);
    }
  }

  /** In arrival order, and nothing that is buffered out of the page's sight is in it. */
  ghost predicate Ordered(d: Driver) {
    && Increasing(Net(d.out)) && Matches(d.out)
    && Below(Net(d.out), if d.g.frames != [] && !d.g.speculative then d.base else d.arrived)
  }

  lemma TouchKeepsOrder(c: Config, d: Driver, f: TouchFrame, enabled: bool)
    requires Ledger(d) && Ordered(d) && !Irregular(d, Touch(f, enabled))
    ensures Ordered(DriveTouch(c, d, f, enabled))
  {
    hide HandleStep, Net, Without, Increasing, Below, Settled, Active, Replays, Matches;
    HandleConsistent(c, d.g, f, enabled);
    var (h, action) := HandleStep(c, d.g, f, enabled);
    if action == CancelBuffer {
      NetAppend(d.out, Retract(d.base, d.arrived));
      WithoutKeepsOrder(Net(d.out), d.base, d.arrived);
      SpeculativeSeen(d);
      MatchesRetract(d.out, d.base, d.arrived);
    } else if action == Replay {
      NetReplay(d.out, d.base, d.base + |h.frames|);
    } else if action != Buffer {
      NetAppend(d.out, Dispatch(d.arrived));
      OrderSnoc(Net(d.out), d.arrived);
      MatchesDispatch(d.out, d.arrived);
    }
  }

  lemma SpeculativeSeen(d: Driver)
    requires Ledger(d) && d.g.speculative
    ensures forall i :: d.base <= i < d.arrived ==> Delivered(d.out, i) == 1
  {
    hide Delivered, Swallowed;
    forall i | d.base <= i < d.arrived
      ensures Delivered(d.out, i) == 1
    {
      assert Settled(d, i);
    }
  }

  lemma OthersKeepOrder(c: Config, d: Driver, e: Event)
    requires Ledger(d) && Ordered(d) && !e.Touch? && !Irregular(d, e)
    ensures Ordered(Drive(c, d, e))
  {
    hide Net, Without, Matches;
    if e.Timer? {
      var (h, action) := ExpireStep(c, d.g, e.now);
      ExpireFrames(c, d.g, e.now);
      hide ExpireStep;
      match action
      case Replay =>
        if !d.g.speculative {
          NetReplay(d.out, d.base, d.base + |h.frames|);
        }
      case Toggle =>
        NetAppend(d.out, Swallow(d.base, d.base + |h.frames|));
        MatchesSwallow(d.out, d.base, d.base + |h.frames|);
      case _ =>
    }
  }

  /**
   In a regular run the page is left with the delivered frames, each once, in their order of
   arrival.
   */
  lemma {:induction false} DeliveriesComeInOrder(c: Config, events: seq<Event>)
    requires Regular(c, events)
    ensures Ledger(Run(c, events)) && Ordered(Run(c, events))
  {
    if events != [] {
      var n := |events| - 1;
      RegularPrefix(c, events);
      var d, e := Run(c, events[..n]), events[n];
      DeliveriesComeInOrder(c, events[..n]);
      RegularRun(c, events);
      hide Ledger, Ordered, Irregular, Regular;
      match e
      case Touch(f, enabled) => TouchKeepsOrder(c, d, f, enabled);
      case _ => OthersKeepOrder(c, d, e);
    } else {
      RegularRun(c, events);
    }
  }

  // ---------------------------------------------------------------- what a toggle proves

  predicate Clocked(events: seq<Event>) {
    forall n :: 0 <= n < |events| && events[n].Touch? ==> events[n].frame.time > 0
  }

  /** Some tap of the candidate under way began with a frame that came after the gap's deadline. */
  predicate Late(c: Config, events: seq<Event>) {
    events != [] && Run(c, events).g.phase != Idle &&
    var n := |events| - 1;
    || Late(c, events[..n])
    || (events[n].Touch? && StartsLate(Run(c, events[..n]).g, events[n].frame))
  }

  ghost predicate SomeGapOverdue(c: Config, fs: seq<TouchFrame>, s: Story) {
    exists t :: Overdue(c, fs, s, t)
  }

  /**
   Whatever was buffered at any time is a story of taps, in time exactly when no frame came late.
   */
  lemma {:induction false} RunExplained(c: Config, events: seq<Event>) returns (s: Story)
    requires Clocked(events)
    ensures Explained(c, Run(c, events).g, s, !Late(c, events))
    ensures Late(c, events) ==> SomeGapOverdue(c, Run(c, events).g.frames, s)
  {
    if events == [] {
      ResetExplained(c, FRESH, true);
      s := NO_STORY;
    } else {
      var n := |events| - 1;
      var d, late := Run(c, events[..n]), Late(c, events[..n]);
      s := RunExplained(c, events[..n]);
      hide Explained, HandleStep, ExpireStep, SomeGapOverdue;
      match events[n]
      case Touch(f, enabled) => s := TouchExplained(c, d, s, f, enabled, late);
      case Timer(now) => s := TimerExplained(c, d, s, now, late);
      case Resync =>
        ResetExplained(c, d.g, true);
        s := NO_STORY;
    }
  }

  lemma TouchExplained(c: Config, d: Driver, s: Story, f: TouchFrame, enabled: bool, late: bool) returns (s': Story)
    requires Explained(c, d.g, s, !late) && f.time > 0
    requires late ==> SomeGapOverdue(c, d.g.frames, s)
    ensures var h := DriveTouch(c, d, f, enabled).g;
      var late' := h.phase != Idle && (late || StartsLate(d.g, f));
      Explained(c, h, s', !late') && (late' ==> SomeGapOverdue(c, h.frames, s'))
  {
    hide Explained, HandleStep, SomeGapOverdue, StartsLate;
    var g, q := d.g, !(late || StartsLate(d.g, f));
    var (h, action) := HandleStep(c, g, f, enabled);
    if !late {
      GapsMayBeIgnored(c, g, s, q);
    }
    s' := HandleExplained(c, g, s, f, enabled, q);
    if action == Replay {
      ResetExplained(c, h, true);
      s' := NO_STORY;
    } else if h.phase == Idle {
      IdleForgets(c, h, s', q);
    } else if !q {
      StoryContinues(c, g, s, f, enabled, s', late);
    }
  }

  lemma TimerExplained(c: Config, d: Driver, s: Story, now: int, late: bool) returns (s': Story)
    requires Explained(c, d.g, s, !late) && (late ==> SomeGapOverdue(c, d.g.frames, s))
    ensures var h := DriveTimer(c, d, now).g;
      var late' := h.phase != Idle && late;
      Explained(c, h, s', !late') && (late' ==> SomeGapOverdue(c, h.frames, s'))
  {
    hide Explained, ExpireStep, SomeGapOverdue;
    var (h, action) := ExpireStep(c, d.g, now);
    ExpireAnswers(c, d.g, now);
    ResetExplained(c, h, true);
    s' := NO_STORY;
    if action == Pass {
      ExpireExplained(c, d.g, s, now, !late);
      s' := if h.phase == Idle then NO_STORY else s;
      if h.phase == Idle {
        IdleForgets(c, h, s', !late);
      }
    }
  }

  lemma IdleForgets(c: Config, g: Recogniser, s: Story, p: bool)
    requires Explained(c, g, s, p) && g.phase == Idle
    ensures Explained(c, g, s, true)
  {
  }

  /** A longer story keeps an overdue gap, and a late start adds one. */
  lemma StoryContinues(c: Config, g: Recogniser, s: Story, f: TouchFrame, enabled: bool, s': Story, late: bool)
    requires var (h, action) := HandleStep(c, g, f, enabled);
      && action != Replay && h.phase != Idle
      && (g.phase != Idle ==> Continues(s, s') && (StartsLate(g, f) ==> s'.a == s.a + [|g.frames|]))
    requires Explained(c, g, s, false)
    requires late ==> SomeGapOverdue(c, g.frames, s)
    requires late || StartsLate(g, f)
    ensures SomeGapOverdue(c, HandleStep(c, g, f, enabled).0.frames, s')
  {
    hide Explained, HandleStep, Downs, SomeGapOverdue;
    if late {
      var t := OverdueGap(c, g, s);
      FramesGrow(c, g, f, enabled);
      OverdueKept(c, g.frames, f, s, t, s');
    } else {
      FramesGrow(c, g, f, enabled);
      GapDeadline(c, g, s);
      OverdueAdded(c, g.frames, f, s, s');
    }
  }

  lemma OverdueGap(c: Config, g: Recogniser, s: Story) returns (t: nat)
    requires Explained(c, g, s, false) && SomeGapOverdue(c, g.frames, s)
    ensures Overdue(c, g.frames, s, t) && g.phase != Idle
  {
    IdleHasNoStory(c, g, s);
    hide Explained;
    t :| Overdue(c, g.frames, s, t);
  }

  lemma OverdueKept(c: Config, fs: seq<TouchFrame>, f: TouchFrame, s: Story, t: nat, s': Story)
    requires Overdue(c, fs, s, t) && Continues(s, s')
    ensures SomeGapOverdue(c, fs + [f], s')
  {
    assert Overdue(c, fs + [f], s', t);
  }

  lemma OverdueAdded(c: Config, fs: seq<TouchFrame>, f: TouchFrame, s: Story, s': Story)
    requires |s.a| == |s.e| > 0 && s.e[|s.e| - 1] < |fs| && Continues(s, s') && s'.a == s.a + [|fs|]
    requires f.time >= fs[s.e[|s.e| - 1]].time + c.interTapGap * 1000
    ensures SomeGapOverdue(c, fs + [f], s')
  {
    assert Overdue(c, fs + [f], s', |s.e|);
  }

  lemma IdleHasNoStory(c: Config, g: Recogniser, s: Story)
    requires Explained(c, g, s, false)
    ensures g.phase == Idle ==> s == NO_STORY
  {
  }

  lemma GapDeadline(c: Config, g: Recogniser, s: Story)
    requires Explained(c, g, s, false) && g.phase == WaitNext
    ensures 0 < |s.e| == |s.a| && s.e[|s.e| - 1] < |g.frames|
    ensures g.deadline == g.frames[s.e[|s.e| - 1]].time + c.interTapGap * 1000
  {
    assert Tap(c, g.frames, s.a[|s.e| - 1], s.k[|s.e| - 1], s.e[|s.e| - 1]);
  }

  lemma ExpireAnswers(c: Config, g: Recogniser, now: int)
    ensures ExpireStep(c, g, now).1 in {Pass, Replay, Toggle}
    ensures ExpireStep(c, g, now).1 == Pass && ExpireStep(c, g, now).0.phase != Idle ==> ExpireStep(c, g, now).0 == g
  {
  }

  /**
   Whenever the timer toggles the toolbar, the buffered frames are exactly three two-finger taps
   near one another and then quiet.  The taps keep to the inter-tap gap exactly when none of them
   began with a frame that came after the deadline the recogniser announced for it.
   */
  lemma ToggleMeansTripleTap(c: Config, events: seq<Event>, now: int)
    requires Clocked(events) && ExpireStep(c, Run(c, events).g, now).1 == Toggle
    ensures exists s :: TripleTap(c, Run(c, events).g.frames, s, now, false)
    ensures (exists s :: TripleTap(c, Run(c, events).g.frames, s, now, true)) <==> !Late(c, events)
  {
    var g := Run(c, events).g;
    var s := RunExplained(c, events);
    ToggleExplained(c, g, s, now, !Late(c, events));
    if Late(c, events) {
      var t :| Overdue(c, g.frames, s, t);
      forall s' | TripleTap(c, g.frames, s', now, true)
        ensures false
      {
        OverdueInEveryReading(c, g.frames, s, t, s', now);
      }
    } else {
      GapsIgnored(c, g.frames, s, now);
    }
  }

  lemma GapsIgnored(c: Config, fs: seq<TouchFrame>, s: Story, now: int)
    requires TripleTap(c, fs, s, now, true)
    ensures TripleTap(c, fs, s, now, false)
  {
    hide Taps, Near, Quiet;
  }

  /** The driver looks at the clock before each frame it delivers. */
  predicate Punctual(events: seq<Event>) {
    forall n :: 0 <= n < |events| && events[n].Touch? ==>
      n > 0 && events[n - 1] == Timer(events[n].frame.time)
  }

  /** Such a driver is never late. */
  lemma {:induction false} PunctualIsNeverLate(c: Config, events: seq<Event>)
    requires Clocked(events) && Punctual(events)
    ensures !Late(c, events)
  {
    hide Run, StartsLate;
    if events != [] {
      var n := |events| - 1;
      PunctualIsNeverLate(c, events[..n]);
      if events[n].Touch? {
        TimerComesFirst(c, events);
      }
    }
  }

  lemma TimerComesFirst(c: Config, events: seq<Event>)
    requires Clocked(events) && Punctual(events) && events != [] && events[|events| - 1].Touch?
    requires !Late(c, events[..|events| - 1])
    ensures !StartsLate(Run(c, events[..|events| - 1]).g, events[|events| - 1].frame)
  {
    hide Explained, ExpireStep, HandleStep, Late;
    var n := |events| - 1;
    var before, now := events[..n], events[n].frame.time;
    assert before != [] && before[n - 1] == Timer(now) && before[..n - 1] == events[..n - 1];
    var s := RunExplained(c, before);
    TimerLeavesOpenDeadline(c, Run(c, before[..n - 1]), now);
    if Run(c, before).g.phase == WaitNext {
      WaitNextHasDeadline(c, Run(c, before).g, s);
    }
  }

  lemma TimerLeavesOpenDeadline(c: Config, d: Driver, now: int)
    ensures var g := DriveTimer(c, d, now).g; g.phase == Idle || g.deadline == 0 || now < g.deadline
  {
  }

  lemma WaitNextHasDeadline(c: Config, g: Recogniser, s: Story)
    requires Explained(c, g, s, true) && g.phase == WaitNext
    ensures g.deadline > 0
  {
  }
}
