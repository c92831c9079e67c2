/**
 Runs that do not meet what the recogniser is for: taps too far apart that toggle when the timer
 comes late, and frames that the page sees twice or never.
 */
module GestureExamples {
  import opened TouchGesture
  import opened GestureSoundness
  import opened GestureRuns

  const DEFAULTS := Config(28.0, 48.0, 160, 350, 800, 500)

  function Finger(id: int, down: bool): Contact {
    Contact(down, down, !down, id, 100.0 * (id as real), 100.0)
  }

  function TwoFingers(time: int, down: bool): TouchFrame {
    TouchFrame(time, [Finger(1, down), Finger(2, down)])
  }

  const FINGERS := (Point(1, 100.0, 100.0), Point(2, 200.0, 100.0))

  lemma FrameFacts(time: int, down: bool)
    ensures Active(TwoFingers(time, down).contacts) == Downs(TwoFingers(time, down).contacts) == (if down then 2 else 0)
    ensures down ==> ActivePoints(TwoFingers(time, down).contacts) == [FINGERS.0, FINGERS.1]
    ensures !PairMoved(FINGERS, TwoFingers(time, down).contacts, DEFAULTS.maxMove)
    ensures NearReference(FINGERS, FINGERS, DEFAULTS.maxDrift)
  {
    var cs := TwoFingers(time, down).contacts;
    assert cs[..1] == [cs[0]] && cs[..1][..0] == [];
    assert Active(cs[..1]) == (if down then 1 else 0);
    assert Downs(cs[..1]) == (if down then 1 else 0);
    assert ActivePoints(cs[..1]) == if down then [FINGERS.0] else [];
  }

  /** Two fingers come down at time down and lift 50 ms later. */
  function TapAt(down: int): seq<Event> {
    [Touch(TwoFingers(down, true), true), Touch(TwoFingers(down + 50_000, false), true)]
  }

  /** The recogniser has seen whole taps and waits for the next. */
  predicate BetweenTaps(g: Recogniser) {
    && (g.phase == Idle || g.phase == WaitNext) && |g.frames| == 2 * g.tapCount <= 4
    && !g.speculative && (g.phase == Idle ==> g.tapCount == 0)
    && g.haveReference == (g.tapCount > 0) && (g.haveReference ==> g.reference == FINGERS)
  }

  lemma FingersLand(g: Recogniser, down: int)
    requires BetweenTaps(g) && down > 0
    ensures var (h, action) := HandleStep(DEFAULTS, g, TwoFingers(down, true), true);
      && action == Buffer && h.phase == PairActive && h.pair == FINGERS && h.pairDown == down && !h.speculative
      && h.tapCount == g.tapCount && h.haveReference == g.haveReference && h.reference == g.reference
      && h.frames == g.frames + [TwoFingers(down, true)]
  {
    FrameFacts(down, true);
    hide Active, Downs, ActivePoints, NearReference, PairMoved;
  }

  lemma FingersLift(g: Recogniser, down: int)
    requires g.phase == PairActive && g.pair == FINGERS && g.pairDown == down && !g.speculative && g.tapCount <= 2
    requires |g.frames| <= 5 && (g.haveReference ==> g.reference == FINGERS)
    ensures var (h, action) := HandleStep(DEFAULTS, g, TwoFingers(down + 50_000, false), true);
      && action == Buffer && h.tapCount == g.tapCount + 1 && h.haveReference && h.reference == FINGERS && !h.speculative
      && h.frames == g.frames + [TwoFingers(down + 50_000, false)]
      && h.phase == (if h.tapCount == 3 then QuietTime else WaitNext)
      && (h.tapCount == 3 ==> h.deadline == down + 50_000 + DEFAULTS.quiet * 1000)
  {
    FrameFacts(down + 50_000, false);
    hide Active, Downs, ActivePoints, NearReference, PairMoved;
  }

  lemma TapAdvances(events: seq<Event>, down: int)
    requires down > 0 && BetweenTaps(Run(DEFAULTS, events).g)
    ensures var g, h := Run(DEFAULTS, events).g, Run(DEFAULTS, events + TapAt(down)).g;
      && h.tapCount == g.tapCount + 1 && h.haveReference && h.reference == FINGERS && !h.speculative
      && h.frames == g.frames + [TwoFingers(down, true), TwoFingers(down + 50_000, false)]
      && h.phase == (if h.tapCount == 3 then QuietTime else WaitNext)
      && (h.tapCount == 3 ==> h.deadline == down + 50_000 + DEFAULTS.quiet * 1000)
  {
    hide HandleStep, TwoFingers;
    var e1, e2 := TapAt(down)[0], TapAt(down)[1];
    assert events + TapAt(down) == (events + [e1]) + [e2];
    assert (events + [e1])[..|events|] == events;
    assert ((events + [e1]) + [e2])[..|events| + 1] == events + [e1];
    var g := Run(DEFAULTS, events).g;
    FingersLand(g, down);
    FingersLift(HandleStep(DEFAULTS, g, TwoFingers(down, true), true).0, down);
  }

  const LONG_GAPS := TapAt(1_000_000) + TapAt(11_000_000) + TapAt(21_000_000)

  lemma LongGapsWaitForQuiet()
    ensures var g := Run(DEFAULTS, LONG_GAPS).g;
      && g.phase == QuietTime && g.tapCount == 3 && g.deadline == 21_550_000 && !g.speculative
      && g.frames == [TwoFingers(1_000_000, true), TwoFingers(1_050_000, false),
                      TwoFingers(11_000_000, true), TwoFingers(11_050_000, false),
                      TwoFingers(21_000_000, true), TwoFingers(21_050_000, false)]
  {
    hide Run, TwoFingers, HandleStep, Drive;
    var first := TapAt(1_000_000);
    assert [] + first == first;
    NothingYet();
    TapAdvances([], 1_000_000);
    TapAdvances(first, 11_000_000);
    TapAdvances(first + TapAt(11_000_000), 21_000_000);
  }

  lemma NothingYet()
    ensures Run(DEFAULTS, []) == START
  {
  }

  /** Any reading of such frames as three taps has a gap above the limit. */
  lemma SecondTapIsLate(fs: seq<TouchFrame>, s: Story, now: int, p: bool)
    requires |fs| > 1 && fs[0].time == 1_000_000 && fs[1].time == 1_050_000
    requires forall i :: 2 <= i < |fs| ==> fs[i].time >= 11_000_000
    requires TripleTap(DEFAULTS, fs, s, now, p)
    ensures s.e[0] < s.a[1] < |fs| && fs[s.a[1]].time - fs[s.e[0]].time > DEFAULTS.interTapGap * 1000
  {
    hide Landing, PairMoved, NearReference;
    assert Tap(DEFAULTS, fs, s.a[0], s.k[0], s.e[0]);
    assert Steady(DEFAULTS, fs, s.a[0], s.k[0], s.e[0]);
  }

  /** Taps ten seconds apart, with an 800 ms gap limit, still toggle when no timer ran in between. */
  lemma LateTimerAcceptsLongGaps()
    ensures Clocked(LONG_GAPS) && Late(DEFAULTS, LONG_GAPS)
    ensures ExpireStep(DEFAULTS, Run(DEFAULTS, LONG_GAPS).g, 30_000_000).1 == Toggle
    ensures forall s :: !TripleTap(DEFAULTS, Run(DEFAULTS, LONG_GAPS).g.frames, s, 30_000_000, true)
  {
    LongGapsWaitForQuiet();
    hide Run, Late;
    forall s
      ensures !TripleTap(DEFAULTS, Run(DEFAULTS, LONG_GAPS).g.frames, s, 30_000_000, true)
    {
      if TripleTap(DEFAULTS, Run(DEFAULTS, LONG_GAPS).g.frames, s, 30_000_000, true) {
        SecondTapIsLate(Run(DEFAULTS, LONG_GAPS).g.frames, s, 30_000_000, true);
        assert false;
      }
    }
    ToggleMeansTripleTap(DEFAULTS, LONG_GAPS, 30_000_000);
  }

  // ---------------------------------------------------------------- frames seen twice or never

  lemma RunSnoc(c: Config, events: seq<Event>, e: Event)
    ensures Run(c, events + [e]) == Drive(c, Run(c, events), e)
  {
    assert (events + [e])[..|events|] == events;
  }

  function OneFingerDown(time: int): TouchFrame {
    TouchFrame(time, [Finger(1, true)])
  }

  function ThreeFingers(time: int): TouchFrame {
    TouchFrame(time, [Contact(true, false, false, 1, 100.0, 100.0), Finger(2, true), Finger(3, true)])
  }

  lemma ManyFingers(time: int)
    ensures Active(OneFingerDown(time).contacts) == Downs(OneFingerDown(time).contacts) == 1
    ensures Active(ThreeFingers(time).contacts) == 3
  {
    var one, cs := OneFingerDown(time).contacts, ThreeFingers(time).contacts;
    assert one[..0] == [];
    assert cs[..2] == [cs[0], cs[1]] && cs[..2][..1] == [cs[0]] && cs[..2][..1][..0] == [];
  }

  /** One finger is passed through speculatively and two more join it: the first frame comes twice. */
  lemma ThirdFingerRepeats()
    ensures var events := [Touch(OneFingerDown(1), true), Touch(ThreeFingers(2), true)];
      && Run(DEFAULTS, events).out == [Dispatch(0), Dispatch(0), Dispatch(1)]
      && Delivered(Run(DEFAULTS, events).out, 0) == 2
      && !Regular(DEFAULTS, events) && !Ledger(Run(DEFAULTS, events))
  {
    var e1, e2 := Touch(OneFingerDown(1), true), Touch(ThreeFingers(2), true);
    ManyFingers(1);
    ManyFingers(2);
    hide Active, Downs, OneFingerDown, ThreeFingers, Settled;
    NothingYet();
    RunSnoc(DEFAULTS, [], e1);
    RunSnoc(DEFAULTS, [e1], e2);
    assert [] + [e1] == [e1] && [e1] + [e2] == [e1, e2];
    var d := Run(DEFAULTS, [e1]);
    assert d.g.speculative && d.g.phase == WaitPair && |d.g.frames| == 1;
    assert Replays(0, 2) == [Dispatch(0), Dispatch(1)] by {
      assert Replays(0, 1) == [Dispatch(0)] by {
        assert Replays(0, 0) == [];
      }
    }
    assert Run(DEFAULTS, [e1, e2]).out == [Dispatch(0), Dispatch(0), Dispatch(1)];
    TwiceDelivered();
    assert [e1, e2][..1] == [e1];
    assert Irregular(d, e2);
    if Ledger(Run(DEFAULTS, [e1, e2])) {
      SettledOnce(Run(DEFAULTS, [e1, e2]), 0);
    }
  }

  lemma TwiceDelivered()
    ensures Delivered([Dispatch(0), Dispatch(0), Dispatch(1)], 0) == 2
  {
    var none: seq<Output> := [];
    OutputsAppend(none, Dispatch(0), 0);
    OutputsAppend([Dispatch(0)], Dispatch(0), 0);
    OutputsAppend([Dispatch(0), Dispatch(0)], Dispatch(1), 0);
    assert none + [Dispatch(0)] == [Dispatch(0)];
    assert [Dispatch(0)] + [Dispatch(0)] == [Dispatch(0), Dispatch(0)];
    assert [Dispatch(0), Dispatch(0)] + [Dispatch(1)] == [Dispatch(0), Dispatch(0), Dispatch(1)];
  }

  lemma SettledOnce(d: Driver, i: nat)
    requires Ledger(d)
    ensures Delivered(d.out, i) <= 1
  {
    hide Delivered, Swallowed;
    assert Settled(d, i);
  }

  /** Two fingers come down together, unseen by the page, and the device drops events. */
  lemma ResyncLoses()
    ensures var events := [Touch(TwoFingers(1, true), true), Resync];
      && Run(DEFAULTS, events).arrived == 1 && Run(DEFAULTS, events).g.frames == [] && Run(DEFAULTS, events).out == []
      && !Regular(DEFAULTS, events) && !Ledger(Run(DEFAULTS, events))
  {
    hide HandleStep, TwoFingers, Run, Settled, Irregular;
    var e1 := Touch(TwoFingers(1, true), true);
    var events := [e1, Resync];
    PairBuffered();
    RunSnoc(DEFAULTS, [e1], Resync);
    assert [e1] + [Resync] == events && events[..1] == [e1] && events[1] == Resync;
    assert Irregular(Run(DEFAULTS, [e1]), Resync) by {
      WaitingIsIrregular(Run(DEFAULTS, [e1]));
    }
    NeverSeen(Run(DEFAULTS, events));
  }

  lemma WaitingIsIrregular(d: Driver)
    requires d.g.frames != [] && !d.g.speculative
    ensures Irregular(d, Resync)
  {
  }

  lemma PairBuffered()
    ensures var d := Run(DEFAULTS, [Touch(TwoFingers(1, true), true)]);
      d.g.frames == [TwoFingers(1, true)] && !d.g.speculative && d.arrived == 1 && d.out == []
  {
    hide HandleStep, TwoFingers, Run;
    NothingYet();
    FingersLand(FRESH, 1);
    RunSnoc(DEFAULTS, [], Touch(TwoFingers(1, true), true));
    assert [] + [Touch(TwoFingers(1, true), true)] == [Touch(TwoFingers(1, true), true)];
  }

  lemma NeverSeen(d: Driver)
    requires d.arrived > 0 && d.g.frames == [] && d.out == []
    ensures !Ledger(d)
  {
    assert !Settled(d, 0);
  }

  function StillHeld(time: int): TouchFrame {
    TouchFrame(time, [Finger(1, true).(justDown := false), Finger(2, true).(justDown := false)])
  }

  /** Two fingers come down and stay where they are for n more frames within one microsecond. */
  function Holds(n: nat): seq<Event> {
    if n == 0 then [Touch(TwoFingers(1, true), true)] else Holds(n - 1) + [Touch(StillHeld(1), true)]
  }

  lemma HeldFacts()
    ensures Active(StillHeld(1).contacts) == 2
    ensures !PairMoved(FINGERS, StillHeld(1).contacts, DEFAULTS.maxMove)
  {
    var cs := StillHeld(1).contacts;
    assert cs[..1] == [cs[0]] && cs[..1][..0] == [];
  }

  predicate Filled(d: Driver, n: nat) {
    && d.g.phase == PairActive && d.g.pair == FINGERS && d.g.pairDown == 1 && !d.g.speculative
    && |d.g.frames| == d.arrived == n && d.base == 0 && d.out == []
  }

  lemma StillHeldStep(g: Recogniser)
    requires g.phase == PairActive && g.pair == FINGERS && g.pairDown == 1
    ensures HandleStep(DEFAULTS, g, StillHeld(1), true) ==
              if |g.frames| >= MAX_BUFFERED_FRAMES then Fail(g, BufferOverflow)
              else (g.(frames := g.frames + [StillHeld(1)]), Buffer)
  {
    HeldFacts();
    hide Active, Downs, PairMoved;
  }

  lemma {:induction false} HoldsFill(n: nat)
    requires n < MAX_BUFFERED_FRAMES
    ensures Filled(Run(DEFAULTS, Holds(n)), n + 1)
  {
    hide HandleStep, StillHeld, TwoFingers, Run;
    if n == 0 {
      FingersLand(FRESH, 1);
      NothingYet();
      RunSnoc(DEFAULTS, [], Touch(TwoFingers(1, true), true));
      assert [] + Holds(0) == Holds(0);
    } else {
      HoldsFill(n - 1);
      StillHeldStep(Run(DEFAULTS, Holds(n - 1)).g);
      RunSnoc(DEFAULTS, Holds(n - 1), Touch(StillHeld(1), true));
    }
  }

  lemma FullBufferFails(d: Driver)
    requires Filled(d, MAX_BUFFERED_FRAMES)
    ensures var h := DriveTouch(DEFAULTS, d, StillHeld(1), true);
      h.arrived == MAX_BUFFERED_FRAMES + 1 && h.g.frames == [] && h.out == Replays(0, MAX_BUFFERED_FRAMES)
  {
    hide HandleStep, StillHeld, Replays;
    StillHeldStep(d.g);
    assert [] + Replays(0, MAX_BUFFERED_FRAMES) == Replays(0, MAX_BUFFERED_FRAMES);
  }

  lemma NotReplayed(d: Driver, until: nat)
    requires d.arrived == until + 1 && d.g.frames == [] && d.out == Replays(0, until)
    ensures Delivered(d.out, until) == Swallowed(d.out, until) == 0 && !Ledger(d)
  {
    var none: seq<Output> := [];
    OutputsReplay(none, 0, until, until);
    assert none + Replays(0, until) == Replays(0, until);
    assert Delivered(none, until) == Swallowed(none, until) == 0;
    hide Delivered, Swallowed;
    assert !Settled(d, until);
  }

  /** The frame that finds the buffer full is never delivered. */
  lemma OverflowLoses()
    ensures var d := Run(DEFAULTS, Holds(MAX_BUFFERED_FRAMES));
      && d.arrived == MAX_BUFFERED_FRAMES + 1 && d.g.frames == []
      && Delivered(d.out, MAX_BUFFERED_FRAMES) == Swallowed(d.out, MAX_BUFFERED_FRAMES) == 0 && !Ledger(d)
  {
    hide Run, StillHeld, Replays, Ledger, Delivered, Swallowed;
    HoldsFill(MAX_BUFFERED_FRAMES - 1);
    var d := Run(DEFAULTS, Holds(MAX_BUFFERED_FRAMES - 1));
    RunSnoc(DEFAULTS, Holds(MAX_BUFFERED_FRAMES - 1), Touch(StillHeld(1), true));
    FullBufferFails(d);
    NotReplayed(Run(DEFAULTS, Holds(MAX_BUFFERED_FRAMES)), MAX_BUFFERED_FRAMES);
  }
}
