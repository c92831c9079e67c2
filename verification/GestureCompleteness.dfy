/**
 The converse of what a toggle means: three taps and quiet, undisturbed, do toggle.  The recogniser
 follows the story of such frames step by step and never gives it up.
 */
module GestureCompleteness {
  import opened TouchGesture
  import opened GestureSoundness
  import opened GestureRuns

  /** Frames that a toggle would be justified by, and that the recogniser has room for. */
  predicate Tapped(c: Config, fs: seq<TouchFrame>, s: Story, now: int) {
    && TripleTap(c, fs, s, now, false)
    && 0 < |fs| <= MAX_BUFFERED_FRAMES && Downs(fs[0].contacts) == Active(fs[0].contacts)
    && (forall i :: 0 <= i < |fs| ==> fs[i].time > 0)
  }

  // ---------------------------------------------------------------- where in its story the recogniser is

  /** The first i frames are buffered, t taps are complete, and the first one's pair is the reference. */
  predicate Counted(fs: seq<TouchFrame>, s: Story, i: nat, t: nat, g: Recogniser)
    requires |s.k| == 3 && Landed(fs, s.k[0])
  {
    && i <= |fs| && g.frames == fs[..i] && g.tapCount == t
    && (g.haveReference <==> t > 0) && (t > 0 ==> g.reference == PairAt(fs, s.k[0]))
  }

  predicate Waits(c: Config, g: Recogniser) {
    g.phase == Idle && g.frames == [] && g.tapCount == 0 && !g.haveReference
  }

  predicate OnFinger(c: Config, fs: seq<TouchFrame>, s: Story, now: int, i: nat, t: nat, g: Recogniser)
    requires Tapped(c, fs, s, now)
  {
    && t < 3 && Landed(fs, s.k[0]) && Counted(fs, s, i, t, g)
    && s.a[t] < i <= s.k[t] && s.a[t] < |fs| && Active(fs[s.a[t]].contacts) == 1
    && g.phase == WaitPair && g.firstDown == fs[s.a[t]].time
    && g.haveFirst && g.first == FirstActive(fs[s.a[t]].contacts) && (t == 0 ==> g.speculative)
  }

  predicate OnPair(c: Config, fs: seq<TouchFrame>, s: Story, now: int, i: nat, t: nat, g: Recogniser)
    requires Tapped(c, fs, s, now)
  {
    && t < 3 && Landed(fs, s.k[0]) && Counted(fs, s, i, t, g)
    && s.k[t] < i <= s.e[t] && s.a[t] < |fs| && Landed(fs, s.k[t])
    && g.phase == PairActive && g.pair == PairAt(fs, s.k[t]) && g.pairDown == fs[s.a[t]].time
  }

  predicate OnGap(c: Config, fs: seq<TouchFrame>, s: Story, now: int, i: nat, t: nat, g: Recogniser)
    requires Tapped(c, fs, s, now)
  {
    && 0 < t < 3 && Landed(fs, s.k[0]) && Counted(fs, s, i, t, g)
    && s.e[t - 1] < i <= s.a[t] && g.phase == WaitNext
  }

  predicate OnQuiet(c: Config, fs: seq<TouchFrame>, s: Story, now: int, i: nat, t: nat, g: Recogniser)
    requires Tapped(c, fs, s, now)
  {
    && t == 3 && Landed(fs, s.k[0]) && Counted(fs, s, i, t, g)
    && s.e[2] < i && s.e[2] < |fs| && g.phase == QuietTime && g.deadline == fs[s.e[2]].time + c.quiet * 1000
  }

  predicate On(c: Config, fs: seq<TouchFrame>, s: Story, now: int, i: nat, t: nat, g: Recogniser)
    requires Tapped(c, fs, s, now)
  {
    || (i == t == 0 && Waits(c, g))
    || OnFinger(c, fs, s, now, i, t, g) || OnPair(c, fs, s, now, i, t, g)
    || OnGap(c, fs, s, now, i, t, g) || OnQuiet(c, fs, s, now, i, t, g)
  }

  // ---------------------------------------------------------------- what the story says of one frame

  lemma TapOf(c: Config, fs: seq<TouchFrame>, s: Story, now: int, t: nat)
    requires Tapped(c, fs, s, now) && t < 3
    ensures |s.a| == |s.k| == |s.e| == 3 && Tap(c, fs, s.a[t], s.k[t], s.e[t])
  {
    hide Tap, Near, Spaced, Quiet, Active, Downs;
  }

  /** A tap's numbers. */
  lemma TapShape(c: Config, fs: seq<TouchFrame>, s: Story, now: int, t: nat)
    requires Tapped(c, fs, s, now) && t < 3
    ensures |s.a| == |s.k| == |s.e| == 3
    ensures s.a[t] <= s.k[t] < s.e[t] < |fs| && Landed(fs, s.k[t])
    ensures Downs(fs[s.a[t]].contacts) > 0 && (s.a[t] < s.k[t] ==> Active(fs[s.a[t]].contacts) == 1)
  {
    TapOf(c, fs, s, now, t);
    hide Tapped, Active, Downs, FirstMoved, Steady;
  }

  /** While one finger is down, and when the second lands. */
  lemma FingerFrame(c: Config, fs: seq<TouchFrame>, s: Story, now: int, t: nat, i: nat)
    requires Tapped(c, fs, s, now) && t < 3 && |s.a| == |s.k| == 3 && s.a[t] < i <= s.k[t]
    ensures i < |fs| && Active(fs[s.a[t]].contacts) == 1
    ensures !FirstMoved(FirstActive(fs[s.a[t]].contacts), fs[i].contacts, c.maxMove)
    ensures if i < s.k[t] then Active(fs[i].contacts) == 1
            else Active(fs[i].contacts) == 2 && fs[i].time - fs[s.a[t]].time <= c.pairWindow * 1000
  {
    TapOf(c, fs, s, now, t);
    hide Tapped, Active, Downs, FirstMoved, Steady;
  }

  /** While the pair is down, and when it lifts. */
  lemma PairFrame(c: Config, fs: seq<TouchFrame>, s: Story, now: int, t: nat, i: nat)
    requires Tapped(c, fs, s, now) && t < 3 && |s.a| == |s.k| == |s.e| == 3 && s.k[t] < i <= s.e[t]
    ensures i < |fs| && s.a[t] < |fs| && Landed(fs, s.k[t])
    ensures !PairMoved(PairAt(fs, s.k[t]), fs[i].contacts, c.maxMove)
    ensures fs[i].time - fs[s.a[t]].time <= c.tapDuration * 1000
    ensures if i < s.e[t] then 1 <= Active(fs[i].contacts) <= 2 else Active(fs[i].contacts) == 0
  {
    TapOf(c, fs, s, now, t);
    hide Tapped, Active, Downs, FirstMoved, PairMoved;
    assert Steady(c, fs, s.a[t], s.k[t], i);
  }

  lemma PairsAreNear(c: Config, fs: seq<TouchFrame>, s: Story, now: int, t: nat)
    requires Tapped(c, fs, s, now) && t < 3 && |s.k| == 3
    ensures Landed(fs, s.k[t]) && Landed(fs, s.k[0])
    ensures t > 0 ==> NearReference(PairAt(fs, s.k[t]), PairAt(fs, s.k[0]), c.maxDrift)
  {
    hide Taps, Spaced, Quiet, Active, Downs, NearReference;
  }

  lemma GapOf(c: Config, fs: seq<TouchFrame>, s: Story, now: int, t: nat)
    requires Tapped(c, fs, s, now) && 0 < t < 3
    ensures |s.a| == |s.e| == 3 && s.e[t - 1] < s.a[t] < |fs| && Gap(fs, s.e[t - 1] + 1, s.a[t])
  {
    hide Taps, Near, Gap, Quiet, Active, Downs;
  }

  /** Between taps, and when the next begins. */
  lemma GapFrame(c: Config, fs: seq<TouchFrame>, s: Story, now: int, t: nat, i: nat)
    requires Tapped(c, fs, s, now) && 0 < t < 3 && |s.a| == |s.k| == |s.e| == 3 && s.e[t - 1] < i <= s.a[t]
    ensures i < |fs|
    ensures if i < s.a[t] then Downs(fs[i].contacts) == 0 && Active(fs[i].contacts) <= 2
            else Downs(fs[i].contacts) > 0 && Active(fs[i].contacts) == if s.a[t] == s.k[t] then 2 else 1
  {
    hide Tapped, Active, Downs;
    TapShape(c, fs, s, now, t);
    GapOf(c, fs, s, now, t);
  }

  /** The taps follow one another from the first frame on, and then comes the quiet. */
  lemma Order(c: Config, fs: seq<TouchFrame>, s: Story, now: int)
    requires Tapped(c, fs, s, now)
    ensures |s.a| == |s.k| == |s.e| == 3 && s.a[0] == 0 && forall t :: 0 < t < 3 ==> s.e[t - 1] < s.a[t] < |fs|
    ensures forall i :: s.e[2] < i < |fs| ==> !Effective(fs[i].contacts)
  {
    hide Taps, Near, Active, Downs, Effective;
  }

  // ---------------------------------------------------------------- each frame is followed

  predicate Followed(c: Config, fs: seq<TouchFrame>, s: Story, now: int, i: nat, g: Recogniser, t: nat)
    requires Tapped(c, fs, s, now) && i < |fs|
  {
    var (h, action) := HandleStep(c, g, fs[i], true);
    action != Replay && On(c, fs, s, now, i + 1, t, h)
  }

  lemma NoProblem(c: Config, fs: seq<TouchFrame>, s: Story, now: int, t: nat, g: Recogniser)
    requires Tapped(c, fs, s, now) && t < 3 && |s.k| == 3 && Landed(fs, s.k[0])
    requires (g.haveReference <==> t > 0) && (t > 0 ==> g.reference == PairAt(fs, s.k[0]))
    ensures Landed(fs, s.k[t]) && PairProblem(c, g, fs[s.k[t]]) == NoReason
  {
    PairsAreNear(c, fs, s, now, t);
    hide Active, NearReference, Tapped;
  }

  lemma Basics(c: Config, fs: seq<TouchFrame>, s: Story, now: int)
    requires Tapped(c, fs, s, now)
    ensures |s.a| == |s.k| == |s.e| == 3 && 0 < |fs| <= MAX_BUFFERED_FRAMES
    ensures Downs(fs[0].contacts) == Active(fs[0].contacts)
    ensures forall i :: 0 <= i < |fs| ==> fs[i].time > 0
  {
  }

  lemma IdleFollows(c: Config, fs: seq<TouchFrame>, s: Story, now: int, g: Recogniser)
    requires Tapped(c, fs, s, now) && Waits(c, g)
    ensures Followed(c, fs, s, now, 0, g, 0)
    ensures |s.a| == |s.k| == 3 && (s.a[0] < s.k[0] ==> HandleStep(c, g, fs[0], true).1 == SpeculativePass)
  {
    hide Tapped, Active, Downs, NearReference, FirstMoved, PairMoved, PairProblem;
    Basics(c, fs, s, now);
    TapShape(c, fs, s, now, 0);
    Order(c, fs, s, now);
    assert fs[..1] == [fs[0]];
    NoProblem(c, fs, s, now, 0, g.(frames := g.frames + [fs[0]], firstDown := fs[0].time));
  }

  lemma FingerFollows(c: Config, fs: seq<TouchFrame>, s: Story, now: int, i: nat, t: nat, g: Recogniser)
    requires Tapped(c, fs, s, now) && i < |fs| && OnFinger(c, fs, s, now, i, t, g)
    ensures Followed(c, fs, s, now, i, g, t)
    ensures |s.k| == 3 && (t == 0 && i < s.k[0] ==> HandleStep(c, g, fs[i], true).1 == SpeculativePass)
  {
    hide Tapped, Active, Downs, NearReference, FirstMoved, PairMoved, PairProblem, OnGap, OnQuiet;
    Basics(c, fs, s, now);
    TapShape(c, fs, s, now, t);
    FingerFrame(c, fs, s, now, t, i);
    assert fs[..i + 1] == fs[..i] + [fs[i]];
    if i == s.k[t] {
      NoProblem(c, fs, s, now, t, g.(frames := g.frames + [fs[i]]));
    }
  }

  lemma PairFollows(c: Config, fs: seq<TouchFrame>, s: Story, now: int, i: nat, t: nat, g: Recogniser)
    requires Tapped(c, fs, s, now) && i < |fs| && OnPair(c, fs, s, now, i, t, g)
    ensures |s.e| == 3 && Followed(c, fs, s, now, i, g, if i == s.e[t] then t + 1 else t)
  {
    hide Tapped, Active, Downs, NearReference, FirstMoved, PairMoved, OnFinger;
    Basics(c, fs, s, now);
    Order(c, fs, s, now);
    PairFrame(c, fs, s, now, t, i);
    assert fs[..i + 1] == fs[..i] + [fs[i]];
  }

  lemma GapFollows(c: Config, fs: seq<TouchFrame>, s: Story, now: int, i: nat, t: nat, g: Recogniser)
    requires Tapped(c, fs, s, now) && i < |fs| && OnGap(c, fs, s, now, i, t, g)
    ensures Followed(c, fs, s, now, i, g, t)
  {
    hide Tapped, Active, Downs, NearReference, FirstMoved, PairMoved, PairProblem, OnQuiet;
    Basics(c, fs, s, now);
    TapShape(c, fs, s, now, t);
    GapFrame(c, fs, s, now, t, i);
    assert fs[..i + 1] == fs[..i] + [fs[i]];
    if i == s.a[t] == s.k[t] {
      NoProblem(c, fs, s, now, t, g.(frames := g.frames + [fs[i]], firstDown := fs[i].time));
    }
  }

  lemma QuietFollows(c: Config, fs: seq<TouchFrame>, s: Story, now: int, i: nat, g: Recogniser)
    requires Tapped(c, fs, s, now) && i < |fs| && OnQuiet(c, fs, s, now, i, 3, g)
    ensures Followed(c, fs, s, now, i, g, 3)
  {
    hide Tapped, Active, Downs, Effective, OnFinger, OnPair, OnGap;
    Basics(c, fs, s, now);
    Order(c, fs, s, now);
    assert fs[..i + 1] == fs[..i] + [fs[i]];
  }

  /** No frame of the story is answered with a replay, and the recogniser stays on it. */
  lemma FrameFollows(c: Config, fs: seq<TouchFrame>, s: Story, now: int, i: nat, t: nat, g: Recogniser) returns (t': nat)
    requires Tapped(c, fs, s, now) && i < |fs| && On(c, fs, s, now, i, t, g)
    ensures Followed(c, fs, s, now, i, g, t')
  {
    hide OnFinger, OnPair, OnGap, OnQuiet, Followed, Tapped;
    t' := t;
    if OnFinger(c, fs, s, now, i, t, g) {
      FingerFollows(c, fs, s, now, i, t, g);
    } else if OnPair(c, fs, s, now, i, t, g) {
      PairFollows(c, fs, s, now, i, t, g);
      t' := if OnPairEnds(c, fs, s, now, i, t, g) then t + 1 else t;
    } else if OnGap(c, fs, s, now, i, t, g) {
      GapFollows(c, fs, s, now, i, t, g);
    } else if OnQuiet(c, fs, s, now, i, t, g) {
      QuietIsThree(c, fs, s, now, i, t, g);
      QuietFollows(c, fs, s, now, i, g);
    } else {
      IdleFollows(c, fs, s, now, g);
    }
  }

  predicate OnPairEnds(c: Config, fs: seq<TouchFrame>, s: Story, now: int, i: nat, t: nat, g: Recogniser)
    requires Tapped(c, fs, s, now) && OnPair(c, fs, s, now, i, t, g)
  {
    i == s.e[t]
  }

  lemma QuietIsThree(c: Config, fs: seq<TouchFrame>, s: Story, now: int, i: nat, t: nat, g: Recogniser)
    requires Tapped(c, fs, s, now) && OnQuiet(c, fs, s, now, i, t, g)
    ensures t == 3
  {
  }

  // ---------------------------------------------------------------- runs

  function Frames(events: seq<Event>): seq<TouchFrame> {
    if events == [] then []
    else
      var last := events[|events| - 1];
      Frames(events[..|events| - 1]) + if last.Touch? then [last.frame] else []
  }

  /** No deadline is announced, or it is still ahead. */
  predicate Early(g: Recogniser, now: int) {
    g.phase == Idle || g.deadline == 0 || now < g.deadline
  }

  lemma EarlyTimerPasses(c: Config, g: Recogniser, now: int)
    requires Early(g, now)
    ensures ExpireStep(c, g, now) == (g, Pass)
  {
  }

  /** The gesture is enabled, no timer runs at or after an announced deadline, and the device stays in step. */
  predicate Undisturbed(c: Config, before: seq<Event>, events: seq<Event>) {
    forall n :: 0 <= n < |events| ==>
      match events[n]
      case Touch(_, enabled) => enabled
      case Timer(now) => Early(Run(c, before + events[..n]).g, now)
      case Resync => false
  }

  lemma IdleWaits(c: Config, before: seq<Event>)
    requires Clocked(before) && Run(c, before).g.phase == Idle
    ensures Waits(c, Run(c, before).g)
  {
    var s := RunExplained(c, before);
  }

  lemma UndisturbedPrefix(c: Config, before: seq<Event>, events: seq<Event>)
    requires Undisturbed(c, before, events) && events != []
    ensures Undisturbed(c, before, events[..|events| - 1])
    ensures var n := |events| - 1;
      match events[n]
      case Touch(_, enabled) => enabled
      case Timer(now) => Early(Run(c, before + events[..n]).g, now)
      case Resync => false
  {
    hide Run, Early;
    var n := |events| - 1;
    forall k | 0 <= k < n
      ensures events[..n][..k] == events[..k] && events[..n][k] == events[k]
    {
    }
  }

  lemma RunNext(c: Config, before: seq<Event>, events: seq<Event>)
    requires events != []
    ensures var n := |events| - 1; Run(c, before + events) == Drive(c, Run(c, before + events[..n]), events[n])
  {
    hide Drive;
    var n := |events| - 1;
    assert (before + events)[..|before| + n] == before + events[..n];
  }

  /** At any time of such a run the recogniser is where the frames so far put it. */
  lemma {:induction false} RunFollows(c: Config, before: seq<Event>, events: seq<Event>, fs: seq<TouchFrame>, s: Story, now: int)
    returns (t: nat)
    requires Clocked(before) && Run(c, before).g.phase == Idle
    requires Tapped(c, fs, s, now) && Undisturbed(c, before, events) && Frames(events) <= fs
    ensures On(c, fs, s, now, |Frames(events)|, t, Run(c, before + events).g)
  {
    hide OnFinger, OnPair, OnGap, OnQuiet, Tapped, HandleStep, ExpireStep, Waits;
    if events == [] {
      IdleWaits(c, before);
      assert before + events == before;
      t := 0;
    } else {
      var n := |events| - 1;
      UndisturbedPrefix(c, before, events);
      t := RunFollows(c, before, events[..n], fs, s, now);
      RunNext(c, before, events);
      if events[n].Timer? {
        EarlyTimerPasses(c, Run(c, before + events[..n]).g, events[n].now);
      } else {
        assert fs[|Frames(events[..n])|] == events[n].frame;
        t := FrameFollows(c, fs, s, now, |Frames(events[..n])|, t, Run(c, before + events[..n]).g);
      }
    }
  }

  /** On the last frame the recogniser waits for nothing but the end of the quiet time. */
  lemma EndIsQuiet(c: Config, fs: seq<TouchFrame>, s: Story, now: int, t: nat, g: Recogniser)
    requires Tapped(c, fs, s, now) && On(c, fs, s, now, |fs|, t, g)
    ensures g.phase == QuietTime && g.tapCount == 3 && g.frames == fs && ExpireStep(c, g, now).1 == Toggle
  {
    hide Tapped, Active, Downs, Effective;
    Basics(c, fs, s, now);
    Order(c, fs, s, now);
    TapShape(c, fs, s, now, 0);
    TapShape(c, fs, s, now, 1);
    TapShape(c, fs, s, now, 2);
    QuietIsOver(c, fs, s, now);
    assert fs[..|fs|] == fs;
  }

  lemma QuietIsOver(c: Config, fs: seq<TouchFrame>, s: Story, now: int)
    requires Tapped(c, fs, s, now)
    ensures |s.e| == 3 && s.e[2] < |fs| && now >= fs[s.e[2]].time + c.quiet * 1000
  {
    TapShape(c, fs, s, now, 2);
    hide Taps, Near, Spaced, Quiet, Active, Downs;
  }

  /**
   Frames that arrive undisturbed at an idle recogniser, the first of them beginning with all its fingers
   new, toggle at the end of their quiet time if and only if they are three two-finger taps near one
   another and then quiet.
   */
  lemma ToggleIff(c: Config, before: seq<Event>, events: seq<Event>, now: int)
    requires Clocked(before + events) && Run(c, before).g.phase == Idle && Undisturbed(c, before, events)
    requires var fs := Frames(events); 0 < |fs| <= MAX_BUFFERED_FRAMES && Downs(fs[0].contacts) == Active(fs[0].contacts)
    ensures var fs, g := Frames(events), Run(c, before + events).g;
      g.frames == fs && ExpireStep(c, g, now).1 == Toggle <==> exists s :: TripleTap(c, fs, s, now, false)
  {
    hide Active, Downs, TripleTap, ExpireStep, Run, HandleStep;
    var fs, g := Frames(events), Run(c, before + events).g;
    ClockedParts(before, events);
    if exists s :: TripleTap(c, fs, s, now, false) {
      var s :| TripleTap(c, fs, s, now, false);
      var t := RunFollows(c, before, events, fs, s, now);
      EndIsQuiet(c, fs, s, now, t, g);
    }
    if g.frames == fs && ExpireStep(c, g, now).1 == Toggle {
      ToggleMeansTripleTap(c, before + events, now);
    }
  }

  lemma ClockedParts(before: seq<Event>, events: seq<Event>)
    requires Clocked(before + events)
    ensures Clocked(before) && forall i :: 0 <= i < |Frames(events)| ==> Frames(events)[i].time > 0
  {
    forall n | 0 <= n < |before|
      ensures before[n] == (before + events)[n]
    {
    }
    forall n | 0 <= n < |events|
      ensures events[n] == (before + events)[|before| + n]
    {
    }
    ClockedFrames(events);
  }

  lemma {:induction false} ClockedFrames(events: seq<Event>)
    requires Clocked(events)
    ensures forall i :: 0 <= i < |Frames(events)| ==> Frames(events)[i].time > 0
  {
    if events != [] {
      ClockedFrames(events[..|events| - 1]);
    }
  }

  // ---------------------------------------------------------------- nothing is held for good

  /** What is announced as the deadline of each phase. */
  predicate Timed(c: Config, g: Recogniser) {
    match g.phase
    case Idle => g.tapCount == 0
    case WaitPair =>
      var pairDeadline, gapDeadline := g.firstDown + c.pairWindow * 1000, g.lastTapUp + c.interTapGap * 1000;
      && g.firstDown > 0 && (g.tapCount > 0 ==> g.lastTapUp > 0)
      && g.deadline == if g.tapCount > 0 && gapDeadline < pairDeadline then gapDeadline else pairDeadline
    case PairActive => g.pairDown > 0 && g.deadline == g.pairDown + c.tapDuration * 1000 && (g.tapCount > 0 ==> g.lastTapUp > 0)
    case WaitNext => g.tapCount > 0 && g.lastTapUp > 0 && g.deadline == g.lastTapUp + c.interTapGap * 1000
    case QuietTime => g.tapCount == 3 && g.lastTapUp > 0 && g.deadline == g.lastTapUp + c.quiet * 1000
  }

  /** Timed, with fewer taps counted than make a toggle. */
  predicate InTime(c: Config, g: Recogniser) {
    Timed(c, g) && g.tapCount <= 3 && (g.phase in {WaitPair, PairActive, WaitNext} ==> g.tapCount < 3)
  }

  lemma IdleInTime(c: Config, g: Recogniser, f: TouchFrame, enabled: bool)
    requires InTime(c, g) && g.phase == Idle && f.time > 0
    ensures HandleIdle(c, g, f, enabled).1 != Replay ==> InTime(c, HandleIdle(c, g, f, enabled).0)
  {
    hide Active, Downs, ActivePoints, NearReference;
  }

  lemma NextInTime(c: Config, g: Recogniser, f: TouchFrame)
    requires InTime(c, g) && g.phase == WaitNext && f.time > 0
    ensures HandleWaitNext(c, g, f).1 != Replay ==> InTime(c, HandleWaitNext(c, g, f).0)
  {
    hide Active, Downs, ActivePoints, NearReference;
  }

  lemma FingerInTime(c: Config, g: Recogniser, f: TouchFrame)
    requires InTime(c, g) && g.phase == WaitPair && f.time > 0
    ensures HandleWaitPair(c, g, f).1 != Replay ==> InTime(c, HandleWaitPair(c, g, f).0)
  {
    hide Active, ActivePoints, NearReference, FirstMoved;
  }

  lemma PairInTime(c: Config, g: Recogniser, f: TouchFrame)
    requires InTime(c, g) && g.phase == PairActive && f.time > 0
    ensures HandlePairActive(c, g, f).1 != Replay ==> InTime(c, HandlePairActive(c, g, f).0)
  {
    hide Active, PairMoved;
  }

  lemma HandleInTime(c: Config, g: Recogniser, f: TouchFrame, enabled: bool)
    requires InTime(c, g) && f.time > 0
    ensures HandleStep(c, g, f, enabled).1 != Replay ==> InTime(c, HandleStep(c, g, f, enabled).0)
  {
    hide HandleIdle, HandleWaitNext, HandleWaitPair, HandlePairActive, Active, Effective, InTime;
    var h := g.(frames := g.frames + [f]);
    SameTime(c, g, h);
    ResetTimed(c, h);
    match g.phase
    case Idle => IdleInTime(c, g, f, enabled);
    case WaitNext => NextInTime(c, h, f);
    case WaitPair => FingerInTime(c, h, f);
    case PairActive => PairInTime(c, h, f);
    case QuietTime =>
  }

  lemma SameTime(c: Config, g: Recogniser, h: Recogniser)
    requires h == g.(frames := h.frames)
    ensures InTime(c, g) <==> InTime(c, h)
  {
  }

  /** At any time of any run a recogniser that holds frames has announced the deadline its phase calls for. */
  lemma {:induction false} DeadlinesAreAnnounced(c: Config, events: seq<Event>)
    requires Clocked(events)
    ensures InTime(c, Run(c, events).g)
  {
    hide HandleStep, ExpireStep, InTime;
    if events == [] {
      ResetTimed(c, FRESH);
    } else {
      var n := |events| - 1;
      var d := Run(c, events[..n]);
      DeadlinesAreAnnounced(c, events[..n]);
      match events[n]
      case Touch(f, enabled) =>
        HandleInTime(c, d.g, f, enabled);
        ResetTimed(c, HandleStep(c, d.g, f, enabled).0);
      case Timer(now) =>
        ExpireAnswers(c, d.g, now);
        ResetTimed(c, ExpireStep(c, d.g, now).0);
        TimerFrees(c, d.g, now);
      case Resync => ResetTimed(c, d.g);
    }
  }

  lemma ResetTimed(c: Config, g: Recogniser)
    ensures InTime(c, ResetStep(g)) && ResetStep(g).phase == Idle
  {
  }

  /** The timer keeps what it leaves alone, and what it does not is let go. */
  lemma TimerFrees(c: Config, g: Recogniser, now: int)
    ensures var (h, action) := ExpireStep(c, g, now);
      if Early(g, now) then h == g && action == Pass else action != Pass || h == ResetStep(g)
  {
  }

  /** Whatever is buffered is let go - to the page, or for a toggle - by the first timer that is not early. */
  lemma NothingIsHeldForGood(c: Config, events: seq<Event>, now: int)
    requires Clocked(events)
    ensures var d := Run(c, events);
      && (d.g.phase != Idle ==> d.g.deadline > 0)
      && (d.g.phase != Idle && now >= d.g.deadline ==> Drive(c, d, Timer(now)).g.phase == Idle)
  {
    DeadlinesAreAnnounced(c, events);
    hide Run;
    TimerFrees(c, Run(c, events).g, now);
  }
}
