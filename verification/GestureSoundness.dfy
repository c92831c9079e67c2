/**
 What a toggle means: the frames buffered when the recogniser toggles are exactly three
 two-finger taps, followed by quiet.
 */
module GestureSoundness {
  import opened TouchGesture

  // ---------------------------------------------------------------- taps, gaps and quiet

  function PairAt(fs: seq<TouchFrame>, k: nat): (Point, Point)
    requires k < |fs| && Active(fs[k].contacts) == 2
  {
    (ActivePoints(fs[k].contacts)[0], ActivePoints(fs[k].contacts)[1])
  }

  /** One finger from frame a on, put down there and not straying, until end. */
  predicate OneFinger(c: Config, fs: seq<TouchFrame>, a: nat, end: nat) {
    && a < end <= |fs|
    && Downs(fs[a].contacts) > 0
    && (forall i :: a <= i < end ==> Active(fs[i].contacts) == 1)
    && (forall i :: a < i < end ==> !FirstMoved(FirstActive(fs[a].contacts), fs[i].contacts, c.maxMove))
  }

  /** From frame a, where fingers go down, to frame k, where both are down, in time. */
  predicate Landing(c: Config, fs: seq<TouchFrame>, a: nat, k: nat) {
    && a <= k < |fs|
    && Downs(fs[a].contacts) > 0
    && Active(fs[k].contacts) == 2
    && (a < k ==> OneFinger(c, fs, a, k)
                  && !FirstMoved(FirstActive(fs[a].contacts), fs[k].contacts, c.maxMove))
    && fs[k].time - fs[a].time <= c.pairWindow * 1000
  }

  /** The landed pair stays within its limits in frame i. */
  predicate Steady(c: Config, fs: seq<TouchFrame>, a: nat, k: nat, i: nat)
    requires a < |fs| && k < |fs| && i < |fs| && Active(fs[k].contacts) == 2
  {
    && !PairMoved(PairAt(fs, k), fs[i].contacts, c.maxMove)
    && fs[i].time - fs[a].time <= c.tapDuration * 1000
  }

  predicate Holding(c: Config, fs: seq<TouchFrame>, a: nat, k: nat, end: nat) {
    && Landing(c, fs, a, k) && k < end <= |fs|
    && (forall i :: k < i < end ==> 1 <= Active(fs[i].contacts) <= 2 && Steady(c, fs, a, k, i))
  }

  /** A complete two-finger tap: frames a to e, both fingers down at k, all up at e. */
  predicate Tap(c: Config, fs: seq<TouchFrame>, a: nat, k: nat, e: nat) {
    && e < |fs| && Holding(c, fs, a, k, e)
    && Active(fs[e].contacts) == 0 && Steady(c, fs, a, k, e)
  }

  /** Between taps nothing goes down, and no third finger appears. */
  predicate Gap(fs: seq<TouchFrame>, from: nat, to: nat) {
    to <= |fs| && forall i :: from <= i < to ==> Downs(fs[i].contacts) == 0 && Active(fs[i].contacts) <= 2
  }

  predicate Quiet(fs: seq<TouchFrame>, from: nat) {
    forall i :: from <= i < |fs| ==> !Effective(fs[i].contacts)
  }

  /** Where each tap starts, is complete, and ends. */
  datatype Story = Story(a: seq<nat>, k: seq<nat>, e: seq<nat>)

  const NO_STORY := Story([], [], [])

  /** The first starts taps follow one another; punctual: each within the inter-tap gap. */
  predicate Spaced(c: Config, fs: seq<TouchFrame>, a: seq<nat>, e: seq<nat>, starts: nat, punctual: bool) {
    && starts <= |a| && starts <= |e| + 1
    && (starts > 0 ==> a[0] == 0)
    && (forall t :: 0 < t < starts ==>
          && e[t - 1] < a[t] < |fs| && Gap(fs, e[t - 1] + 1, a[t])
          && (punctual ==> fs[a[t]].time < fs[e[t - 1]].time + c.interTapGap * 1000))
  }

  predicate Taps(c: Config, fs: seq<TouchFrame>, a: seq<nat>, k: seq<nat>, e: seq<nat>, n: nat) {
    n <= |a| && n <= |k| && n <= |e| && forall t :: 0 <= t < n ==> Tap(c, fs, a[t], k[t], e[t])
  }

  predicate Landed(fs: seq<TouchFrame>, k: nat) {
    k < |fs| && Active(fs[k].contacts) == 2
  }

  /** The first pairs landings are near the first one. */
  predicate Near(c: Config, fs: seq<TouchFrame>, k: seq<nat>, pairs: nat) {
    && pairs <= |k|
    && (forall t :: 0 <= t < pairs ==> Landed(fs, k[t]))
    && (forall t :: 0 < t < pairs ==> NearReference(PairAt(fs, k[t]), PairAt(fs, k[0]), c.maxDrift))
  }

  /** What a toggle at time now is entitled to claim. */
  predicate TripleTap(c: Config, fs: seq<TouchFrame>, s: Story, now: int, punctual: bool) {
    && |s.a| == |s.k| == |s.e| == 3
    && Taps(c, fs, s.a, s.k, s.e, 3) && Near(c, fs, s.k, 3) && Spaced(c, fs, s.a, s.e, 3, punctual)
    && Quiet(fs, s.e[2] + 1)
    && now >= fs[s.e[2]].time + c.quiet * 1000
  }

  // ---------------------------------------------------------------- the invariant

  predicate Completed(c: Config, g: Recogniser, s: Story) {
    && |s.e| == g.tapCount <= 3
    && Taps(c, g.frames, s.a, s.k, s.e, |s.e|)
    && (g.haveReference <==> |s.e| > 0)
    && (|s.e| > 0 ==> g.reference == PairAt(g.frames, s.k[0]) && g.lastTapUp == g.frames[s.e[|s.e| - 1]].time)
    && (forall i :: 0 <= i < |g.frames| ==> g.frames[i].time > 0)
  }

  predicate OneDown(c: Config, g: Recogniser, s: Story, p: bool) {
    var fs, n := g.frames, |s.e|;
    && |s.a| == n + 1 && |s.k| == n < 3
    && Spaced(c, fs, s.a, s.e, n + 1, p) && Near(c, fs, s.k, n)
    && OneFinger(c, fs, s.a[n], |fs|)
    && g.firstDown == fs[s.a[n]].time && g.haveFirst && g.first == FirstActive(fs[s.a[n]].contacts)
  }

  predicate TwoDown(c: Config, g: Recogniser, s: Story, p: bool) {
    var fs, n := g.frames, |s.e|;
    && |s.a| == |s.k| == n + 1 <= 3
    && Spaced(c, fs, s.a, s.e, n + 1, p) && Near(c, fs, s.k, n + 1)
    && Holding(c, fs, s.a[n], s.k[n], |fs|)
    && g.pair == PairAt(fs, s.k[n]) && g.pairDown == fs[s.a[n]].time
  }

  predicate Between(c: Config, g: Recogniser, s: Story, p: bool) {
    var fs, n := g.frames, |s.e|;
    && |s.a| == |s.k| == n && 0 < n < 3
    && Spaced(c, fs, s.a, s.e, n, p) && Near(c, fs, s.k, n)
    && Gap(fs, s.e[n - 1] + 1, |fs|)
    && g.deadline == g.lastTapUp + c.interTapGap * 1000
  }

  predicate Ended(c: Config, g: Recogniser, s: Story, p: bool) {
    var fs := g.frames;
    && |s.a| == |s.k| == |s.e| == 3
    && Spaced(c, fs, s.a, s.e, 3, p) && Near(c, fs, s.k, 3)
    && Quiet(fs, s.e[2] + 1)
    && g.deadline == g.lastTapUp + c.quiet * 1000
  }

  /** How the recogniser's fields describe the frames it has buffered. */
  predicate Explained(c: Config, g: Recogniser, s: Story, p: bool) {
    Completed(c, g, s) &&
    match g.phase
    case Idle => g.frames == [] && s == NO_STORY
    case WaitPair => OneDown(c, g, s, p)
    case PairActive => TwoDown(c, g, s, p)
    case WaitNext => Between(c, g, s, p)
    case QuietTime => Ended(c, g, s, p)
  }

  // ---------------------------------------------------------------- more frames change no story

  lemma TapKept(c: Config, fs: seq<TouchFrame>, f: TouchFrame, a: nat, k: nat, e: nat)
    requires Tap(c, fs, a, k, e)
    ensures Tap(c, fs + [f], a, k, e)
  {
    var gs := fs + [f];
    assert forall i :: 0 <= i < |fs| ==> gs[i] == fs[i];
    assert forall i :: k < i < e ==> Steady(c, fs, a, k, i) ==> Steady(c, gs, a, k, i);
    assert Steady(c, fs, a, k, e) ==> Steady(c, gs, a, k, e);
  }

  lemma HistoryKept(c: Config, fs: seq<TouchFrame>, f: TouchFrame, s: Story, taps: nat, pairs: nat, starts: nat,
                    punctual: bool)
    requires Taps(c, fs, s.a, s.k, s.e, taps) && Near(c, fs, s.k, pairs) && Spaced(c, fs, s.a, s.e, starts, punctual)
    requires starts <= taps + 1
    ensures Taps(c, fs + [f], s.a, s.k, s.e, taps) && Near(c, fs + [f], s.k, pairs) && Spaced(c, fs + [f], s.a, s.e, starts, punctual)
  {
    var gs := fs + [f];
    assert forall i :: 0 <= i < |fs| ==> gs[i] == fs[i];
    forall t | 0 <= t < taps
      ensures Tap(c, gs, s.a[t], s.k[t], s.e[t])
    {
      TapKept(c, fs, f, s.a[t], s.k[t], s.e[t]);
    }
    forall t | 0 <= t < pairs
      ensures Landed(gs, s.k[t]) && PairAt(gs, s.k[t]) == PairAt(fs, s.k[t])
    {
      assert Landed(fs, s.k[t]);
    }
    forall t | 0 < t < starts
      ensures Gap(gs, s.e[t - 1] + 1, s.a[t]) && gs[s.e[t - 1]] == fs[s.e[t - 1]]
    {
      assert Gap(fs, s.e[t - 1] + 1, s.a[t]);
      assert Tap(c, fs, s.a[t - 1], s.k[t - 1], s.e[t - 1]);
    }
  }

  lemma CompletedKept(c: Config, g: Recogniser, s: Story, f: TouchFrame)
    requires Completed(c, g, s) && f.time > 0
    ensures Completed(c, g.(frames := g.frames + [f]), s)
  {
    var gs := g.frames + [f];
    assert forall i :: 0 <= i < |g.frames| ==> gs[i] == g.frames[i];
    forall t | 0 <= t < |s.e|
      ensures Tap(c, gs, s.a[t], s.k[t], s.e[t])
    {
      TapKept(c, g.frames, f, s.a[t], s.k[t], s.e[t]);
    }
    if |s.e| > 0 {
      assert Tap(c, g.frames, s.a[0], s.k[0], s.e[0]);
    }
  }

  // ---------------------------------------------------------------- each frame extends the story

  lemma IdleExplained(c: Config, g: Recogniser, s: Story, f: TouchFrame, enabled: bool, p: bool) returns (s': Story)
    requires g.phase == Idle && Explained(c, g, s, p) && f.time > 0
    ensures HandleIdle(c, g, f, enabled).1 != Replay ==> Explained(c, HandleIdle(c, g, f, enabled).0, s', p)
  {
    hide Active, Downs, ActivePoints, NearReference, FirstMoved, PairMoved;
    var (h, action) := HandleIdle(c, g, f, enabled);
    s' := match h.phase
      case PairActive => Story([0], [0], [])
      case WaitPair => Story([0], [], [])
      case _ => NO_STORY;
    assert h.frames == [] || h.frames == [f];
  }

  /** A frame that puts nothing down lengthens the gap. */
  lemma GapExplained(c: Config, g: Recogniser, s: Story, f: TouchFrame, p: bool)
    requires g.phase == WaitNext && Explained(c, g, s, p) && f.time > 0
    requires Active(f.contacts) <= 2 && Downs(f.contacts) == 0
    ensures Explained(c, g.(frames := g.frames + [f]), s, p)
  {
    hide Taps, OneFinger, Holding, Landing, Spaced, Near, NearReference, ActivePoints;
    var fs, n := g.frames, |s.e|;
    HistoryKept(c, fs, f, s, n, n, n, p);
    CompletedKept(c, g, s, f);
    TapsLanded(c, fs, s, n - 1);
  }

  /** After a gap the next tap begins with its first finger. */
  lemma GapKept(fs: seq<TouchFrame>, f: TouchFrame, from: nat)
    requires Gap(fs, from, |fs|)
    ensures Gap(fs + [f], from, |fs|)
  {
    hide Active, Downs;
    var gs := fs + [f];
    assert forall i :: 0 <= i < |fs| ==> gs[i] == fs[i];
  }

  lemma NextFinger(c: Config, g: Recogniser, s: Story, f: TouchFrame, p: bool)
    requires g.phase == WaitNext && Explained(c, g, s, p) && f.time > 0
    requires Active(f.contacts) == 1 && Downs(f.contacts) > 0
    requires p ==> f.time < g.deadline
    ensures Explained(c, HandleWaitNext(c, g.(frames := g.frames + [f]), f).0,
                      Story(s.a + [|g.frames|], s.k, s.e), p)
  {
    hide Taps, OneFinger, Holding, Spaced, Near, ActivePoints, NearReference, Gap, Landed, Active, Downs;
    var fs, n := g.frames, |s.e|;
    var gs := fs + [f];
    HistoryKept(c, fs, f, s, n, n, n, p);
    CompletedKept(c, g, s, f);
    TapsLanded(c, fs, s, n - 1);
    GapKept(fs, f, s.e[n - 1] + 1);
    TapsLonger(c, gs, s, Story(s.a + [|fs|], s.k, s.e), n);
    SpacedSnoc(c, gs, s.a, s.e, n, p);
    TapBegins(c, gs);
  }

  /** After a gap the next tap begins with both fingers at once. */
  lemma NextPair(c: Config, g: Recogniser, s: Story, f: TouchFrame, p: bool)
    requires g.phase == WaitNext && Explained(c, g, s, p) && f.time > 0
    requires Active(f.contacts) == 2 && Downs(f.contacts) > 0
    requires p ==> f.time < g.deadline
    ensures var (h, action) := HandleWaitNext(c, g.(frames := g.frames + [f]), f);
      action != Replay ==> Explained(c, h, Story(s.a + [|g.frames|], s.k + [|g.frames|], s.e), p)
  {
    hide Taps, OneFinger, Holding, Spaced, Near, NearReference, ActivePoints;
    var fs, n := g.frames, |s.e|;
    var gs := fs + [f];
    if HandleWaitNext(c, g.(frames := gs), f).1 != Replay {
      HistoryKept(c, fs, f, s, n, n, n, p);
      CompletedKept(c, g, s, f);
      TapsLanded(c, fs, s, n - 1);
      TapsLanded(c, fs, s, 0);
      TapsLonger(c, gs, s, Story(s.a + [|fs|], s.k + [|fs|], s.e), n);
      SpacedSnoc(c, gs, s.a, s.e, n, p);
      NearSnoc(c, gs, s.k, n);
      TapBegins(c, gs);
    }
  }

  lemma TapsLonger(c: Config, fs: seq<TouchFrame>, s: Story, s': Story, n: nat)
    requires Taps(c, fs, s.a, s.k, s.e, n) && s.a <= s'.a && s.k <= s'.k && s.e <= s'.e
    ensures Taps(c, fs, s'.a, s'.k, s'.e, n)
  {
    forall t | 0 <= t < n
      ensures Tap(c, fs, s'.a[t], s'.k[t], s'.e[t])
    {
      assert Tap(c, fs, s.a[t], s.k[t], s.e[t]);
    }
  }

  /** The last frame puts a finger down, or two. */
  lemma TapBegins(c: Config, fs: seq<TouchFrame>)
    requires fs != [] && Downs(fs[|fs| - 1].contacts) > 0
    ensures Active(fs[|fs| - 1].contacts) == 1 ==> OneFinger(c, fs, |fs| - 1, |fs|)
    ensures Active(fs[|fs| - 1].contacts) == 2 ==> Holding(c, fs, |fs| - 1, |fs| - 1, |fs|)
  {
  }

  lemma SpacedSnoc(c: Config, fs: seq<TouchFrame>, a: seq<nat>, e: seq<nat>, n: nat, p: bool)
    requires |a| == |e| == n > 0 && |fs| > 0 && Spaced(c, fs, a, e, n, p)
    requires e[n - 1] < |fs| - 1 && Gap(fs, e[n - 1] + 1, |fs| - 1)
    requires p ==> fs[|fs| - 1].time < fs[e[n - 1]].time + c.interTapGap * 1000
    ensures Spaced(c, fs, a + [|fs| - 1], e, n + 1, p)
  {
  }

  lemma NearSnoc(c: Config, fs: seq<TouchFrame>, k: seq<nat>, n: nat)
    requires |k| == n && Near(c, fs, k, n)
    requires |fs| > 0 && Landed(fs, |fs| - 1)
    requires n > 0 ==> NearReference(PairAt(fs, |fs| - 1), PairAt(fs, k[0]), c.maxDrift)
    ensures Near(c, fs, k + [|fs| - 1], n + 1)
  {
    assert forall t :: 0 <= t < n ==> Landed(fs, k[t]);
  }

  /** After one more frame there is still one finger, or the second has landed. */
  lemma FingerKept(c: Config, fs: seq<TouchFrame>, f: TouchFrame, a: nat)
    requires OneFinger(c, fs, a, |fs|)
    ensures a < |fs| && Active(fs[a].contacts) == 1
    ensures !FirstMoved(FirstActive(fs[a].contacts), f.contacts, c.maxMove) && Active(f.contacts) == 1 ==>
              OneFinger(c, fs + [f], a, |fs| + 1)
    ensures !FirstMoved(FirstActive(fs[a].contacts), f.contacts, c.maxMove) && Active(f.contacts) == 2
            && f.time - fs[a].time <= c.pairWindow * 1000 ==>
              Holding(c, fs + [f], a, |fs|, |fs| + 1)
  {
    var gs := fs + [f];
    assert forall i :: 0 <= i < |fs| ==> gs[i] == fs[i];
    assert OneFinger(c, gs, a, |fs|);
  }

  /** While one finger is down the second one may land. */
  lemma WaitPairExplained(c: Config, g: Recogniser, s: Story, f: TouchFrame, p: bool) returns (s': Story)
    requires g.phase == WaitPair && Explained(c, g, s, p) && f.time > 0 && Active(f.contacts) <= 2
    ensures var (h, action) := HandleWaitPair(c, g.(frames := g.frames + [f]), f);
      action != Replay ==> Explained(c, h, s', p) && (h.phase != Idle ==> Continues(s, s'))
  {
    hide Taps, OneFinger, Holding, Landing, Spaced, Near, NearReference, ActivePoints, FirstMoved, Gap, Downs, Quiet;
    var fs, n := g.frames, |s.e|;
    var gs := fs + [f];
    var (h, action) := HandleWaitPair(c, g.(frames := gs), f);
    HistoryKept(c, fs, f, s, n, n, n + 1, p);
    CompletedKept(c, g, s, f);
    FingerKept(c, fs, f, s.a[n]);
    assert gs[s.a[n]] == fs[s.a[n]];
    if n > 0 {
      TapsLanded(c, fs, s, 0);
    }
    if h.phase == Idle {
      ResetExplained(c, g.(frames := gs), p);
      s' := NO_STORY;
    } else if h.phase == PairActive {
      s' := Story(s.a, s.k + [|fs|], s.e);
      NearSnoc(c, gs, s.k, n);
      TapsLonger(c, gs, s, s', n);
    } else {
      s' := s;
    }
  }

  /** One more frame within the limits keeps the pair held, or completes the tap. */
  lemma HoldingExtended(c: Config, fs: seq<TouchFrame>, f: TouchFrame, a: nat, k: nat)
    requires Holding(c, fs, a, k, |fs|)
    ensures a <= k < |fs| && Landed(fs, k)
    ensures !PairMoved(PairAt(fs, k), f.contacts, c.maxMove) && f.time - fs[a].time <= c.tapDuration * 1000 ==>
              && (1 <= Active(f.contacts) <= 2 ==> Holding(c, fs + [f], a, k, |fs| + 1))
              && (Active(f.contacts) == 0 ==> Tap(c, fs + [f], a, k, |fs|))
  {
    var gs := fs + [f];
    assert forall i :: 0 <= i < |fs| ==> gs[i] == fs[i];
    assert forall i :: k < i < |fs| ==> Steady(c, fs, a, k, i) ==> Steady(c, gs, a, k, i);
  }

  lemma PairHolds(c: Config, g: Recogniser, s: Story, f: TouchFrame, p: bool)
    requires g.phase == PairActive && Explained(c, g, s, p) && f.time > 0 && 1 <= Active(f.contacts) <= 2
    ensures var (h, action) := HandlePairActive(c, g.(frames := g.frames + [f]), f);
      action != Replay ==> Explained(c, h, s, p)
  {
    hide Holding, Tap, Landing, Spaced, Near, NearReference, ActivePoints, PairMoved, Taps;
    var fs, n := g.frames, |s.e|;
    HistoryKept(c, fs, f, s, n, n + 1, n + 1, p);
    CompletedKept(c, g, s, f);
    HoldingExtended(c, fs, f, s.a[n], s.k[n]);
    assert (fs + [f])[s.a[n]] == fs[s.a[n]] && (fs + [f])[s.k[n]] == fs[s.k[n]];
  }

  /** The lifted pair is one more tap. */
  lemma LiftCompletes(c: Config, g: Recogniser, s: Story, f: TouchFrame, p: bool)
    requires g.phase == PairActive && Explained(c, g, s, p) && f.time > 0 && Active(f.contacts) == 0
    ensures var (h, action) := HandlePairActive(c, g.(frames := g.frames + [f]), f);
      action != Replay ==> Completed(c, h, Story(s.a, s.k, s.e + [|g.frames|]))
  {
    hide Holding, Tap, Landing, Spaced, Near, NearReference, ActivePoints, PairMoved, Taps, Gap, Quiet, OneFinger, Steady;
    var fs, n := g.frames, |s.e|;
    var gs := fs + [f];
    HistoryKept(c, fs, f, s, n, n + 1, n + 1, p);
    HoldingExtended(c, fs, f, s.a[n], s.k[n]);
    assert gs[s.a[n]] == fs[s.a[n]] && gs[s.k[n]] == fs[s.k[n]];
    if HandlePairActive(c, g.(frames := gs), f).1 != Replay {
      TapsMore(c, gs, s, |fs|);
      if n > 0 {
        TapsLanded(c, fs, s, 0);
        assert gs[s.k[0]] == fs[s.k[0]];
      }
    }
  }

  lemma CompletedFacts(c: Config, g: Recogniser, s: Story)
    requires Completed(c, g, s)
    ensures |s.e| == g.tapCount <= 3
  {
  }

  /** What is left of the recogniser when the pair lifts in time. */
  lemma LiftStep(c: Config, g: Recogniser, f: TouchFrame)
    requires Active(f.contacts) == 0
    ensures var (h, action) := HandlePairActive(c, g, f);
      action != Replay ==>
        && h.frames == g.frames && h.tapCount == g.tapCount + 1 && h.lastTapUp == f.time
        && (if h.tapCount >= 3 then h.phase == QuietTime && h.deadline == f.time + c.quiet * 1000
            else h.phase == WaitNext && h.deadline == f.time + c.interTapGap * 1000)
  {
    hide PairMoved, Active;
  }

  /** One more complete tap, and nothing after it. */
  lemma AfterLift(c: Config, h: Recogniser, s: Story, p: bool)
    requires Completed(c, h, s) && |s.a| == |s.k| == |s.e| == h.tapCount > 0 && s.e[|s.e| - 1] + 1 == |h.frames|
    requires Spaced(c, h.frames, s.a, s.e, |s.e|, p) && Near(c, h.frames, s.k, |s.e|)
    requires if h.tapCount >= 3 then h.phase == QuietTime && h.deadline == h.lastTapUp + c.quiet * 1000
             else h.phase == WaitNext && h.deadline == h.lastTapUp + c.interTapGap * 1000
    ensures Explained(c, h, s, p)
  {
    hide Completed, Spaced, Near, Active, Downs, Effective;
    CompletedFacts(c, h, s);
  }

  lemma PairLifts(c: Config, g: Recogniser, s: Story, f: TouchFrame, p: bool)
    requires g.phase == PairActive && Explained(c, g, s, p) && f.time > 0 && Active(f.contacts) == 0
    ensures var (h, action) := HandlePairActive(c, g.(frames := g.frames + [f]), f);
      action != Replay ==> Explained(c, h, Story(s.a, s.k, s.e + [|g.frames|]), p)
  {
    hide HandlePairActive, Explained, Completed, Spaced, Near, Active;
    var fs, n := g.frames, |s.e|;
    var gs := fs + [f];
    LiftedStory(c, g, s, f, p);
    LiftCompletes(c, g, s, f, p);
    LiftStep(c, g.(frames := gs), f);
    var (h, action) := HandlePairActive(c, g.(frames := gs), f);
    if action != Replay {
      AfterLift(c, h, Story(s.a, s.k, s.e + [|fs|]), p);
    }
  }

  lemma LiftedStory(c: Config, g: Recogniser, s: Story, f: TouchFrame, p: bool)
    requires g.phase == PairActive && Explained(c, g, s, p)
    ensures var n, gs := |s.e|, g.frames + [f];
      && |s.a| == |s.k| == n + 1 && n == g.tapCount < 3
      && Spaced(c, gs, s.a, s.e + [|g.frames|], n + 1, p) && Near(c, gs, s.k, n + 1)
  {
    hide Holding, Spaced, Near, Taps;
    var n := |s.e|;
    HistoryKept(c, g.frames, f, s, n, n + 1, n + 1, p);
    SpacedMore(c, g.frames + [f], s.a, s.e, |g.frames|, n + 1, p);
  }

  /** The pair holds, or lifts and completes the tap. */
  lemma PairExplained(c: Config, g: Recogniser, s: Story, f: TouchFrame, p: bool) returns (s': Story)
    requires g.phase == PairActive && Explained(c, g, s, p) && f.time > 0 && Active(f.contacts) <= 2
    ensures var (h, action) := HandlePairActive(c, g.(frames := g.frames + [f]), f);
      action != Replay ==> Explained(c, h, s', p)
    ensures Continues(s, s')
  {
    hide Explained, HandlePairActive;
    if Active(f.contacts) > 0 {
      PairHolds(c, g, s, f, p);
      s' := s;
    } else {
      PairLifts(c, g, s, f, p);
      s' := Story(s.a, s.k, s.e + [|g.frames|]);
    }
  }

  lemma SpacedMore(c: Config, fs: seq<TouchFrame>, a: seq<nat>, e: seq<nat>, x: nat, n: nat, p: bool)
    requires Spaced(c, fs, a, e, n, p)
    ensures Spaced(c, fs, a, e + [x], n, p)
  {
    var r := e + [x];
    assert forall t :: 0 <= t < |e| ==> r[t] == e[t];
  }

  lemma TapsMore(c: Config, fs: seq<TouchFrame>, s: Story, x: nat)
    requires |s.a| == |s.k| == |s.e| + 1 && Taps(c, fs, s.a, s.k, s.e, |s.e|)
    requires Tap(c, fs, s.a[|s.e|], s.k[|s.e|], x)
    ensures Taps(c, fs, s.a, s.k, s.e + [x], |s.e| + 1)
  {
    forall t | 0 <= t < |s.e| + 1
      ensures Tap(c, fs, s.a[t], s.k[t], (s.e + [x])[t])
    {
      assert t < |s.e| ==> Tap(c, fs, s.a[t], s.k[t], s.e[t]);
    }
  }

  lemma TapsLanded(c: Config, fs: seq<TouchFrame>, s: Story, t: nat)
    requires t < |s.e| && Taps(c, fs, s.a, s.k, s.e, |s.e|)
    ensures s.e[t] < |fs| && Landed(fs, s.k[t])
  {
    assert Tap(c, fs, s.a[t], s.k[t], s.e[t]);
  }

  lemma QuietExplained(c: Config, g: Recogniser, s: Story, f: TouchFrame, p: bool)
    requires g.phase == QuietTime && Explained(c, g, s, p) && f.time > 0 && !Effective(f.contacts)
    ensures Explained(c, g.(frames := g.frames + [f]), s, p)
  {
    hide Holding, Landing, NearReference, ActivePoints, PairMoved, OneFinger, Steady, Gap;
    HistoryKept(c, g.frames, f, s, 3, 3, 3, p);
    CompletedKept(c, g, s, f);
    assert Tap(c, g.frames, s.a[2], s.k[2], s.e[2]);
  }

  lemma ResetExplained(c: Config, g: Recogniser, p: bool)
    ensures Explained(c, ResetStep(g), NO_STORY, p)
  {
  }

  /** A frame that puts a finger down between taps when the inter-tap gap is already over. */
  predicate StartsLate(g: Recogniser, f: TouchFrame) {
    g.phase == WaitNext && Downs(f.contacts) > 0 && f.time >= g.deadline
  }

  predicate Continues(s: Story, s': Story) {
    s.a <= s'.a && s.e <= s'.e
  }

  lemma FramesGrow(c: Config, g: Recogniser, f: TouchFrame, enabled: bool)
    requires g.phase != Idle
    ensures var (h, action) := HandleStep(c, g, f, enabled);
      action != Replay && h.phase != Idle ==> h.frames == g.frames + [f]
  {
  }

  /**
   Every frame that does not end the candidate keeps the buffered frames explained; a frame that
   starts a tap in time, or starts none, keeps the gaps of the story within the limit.
   */
  lemma HandleExplained(c: Config, g: Recogniser, s: Story, f: TouchFrame, enabled: bool, p: bool)
    returns (s': Story)
    requires Explained(c, g, s, p) && f.time > 0
    requires p ==> !StartsLate(g, f)
    ensures HandleStep(c, g, f, enabled).1 != Replay ==> Explained(c, HandleStep(c, g, f, enabled).0, s', p)
    ensures HandleStep(c, g, f, enabled).1 != Replay && HandleStep(c, g, f, enabled).0.phase != Idle && g.phase != Idle ==>
              && Continues(s, s')
              && (StartsLate(g, f) ==> s'.a == s.a + [|g.frames|])
  {
    hide Explained, HandleIdle, HandleWaitPair, HandlePairActive, BeginPair, PairProblem;
    s' := NO_STORY;
    ResetExplained(c, g, p);
    if g.phase == Idle {
      s' := IdleExplained(c, g, s, f, enabled, p);
    } else if |g.frames| < MAX_BUFFERED_FRAMES && enabled {
      match g.phase
      case QuietTime =>
        if !Effective(f.contacts) {
          QuietExplained(c, g, s, f, p);
        }
        s' := s;
      case WaitNext =>
        if Active(f.contacts) > 2 {
        } else if Downs(f.contacts) == 0 {
          GapExplained(c, g, s, f, p);
          s' := s;
        } else if Active(f.contacts) == 1 {
          NextFinger(c, g, s, f, p);
          s' := Story(s.a + [|g.frames|], s.k, s.e);
        } else if Active(f.contacts) == 2 {
          NextPair(c, g, s, f, p);
          s' := Story(s.a + [|g.frames|], s.k + [|g.frames|], s.e);
        }
      case WaitPair =>
        if Active(f.contacts) <= 2 {
          s' := WaitPairExplained(c, g, s, f, p);
        }
      case PairActive =>
        if Active(f.contacts) <= 2 {
          s' := PairExplained(c, g, s, f, p);
        }
    }
  }

  lemma GapsMayBeIgnored(c: Config, g: Recogniser, s: Story, p: bool)
    requires Explained(c, g, s, true)
    ensures Explained(c, g, s, p)
  {
    hide Taps, Near, OneFinger, Holding, Gap, Quiet, ActivePoints, NearReference;
  }

  // ---------------------------------------------------------------- frames have one reading

  /** The story's gap before tap t is over the limit. */
  predicate Overdue(c: Config, fs: seq<TouchFrame>, s: Story, t: nat) {
    && 0 < t < |s.a| && t <= |s.e| && s.a[t] < |fs| && s.e[t - 1] < |fs|
    && fs[s.a[t]].time >= fs[s.e[t - 1]].time + c.interTapGap * 1000
  }

  /** A tap ends with the first frame after its start in which nothing is down. */
  lemma TapEnd(c: Config, fs: seq<TouchFrame>, a: nat, k: nat, e: nat)
    requires Tap(c, fs, a, k, e)
    ensures a < e < |fs| && Active(fs[e].contacts) == 0 && forall i :: a <= i < e ==> Active(fs[i].contacts) > 0
    ensures Downs(fs[a].contacts) > 0
  {
    hide Steady, FirstMoved, Active, Downs;
  }

  lemma SameTap(c: Config, fs: seq<TouchFrame>, a: nat, k: nat, e: nat, k': nat, e': nat)
    requires Tap(c, fs, a, k, e) && Tap(c, fs, a, k', e')
    ensures e == e'
  {
    TapEnd(c, fs, a, k, e);
    TapEnd(c, fs, a, k', e');
    hide Tap, Active;
  }

  lemma SameStart(c: Config, fs: seq<TouchFrame>, e: nat, a: nat, a': nat)
    requires e < a < |fs| && e < a' < |fs| && Gap(fs, e + 1, a) && Gap(fs, e + 1, a')
    requires Downs(fs[a].contacts) > 0 && Downs(fs[a'].contacts) > 0
    ensures a == a'
  {
    hide Downs, Active;
  }

  /** The contacts alone decide where the taps of a triple tap start and end. */
  lemma OneReading(c: Config, fs: seq<TouchFrame>, s: Story, s': Story, now: int, p: bool, p': bool)
    requires TripleTap(c, fs, s, now, p) && TripleTap(c, fs, s', now, p')
    ensures s.a == s'.a && s.e == s'.e
  {
    hide Tap, Near, Quiet, Gap, Active, Downs;
    forall t | 0 <= t < 3
      ensures Tap(c, fs, s.a[t], s.k[t], s.e[t]) && Downs(fs[s.a[t]].contacts) > 0
      ensures Tap(c, fs, s'.a[t], s'.k[t], s'.e[t]) && Downs(fs[s'.a[t]].contacts) > 0
    {
      TapEnd(c, fs, s.a[t], s.k[t], s.e[t]);
      TapEnd(c, fs, s'.a[t], s'.k[t], s'.e[t]);
    }
    SameTap(c, fs, s.a[0], s.k[0], s.e[0], s'.k[0], s'.e[0]);
    SameStart(c, fs, s.e[0], s.a[1], s'.a[1]);
    SameTap(c, fs, s.a[1], s.k[1], s.e[1], s'.k[1], s'.e[1]);
    SameStart(c, fs, s.e[1], s.a[2], s'.a[2]);
    SameTap(c, fs, s.a[2], s.k[2], s.e[2], s'.k[2], s'.e[2]);
  }

  /** An overdue gap in one reading rules out every reading within the limit. */
  lemma OverdueInEveryReading(c: Config, fs: seq<TouchFrame>, s: Story, t: nat, s': Story, now: int)
    requires TripleTap(c, fs, s, now, false) && Overdue(c, fs, s, t)
    ensures !TripleTap(c, fs, s', now, true)
  {
    if TripleTap(c, fs, s', now, true) {
      OneReading(c, fs, s, s', now, false, true);
      hide Taps, Near, Quiet, Gap;
    }
  }

  /** A toggle is justified by the story of the buffered frames. */
  lemma ToggleExplained(c: Config, g: Recogniser, s: Story, now: int, p: bool)
    requires Explained(c, g, s, p) && ExpireStep(c, g, now).1 == Toggle
    ensures TripleTap(c, g.frames, s, now, p)
  {
  }

  lemma ExpireExplained(c: Config, g: Recogniser, s: Story, now: int, p: bool)
    requires Explained(c, g, s, p) && ExpireStep(c, g, now).1 == Pass
    ensures Explained(c, ExpireStep(c, g, now).0, if ExpireStep(c, g, now).0.phase == Idle then NO_STORY else s, p)
    ensures var h := ExpireStep(c, g, now).0; h.phase == Idle || h.deadline == 0 || now < h.deadline
  {
    ResetExplained(c, g, p);
    if g.phase != Idle {
      hide Explained;
    }
  }
}
