/**
 Memory pressure with hysteresis: rises at once, falls one level at a time and only after an unbroken
 stretch of safe readings.
 */
module MemoryGovernor {

  datatype Level = Normal | Warning | Critical

  datatype Snapshot = Snapshot(totalKB: nat, availableKB: nat, swapTotalKB: nat, swapFreeKB: nat)

  datatype Policy = Policy(warningPercent: nat, criticalPercent: nat, warningAvailableMB: nat, criticalAvailableMB: nat,
                           recoverySeconds: nat)

  function Rank(level: Level): nat {
    match level
    case Normal => 0
    case Warning => 1
    case Critical => 2
  }

  function UsedPercent(s: Snapshot): (percent: nat)
    ensures percent <= 100
  {
    if s.totalKB == 0 then 0
    else
      var available := if s.availableKB < s.totalKB then s.availableKB else s.totalKB;
      PercentBound(s.totalKB, available);
      (s.totalKB - available) * 100 / s.totalKB
  }

  lemma PercentBound(total: nat, available: nat)
    requires 0 < total && available <= total
    ensures 0 <= (total - available) * 100 / total <= 100
  {
    var used := (total - available) * 100;
    var percent := used / total;
    assert percent * total <= used <= 100 * total;
    assert percent > 100 ==> percent * total >= 101 * total;
  }

  function Classify(s: Snapshot, p: Policy): Level {
    var used := UsedPercent(s);
    if used >= p.criticalPercent || s.availableKB <= p.criticalAvailableMB * 1024
       || (s.swapTotalKB != 0 && s.swapFreeKB <= 64 * 1024) then Critical
    else if used >= p.warningPercent || s.availableKB <= p.warningAvailableMB * 1024
            || (s.swapTotalKB != 0 && s.swapFreeKB * 10 <= s.swapTotalKB * 3) then Warning
    else Normal
  }

  /** The reading is clear of the limits that keep the given level, by the margins of the hysteresis. */
  predicate SafelyRecovered(level: Level, s: Snapshot, p: Policy) {
    var critical := level == Critical;
    var threshold := if critical then p.criticalPercent else p.warningPercent;
    var availableMB := if critical then p.criticalAvailableMB + 32 else p.warningAvailableMB + 64;
    && UsedPercent(s) + 4 < threshold
    && s.availableKB > availableMB * 1024
    && (s.swapTotalKB == 0
        || if critical then s.swapFreeKB > 128 * 1024 else s.swapFreeKB * 10 > s.swapTotalKB * 4)
  }

  /** The share of the memory in use reaches a limit; what is available beyond the total does not count. */
  predicate UsesShare(s: Snapshot, percent: nat) {
    (s.totalKB <= s.availableKB && percent == 0) || (s.totalKB - s.availableKB) * 100 >= percent * s.totalKB
  }

  lemma ShareReached(s: Snapshot, percent: nat)
    requires s.totalKB != 0
    ensures UsedPercent(s) >= percent <==> UsesShare(s, percent)
  {
    var available := if s.availableKB < s.totalKB then s.availableKB else s.totalKB;
    Quotient((s.totalKB - available) * 100, s.totalKB, percent);
    if s.totalKB <= s.availableKB && percent > 0 {
      assert percent * s.totalKB > 0;
    }
  }

  lemma Quotient(a: nat, b: nat, q: nat)
    requires b > 0
    ensures a / b >= q <==> a >= q * b
  {
    var k := a / b;
    assert k * b <= a < (k + 1) * b;
    if k >= q {
      assert q * b <= k * b;
    } else {
      assert (k + 1) * b <= q * b;
    }
  }

  /** Critical by the share in use, by what is left, or by at most 64 MB of free swap; Warning likewise, by at most 30% of it. */
  lemma Thresholds(s: Snapshot, p: Policy)
    requires s.totalKB != 0
    ensures Classify(s, p) == Critical <==>
              || UsesShare(s, p.criticalPercent) || s.availableKB <= p.criticalAvailableMB * 1024
              || (s.swapTotalKB != 0 && s.swapFreeKB <= 65536)
    ensures Classify(s, p) != Normal <==>
              || Classify(s, p) == Critical
              || UsesShare(s, p.warningPercent) || s.availableKB <= p.warningAvailableMB * 1024
              || (s.swapTotalKB != 0 && s.swapFreeKB * 100 <= s.swapTotalKB * 30)
  {
    ShareReached(s, p.criticalPercent);
    ShareReached(s, p.warningPercent);
  }

  /** With less memory or swap left the level is no lower, and no recovery safer. */
  lemma LessMemoryIsNoBetter(s: Snapshot, t: Snapshot, level: Level, p: Policy)
    requires t.totalKB == s.totalKB && t.availableKB <= s.availableKB
    requires t.swapTotalKB == s.swapTotalKB && t.swapFreeKB <= s.swapFreeKB
    ensures Rank(Classify(t, p)) >= Rank(Classify(s, p))
    ensures SafelyRecovered(level, t, p) ==> SafelyRecovered(level, s, p)
  {
    if s.totalKB != 0 {
      ShareReached(s, UsedPercent(s));
      ShareReached(t, UsedPercent(s));
    }
  }

  /** The margins are real: a safe recovery from Critical is not at a limit of Critical. */
  lemma RecoveredIsClear(s: Snapshot, p: Policy)
    requires SafelyRecovered(Critical, s, p)
    ensures Classify(s, p) != Critical
  {
  }

  datatype Governor = Governor(level: Level, recoverySinceUS: int)

  /** A reading, if there is one, and its time. */
  datatype Reading = Reading(snapshot: Snapshot, nowUS: int)
  {
    predicate Valid() {
      snapshot.totalKB != 0
    }
  }

  function Step(g: Governor, r: Reading, p: Policy): Governor {
    if !r.Valid() then g.(recoverySinceUS := 0)
    else
      var desired := Classify(r.snapshot, p);
      if Rank(desired) > Rank(g.level) then Governor(desired, 0)
      else if Rank(desired) == Rank(g.level) || !SafelyRecovered(g.level, r.snapshot, p) then g.(recoverySinceUS := 0)
      else if g.recoverySinceUS == 0 then g.(recoverySinceUS := r.nowUS)
      else if r.nowUS - g.recoverySinceUS >= p.recoverySeconds * 1_000_000 then
        Governor(if g.level == Critical then Warning else desired, 0)
      else g
  }

  /** The governor as the browser keeps it. */
  class BrowserMemoryGovernor {
    var level: Level
    var recoverySinceUS: int

    ghost function State(): Governor
      reads this
    {
      Governor(level, recoverySinceUS)
    }

    constructor ()
      ensures State() == START
    {
      level, recoverySinceUS := Normal, 0;
    }

    /** True when the level changed. */
    method Update(r: Reading, p: Policy) returns (changed: bool)
      modifies this
      ensures State() == Step(old(State()), r, p)
      ensures changed == (level != old(level))
    {
      if !r.Valid() {
        recoverySinceUS := 0;
        return false;
      }
      var desired := Classify(r.snapshot, p);
      var previous := level;
      if Rank(desired) > Rank(level) {
        level := desired;
        recoverySinceUS := 0;
      } else if Rank(desired) < Rank(level) {
        var critical := level == Critical;
        var recovered := SafelyRecovered(level, r.snapshot, p);
        if !recovered {
          recoverySinceUS := 0;
        } else if recoverySinceUS == 0 {
          recoverySinceUS := r.nowUS;
        } else if r.nowUS - recoverySinceUS >= p.recoverySeconds * 1_000_000 {
          level := if critical then Warning else desired;
          recoverySinceUS := 0;
        }
      } else {
        recoverySinceUS := 0;
      }
      return previous != level;
    }
  }

  // ---------------------------------------------------------------- runs

  const START := Governor(Normal, 0)

  function Run(rs: seq<Reading>, p: Policy): Governor {
    if rs == [] then START else Step(Run(rs[..|rs| - 1], p), rs[|rs| - 1], p)
  }

  lemma RunPrefix(rs: seq<Reading>, n: nat, p: Policy)
    requires n < |rs|
    ensures Run(rs[..n + 1], p) == Step(Run(rs[..n], p), rs[n], p)
  {
    assert rs[..n + 1][..n] == rs[..n];
  }

  /** A valid reading that calls for less than the level, by the margins of the hysteresis. */
  predicate Recovering(level: Level, r: Reading, p: Policy) {
    r.Valid() && Rank(Classify(r.snapshot, p)) < Rank(level) && SafelyRecovered(level, r.snapshot, p)
  }

  /** From reading i to reading j the level stayed the same before each reading, and each was a recovering one. */
  predicate Stretch(rs: seq<Reading>, i: nat, j: nat, level: Level, p: Policy) {
    && i <= j < |rs|
    && forall k :: i <= k <= j ==> Recovering(level, rs[k], p) && Run(rs[..k], p).level == level
  }

  /** The level is never below what the last valid reading calls for, and rises to it at once. */
  lemma NeverBelowPressure(rs: seq<Reading>, p: Policy)
    requires rs != [] && rs[|rs| - 1].Valid()
    ensures var before, after := Run(rs[..|rs| - 1], p).level, Run(rs, p).level;
      var desired := Classify(rs[|rs| - 1].snapshot, p);
      && Rank(after) >= Rank(desired)
      && (Rank(desired) >= Rank(before) ==> after == desired)
  {
  }

  /** Critical never falls straight to Normal, and an invalid reading changes nothing. */
  lemma FallsOneLevelAtATime(rs: seq<Reading>, p: Policy)
    requires rs != []
    ensures var before, after := Run(rs[..|rs| - 1], p).level, Run(rs, p).level;
      && (before == Critical ==> after != Normal)
      && (!rs[|rs| - 1].Valid() ==> after == before)
  {
  }

  /** A running recovery began at a reading from which on all readings were recovering ones. */
  lemma {:induction false} RecoveryIsAStretch(rs: seq<Reading>, p: Policy) returns (i: nat)
    ensures Run(rs, p).recoverySinceUS != 0 ==>
              && i < |rs| && rs[i].nowUS == Run(rs, p).recoverySinceUS
              && Stretch(rs, i, |rs| - 1, Run(rs, p).level, p)
  {
    i := 0;
    if rs != [] {
      var n := |rs| - 1;
      var before := Run(rs[..n], p);
      if Run(rs, p).recoverySinceUS != 0 {
        if before.recoverySinceUS == 0 {
          i := n;
        } else {
          i := RecoveryIsAStretch(rs[..n], p);
        }
        forall k | i <= k <= n
          ensures Recovering(Run(rs, p).level, rs[k], p) && Run(rs[..k], p).level == Run(rs, p).level
        {
          if k < n {
            assert rs[..n][k] == rs[k] && rs[..n][..k] == rs[..k];
          }
        }
      }
    }
  }

  /** Every fall ends a stretch of recovering readings that spans at least the recovery time. */
  lemma FallNeedsStretch(rs: seq<Reading>, p: Policy) returns (i: nat)
    requires rs != [] && Rank(Run(rs, p).level) < Rank(Run(rs[..|rs| - 1], p).level)
    ensures i < |rs| - 1 && Stretch(rs, i, |rs| - 1, Run(rs[..|rs| - 1], p).level, p)
    ensures rs[|rs| - 1].nowUS - rs[i].nowUS >= p.recoverySeconds * 1_000_000
  {
    var n := |rs| - 1;
    var level := Run(rs[..n], p).level;
    i := RecoveryIsAStretch(rs[..n], p);
    forall k | i <= k <= n
      ensures Recovering(level, rs[k], p) && Run(rs[..k], p).level == level
    {
      if k < n {
        assert rs[..n][k] == rs[k] && rs[..n][..k] == rs[..k];
      }
    }
  }

  predicate Clocked(rs: seq<Reading>) {
    && (forall i :: 0 <= i < |rs| ==> 0 < rs[i].nowUS)
    && (forall i, j :: 0 <= i < j < |rs| ==> rs[i].nowUS <= rs[j].nowUS)
  }

  /** Conversely, under a running clock, such a stretch ends in a fall. */
  lemma StretchFalls(rs: seq<Reading>, i: nat, j: nat, level: Level, p: Policy)
    requires Clocked(rs) && i < j && Stretch(rs, i, j, level, p)
    requires rs[j].nowUS - rs[i].nowUS >= p.recoverySeconds * 1_000_000
    ensures Rank(Run(rs[..j + 1], p).level) < Rank(level)
  {
    SinceAtMost(rs, i, j, level, p);
    RunPrefix(rs, j, p);
  }

  /** Within a stretch the recovery runs, since its first reading or longer. */
  lemma {:induction false} SinceAtMost(rs: seq<Reading>, i: nat, j: nat, level: Level, p: Policy)
    requires Clocked(rs) && i < j && Stretch(rs, i, j, level, p)
    ensures Run(rs[..j], p).recoverySinceUS != 0 && Run(rs[..j], p).recoverySinceUS <= rs[i].nowUS
    decreases j
  {
    hide Run, Classify, SafelyRecovered;
    RunPrefix(rs, j - 1, p);
    assert Recovering(level, rs[j - 1], p) && Run(rs[..j - 1], p).level == level;
    if i < j - 1 {
      SinceAtMost(rs, i, j - 1, level, p);
    } else {
      SinceInPast(rs, i, p);
    }
  }

  lemma {:induction false} SinceInPast(rs: seq<Reading>, n: nat, p: Policy)
    requires Clocked(rs) && n < |rs|
    ensures Run(rs[..n], p).recoverySinceUS <= rs[n].nowUS
  {
    if n > 0 {
      RunPrefix(rs, n - 1, p);
      hide Run, Classify, SafelyRecovered;
      SinceInPast(rs, n - 1, p);
    }
  }
}
