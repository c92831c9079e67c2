/**
 Rendering fences, and the quarantine that keeps a discarded GPU buffer from its producer until the
 GPU has finished with it.
 */
module FenceRetirement {

  datatype FenceResult = Ready | Pending | Failed | TimedOut

  const MAXIMUM_RETAINED := 4

  /**
   The kernel's view of the fences: which have signalled, and which a probe has found broken.  A
   signalled fence stays signalled, a broken one is broken until it signals, and what a probe finds of
   any other is arbitrary.  Fence 0 is the absent descriptor.
   */
  class FenceBoard {
    var signalled: set<nat>
    var failed: set<nat>

    constructor ()
      ensures signalled == failed == {}
    {
      signalled, failed := {}, {};
    }

    ghost predicate Open(fence: nat)
      reads this
    {
      fence == 0 || fence in signalled
    }

    twostate predicate Later()
      reads this
    {
      old(signalled) <= signalled && old(failed) <= failed
    }

    method Probe(fence: nat) returns (result: FenceResult)
      modifies this
      ensures Later()
      ensures result == Ready <==> Open(fence)
      ensures result == Failed <==> !Open(fence) && fence in failed
      ensures result != TimedOut
    {
      if fence == 0 {
        return Ready;
      }
      var signalledNow: bool, failedNow: bool := *, *;
      if signalledNow {
        signalled := signalled + {fence};
      }
      if fence in signalled {
        return Ready;
      }
      if failedNow {
        failed := failed + {fence};
      }
      return if fence in failed then Failed else Pending;
    }
  }

  /** A quarantined buffer; watched while a source polls its fence, done once it was handed back. */
  datatype Entry = Entry(fence: nat, buffer: nat, watched: bool, done: bool)

  ghost function Waiting(entries: seq<Entry>): set<nat> {
    set i | 0 <= i < |entries| && !entries[i].done :: entries[i].buffer
  }

  ghost predicate Distinct(entries: seq<Entry>) {
    forall i, j :: 0 <= i < j < |entries| && !entries[i].done && !entries[j].done ==> entries[i].buffer != entries[j].buffer
  }

  /** No entry is done, and the buffers differ. */
  lemma {:induction false} AsManyAsWaiting(entries: seq<Entry>)
    requires Distinct(entries) && forall i :: 0 <= i < |entries| ==> !entries[i].done
    ensures |entries| == |Waiting(entries)|
  {
    if entries == [] {
      assert Waiting(entries) == {};
    } else {
      var n := |entries| - 1;
      var rest := entries[..n];
      AsManyAsWaiting(rest);
      assert Waiting(entries) == Waiting(rest) + {entries[n].buffer};
    }
  }

  lemma WaitingAfter(entries: seq<Entry>, i: nat, e: Entry)
    requires i < |entries| && Distinct(entries) && !entries[i].done && e.done
    ensures Waiting(entries[i := e]) == Waiting(entries) - {entries[i].buffer}
    ensures entries[i].buffer in Waiting(entries) && Distinct(entries[i := e])
  {
    var after := entries[i := e];
    forall b | b in Waiting(entries) && b != entries[i].buffer ensures b in Waiting(after) {
      var j :| 0 <= j < |entries| && !entries[j].done && entries[j].buffer == b;
      assert after[j] == entries[j];
    }
  }

  lemma NoneWaits(entries: seq<Entry>)
    ensures (forall i :: 0 <= i < |entries| ==> entries[i].done) ==> Waiting(entries) == {}
    ensures (forall i :: 0 <= i < |entries| ==> !entries[i].done) && Waiting(entries) == {} ==> entries == []
  {
    if entries != [] && !entries[0].done {
      assert entries[0].buffer in Waiting(entries);
    }
  }

  lemma WaitingSnoc(entries: seq<Entry>, e: Entry)
    requires !e.done
    ensures Waiting(entries + [e]) == Waiting(entries) + {e.buffer}
  {
    var more := entries + [e];
    assert more[|entries|] == e;
    forall b | b in Waiting(entries) ensures b in Waiting(more) {
      var i :| 0 <= i < |entries| && !entries[i].done && entries[i].buffer == b;
      assert more[i] == entries[i];
    }
  }

  /** Every quarantined buffer is kept for the fence of its own last drawing. */
  ghost predicate Guards(entries: seq<Entry>, work: map<nat, nat>) {
    forall i :: 0 <= i < |entries| && !entries[i].done ==>
      entries[i].fence != 0 && entries[i].buffer in work && work[entries[i].buffer] == entries[i].fence
  }

  class RenderingFenceRetirement {
    const board: FenceBoard
    var entries: seq<Entry>

    ghost predicate Valid()
      reads this
    {
      && |entries| <= MAXIMUM_RETAINED && Distinct(entries)
      && forall i :: 0 <= i < |entries| && entries[i].done ==> !entries[i].watched
    }

    constructor (board: FenceBoard)
      ensures Valid() && entries == [] && this.board == board
    {
      this.board := board;
      entries := [];
    }

    method Reap(ghost work: map<nat, nat>)
      requires Valid() && Guards(entries, work)
      modifies this
      ensures Valid() && Guards(entries, work) && (forall i :: 0 <= i < |entries| ==> !entries[i].done)
      ensures Waiting(entries) == Waiting(old(entries))
    {
      var kept: seq<Entry> := [];
      var i := 0;
      while i < |entries|
        invariant 0 <= i <= |entries| && |kept| <= i && entries == old(entries)
        invariant forall j :: 0 <= j < |kept| ==> !kept[j].done && kept[j] in entries[..i]
        invariant Distinct(kept)
        invariant Waiting(kept) == Waiting(entries[..i])
        invariant forall j, k :: 0 <= j < |kept| && i <= k < |entries| && !entries[k].done ==> kept[j].buffer != entries[k].buffer
      {
        assert entries[..i + 1] == entries[..i] + [entries[i]];
        if !entries[i].done {
          WaitingSnoc(kept, entries[i]);
          WaitingSnoc(entries[..i], entries[i]);
          kept := kept + [entries[i]];
        }
        i := i + 1;
      }
      assert entries[..i] == entries;
      entries := kept;
    }

    /**
     Keeps a buffer until its fence signals; fired when that is already so.  The quarantine overflows
     only when it already holds its maximum of other buffers.
     */
    method Retain(fence: nat, buffer: nat, ghost work: map<nat, nat>) returns (ok: bool, fired: bool)
      requires Valid() && Guards(entries, work) && buffer !in Waiting(entries)
      requires fence != 0 && buffer in work && work[buffer] == fence
      modifies this, board
      ensures Valid() && Guards(entries, work) && board.Later()
      ensures fired <==> ok && board.Open(fence)
      ensures Waiting(entries) == Waiting(old(entries)) + if ok && !fired then {buffer} else {}
      ensures ok || |Waiting(old(entries))| == MAXIMUM_RETAINED
    {
      Reap(work);
      if |entries| >= MAXIMUM_RETAINED {
        AsManyAsWaiting(entries);
        return false, false;
      }
      var result := board.Probe(fence);
      if result == Ready {
        return true, true;
      }
      WaitingSnoc(entries, Entry(fence, buffer, result == Pending, false));
      entries := entries + [Entry(fence, buffer, result == Pending, false)];
      return true, false;
    }

    /** A watched fence became readable or failed; fired hands the buffer back. */
    method Dispatch(i: nat, ghost work: map<nat, nat>) returns (fired: bool)
      requires Valid() && Guards(entries, work) && i < |entries| && entries[i].watched
      modifies this, board
      ensures Valid() && Guards(entries, work) && board.Later()
      ensures |entries| == |old(entries)| && forall j :: 0 <= j < |entries| && j != i ==> entries[j] == old(entries)[j]
      ensures old(entries)[i].buffer in Waiting(old(entries))
      ensures Waiting(entries) == Waiting(old(entries)) - if fired then {old(entries)[i].buffer} else {}
      ensures fired <==> board.Open(old(entries)[i].fence)
    {
      var result := board.Probe(entries[i].fence);
      if result == Pending {
        return false;
      }
      var e := entries[i].(watched := false);
      if result == Ready {
        WaitingAfter(entries, i, e.(done := true));
        entries := entries[i := e.(done := true)];
        return true;
      }
      assert Waiting(entries[i := e]) == Waiting(entries) by {
        assert forall j :: 0 <= j < |entries| ==> entries[i := e][j].buffer == entries[j].buffer;
        assert forall j :: 0 <= j < |entries| ==> entries[i := e][j].done == entries[j].done;
      }
      entries := entries[i := e];
      return false;
    }

    /** Polls one fence until it is decided, an error, or the given number of polls is used up. */
    method Await(fence: nat, polls: nat) returns (result: FenceResult, left: nat)
      modifies board
      ensures board.Later()
      ensures result == Ready <==> board.Open(fence)
      ensures left <= polls
    {
      left := polls;
      result := board.Probe(fence);
      while result == Pending && left > 0
        invariant board.Later()
        invariant left <= polls
        invariant result == Ready <==> board.Open(fence)
        decreases left
      {
        var pollFailed: bool := *;
        if pollFailed {
          return;
        }
        left := left - 1;
        result := board.Probe(fence);
      }
    }

    /**
     Waits for every quarantined fence, in order, for at most the given number of polls in all, and
     hands the buffers back one by one.  Success empties the quarantine; failure leaves the rest in it.
     */
    method Finish(polls: nat, ghost work: map<nat, nat>) returns (ok: bool, fired: seq<nat>)
      requires Valid() && Guards(entries, work)
      modifies this, board
      ensures Valid() && Guards(entries, work) && board.Later()
      ensures ok ==> entries == []
      ensures !ok ==> exists i :: 0 <= i < |entries| && !entries[i].done && !board.Open(entries[i].fence)
      ensures Waiting(old(entries)) == Waiting(entries) + set b | b in fired
      ensures forall b :: b in fired ==> b !in Waiting(entries) && b in work && board.Open(work[b])
      ensures forall j, k :: 0 <= j < k < |fired| ==> fired[j] != fired[k]
    {
      hide Waiting, Distinct;
      fired := [];
      var left := polls;
      var i := 0;
      while i < |entries|
        invariant 0 <= i <= |entries| && Valid() && Guards(entries, work)
        invariant forall j :: 0 <= j < i ==> entries[j].done
        invariant Waiting(old(entries)) == Waiting(entries) + set b | b in fired
        invariant forall b :: b in fired ==> b !in Waiting(entries) && b in work && board.Open(work[b])
        invariant forall j, k :: 0 <= j < k < |fired| ==> fired[j] != fired[k]
        invariant board.Later()
      {
        if entries[i].done {
          i := i + 1;
          continue;
        }
        var result;
        result, left := Await(entries[i].fence, left);
        if result != Ready {
          return false, fired;
        }
        var e := entries[i].(watched := false, done := true);
        WaitingAfter(entries, i, e);
        assert (set b | b in fired + [entries[i].buffer]) == (set b | b in fired) + {entries[i].buffer};
        fired := fired + [entries[i].buffer];
        entries := entries[i := e];
        i := i + 1;
      }
      NoneWaits(entries);
      Reap(work);
      NoneWaits(entries);
      ok := true;
    }
  }
}
