/**
 The two-finger triple-tap recogniser as a step function.

 HandleStep and ExpireStep give the recogniser's next state and answer; the class in TouchRecogniser
 computes them in place.  GestureSoundness and GestureRuns prove what runs of them mean.
 */
module TouchGesture {
  import opened Wrappers

  const MAX_BUFFERED_FRAMES: nat := 512

  datatype Contact = Contact(active: bool, justDown: bool, justUp: bool, trackingId: int, x: real, y: real)

  datatype TouchFrame = TouchFrame(time: int, contacts: seq<Contact>)

  /** Distances in pixels, times in milliseconds; frame times are in microseconds. */
  datatype Config = Config(maxMove: real, maxDrift: real,
                           pairWindow: nat, tapDuration: nat, interTapGap: nat, quiet: nat)

  datatype Phase = Idle | WaitPair | PairActive | WaitNext | QuietTime

  datatype Action = Pass | SpeculativePass | Buffer | CancelBuffer | Replay | Toggle

  datatype Reason = NoReason | PairTimeout | PositionDrift | BufferOverflow | Disabled | QuietInterrupted
                  | ThirdContact | MoveExceeded | InputMismatch | TapTimeout | GapTimeout

  datatype Point = Point(trackingId: int, x: real, y: real)

  const ORIGIN := Point(0, 0.0, 0.0)

  datatype Recogniser = Recogniser(
    phase: Phase,
    frames: seq<TouchFrame>,
    tapCount: nat,
    firstDown: int,
    pairDown: int,
    lastTapUp: int,
    deadline: int,
    pair: (Point, Point),
    reference: (Point, Point),
    first: Point,
    haveFirst: bool,
    haveReference: bool,
    speculative: bool,
    failure: Reason)

  const FRESH := Recogniser(Idle, [], 0, 0, 0, 0, 0, (ORIGIN, ORIGIN), (ORIGIN, ORIGIN), ORIGIN,
                            false, false, false, NoReason)

  // ---------------------------------------------------------------- what a frame contains

  function PointOf(c: Contact): Point {
    Point(c.trackingId, c.x, c.y)
  }

  /** hypot(a - b) > limit. */
  predicate Farther(a: Point, b: Point, limit: real) {
    limit < 0.0 || (a.x - b.x) * (a.x - b.x) + (a.y - b.y) * (a.y - b.y) > limit * limit
  }

  function Active(contacts: seq<Contact>): nat {
    if contacts == [] then 0
    else Active(contacts[..|contacts| - 1]) + if contacts[|contacts| - 1].active then 1 else 0
  }

  function Downs(contacts: seq<Contact>): nat {
    if contacts == [] then 0
    else Downs(contacts[..|contacts| - 1]) + if contacts[|contacts| - 1].justDown then 1 else 0
  }

  predicate Effective(contacts: seq<Contact>) {
    exists i :: 0 <= i < |contacts| && (contacts[i].active || contacts[i].justDown || contacts[i].justUp)
  }

  /** The active contacts in slot order. */
  function ActivePoints(contacts: seq<Contact>): (points: seq<Point>)
    ensures |points| == Active(contacts)
  {
    if contacts == [] then []
    else
      var last := contacts[|contacts| - 1];
      ActivePoints(contacts[..|contacts| - 1]) + if last.active then [PointOf(last)] else []
  }

  /** The first slot that carries the first finger, present or just lifted, has strayed. */
  predicate FirstMoved(first: Point, contacts: seq<Contact>, limit: real) {
    contacts != [] &&
    if (contacts[0].active || contacts[0].justUp) && contacts[0].trackingId == first.trackingId
    then Farther(PointOf(contacts[0]), first, limit)
    else FirstMoved(first, contacts[1..], limit)
  }

  predicate StrayedFrom(point: Point, c: Contact, limit: real) {
    point.trackingId == c.trackingId && Farther(PointOf(c), point, limit)
  }

  predicate PairMoved(pair: (Point, Point), contacts: seq<Contact>, limit: real) {
    exists i :: 0 <= i < |contacts| && (contacts[i].active || contacts[i].justUp)
                && (StrayedFrom(pair.0, contacts[i], limit) || StrayedFrom(pair.1, contacts[i], limit))
  }

  /** The two fingers land near the first tap's, in either order. */
  predicate NearReference(points: (Point, Point), reference: (Point, Point), limit: real) {
    || (!Farther(points.0, reference.0, limit) && !Farther(points.1, reference.1, limit))
    || (!Farther(points.0, reference.1, limit) && !Farther(points.1, reference.0, limit))
  }

  // ---------------------------------------------------------------- steps

  function Cleared(g: Recogniser): Recogniser {
    FRESH.(frames := g.frames, firstDown := 0, first := g.first)
  }

  function ResetStep(g: Recogniser): Recogniser {
    Cleared(g).(frames := [])
  }

  function Fail(g: Recogniser, reason: Reason): (Recogniser, Action) {
    (g.(deadline := 0, failure := reason), Replay)
  }

  function Passthrough(g: Recogniser): (Recogniser, Action) {
    (ResetStep(g), SpeculativePass)
  }

  /** The pair is complete in frame f, or the reason why it is not acceptable. */
  function PairProblem(c: Config, g: Recogniser, f: TouchFrame): Reason {
    var points := ActivePoints(f.contacts);
    if |points| != 2 then PairTimeout
    else if g.haveReference && !NearReference((points[0], points[1]), g.reference, c.maxDrift) then PositionDrift
    else NoReason
  }

  function BeginPair(c: Config, g: Recogniser, f: TouchFrame): Recogniser
    requires Active(f.contacts) == 2
  {
    var points := ActivePoints(f.contacts);
    var down := if g.firstDown != 0 then g.firstDown else f.time;
    g.(pair := (points[0], points[1]), haveFirst := false, pairDown := down, phase := PairActive,
       deadline := down + c.tapDuration * 1000)
  }

  function FirstActive(contacts: seq<Contact>): Point
    requires Active(contacts) > 0
  {
    ActivePoints(contacts)[0]
  }

  function HandleIdle(c: Config, g: Recogniser, f: TouchFrame, enabled: bool): (Recogniser, Action) {
    var active, downs := Active(f.contacts), Downs(f.contacts);
    if !enabled || downs == 0 || active == 0 || active > 2 || downs != active
       || |g.frames| >= MAX_BUFFERED_FRAMES then (g, Pass)
    else
      var h := g.(frames := g.frames + [f], firstDown := f.time);
      if active == 2 then
        var problem := PairProblem(c, h, f);
        if problem != NoReason then Fail(h, problem) else (BeginPair(c, h, f), Buffer)
      else
        (h.(first := FirstActive(f.contacts), haveFirst := true, speculative := true, phase := WaitPair,
            deadline := f.time + c.pairWindow * 1000), SpeculativePass)
  }

  function HandleWaitNext(c: Config, g: Recogniser, f: TouchFrame): (Recogniser, Action) {
    var active := Active(f.contacts);
    if Downs(f.contacts) == 0 then (g, Buffer)
    else
      var h := g.(firstDown := f.time);
      if active == 2 then
        var problem := PairProblem(c, h, f);
        if problem != NoReason then Fail(h, problem) else (BeginPair(c, h, f), Buffer)
      else if active == 1 then
        var pairDeadline, gapDeadline := f.time + c.pairWindow * 1000, g.lastTapUp + c.interTapGap * 1000;
        (h.(first := FirstActive(f.contacts), haveFirst := true, phase := WaitPair,
            deadline := if pairDeadline < gapDeadline then pairDeadline else gapDeadline), Buffer)
      else Fail(h, PairTimeout)
  }

  /** While waiting for the second finger a speculative stream is let through, others are replayed. */
  function GiveUp(g: Recogniser, reason: Reason): (Recogniser, Action) {
    if g.speculative then Passthrough(g) else Fail(g, reason)
  }

  function HandleWaitPair(c: Config, g: Recogniser, f: TouchFrame): (Recogniser, Action) {
    var active := Active(f.contacts);
    if active == 0 then GiveUp(g, PairTimeout)
    else if g.haveFirst && FirstMoved(g.first, f.contacts, c.maxMove) then GiveUp(g, MoveExceeded)
    else if active == 2 then
      if f.time - g.firstDown > c.pairWindow * 1000 then GiveUp(g, PairTimeout)
      else
        var problem := PairProblem(c, g, f);
        if problem != NoReason then Fail(g, problem)
        else
          var h := BeginPair(c, g, f);
          if g.speculative then (h.(speculative := false), CancelBuffer) else (h, Buffer)
    else (g, if g.speculative then SpeculativePass else Buffer)
  }

  function HandlePairActive(c: Config, g: Recogniser, f: TouchFrame): (Recogniser, Action) {
    if PairMoved(g.pair, f.contacts, c.maxMove) then Fail(g, MoveExceeded)
    else if f.time - g.pairDown > c.tapDuration * 1000 then Fail(g, TapTimeout)
    else if Active(f.contacts) > 0 then (g, Buffer)
    else
      var h := g.(tapCount := g.tapCount + 1, lastTapUp := f.time,
                  reference := if g.haveReference then g.reference else g.pair, haveReference := true,
                  firstDown := 0, pairDown := 0);
      (if h.tapCount >= 3
       then h.(phase := QuietTime, deadline := f.time + c.quiet * 1000)
       else h.(phase := WaitNext, deadline := f.time + c.interTapGap * 1000), Buffer)
  }

  /** browser_toolbar_gesture_handle. */
  function HandleStep(c: Config, g: Recogniser, f: TouchFrame, enabled: bool): (Recogniser, Action) {
    if g.phase == Idle then HandleIdle(c, g, f, enabled)
    else if |g.frames| >= MAX_BUFFERED_FRAMES then Fail(g, BufferOverflow)
    else
      var h := g.(frames := g.frames + [f]);
      if !enabled then (if g.speculative then Passthrough(h) else Fail(h, Disabled))
      else if g.phase == QuietTime then
        if Effective(f.contacts) then Fail(h, QuietInterrupted) else (h, Buffer)
      else if Active(f.contacts) > 2 then Fail(h, ThirdContact)
      else match g.phase
        case WaitNext => HandleWaitNext(c, h, f)
        case WaitPair => HandleWaitPair(c, h, f)
        case _ => HandlePairActive(c, h, f)
  }

  /** browser_toolbar_gesture_expire. */
  function ExpireStep(c: Config, g: Recogniser, now: int): (Recogniser, Action) {
    if g.phase == Idle || g.deadline == 0 || now < g.deadline then (g, Pass)
    else if g.phase == QuietTime && g.tapCount == 3 then (g, Toggle)
    else match g.phase
      case WaitPair => if g.speculative then (ResetStep(g), Pass) else Fail(g, PairTimeout)
      case PairActive => Fail(g, TapTimeout)
      case WaitNext => Fail(g, GapTimeout)
      case _ => Fail(g, InputMismatch)
  }
}

/** The recogniser itself: fields updated in place. */
module TouchRecogniser {
  import opened TouchGesture
  import opened Wrappers

  class ToolbarGesture {
    const config: Config
    var phase: Phase
    var frames: seq<TouchFrame>
    var tapCount: nat
    var firstDown: int
    var pairDown: int
    var lastTapUp: int
    var deadline: int
    var pair: (Point, Point)
    var reference: (Point, Point)
    var first: Point
    var haveFirst: bool
    var haveReference: bool
    var speculative: bool
    var failure: Reason

    ghost function State(): Recogniser
      reads this
    {
      Recogniser(phase, frames, tapCount, firstDown, pairDown, lastTapUp, deadline, pair, reference, first,
                 haveFirst, haveReference, speculative, failure)
    }

    constructor (config: Config)
      ensures State() == FRESH && this.config == config
    {
      this.config := config;
      phase, frames, tapCount, firstDown, pairDown := Idle, [], 0, 0, 0;
      lastTapUp, deadline, pair, reference := 0, 0, (ORIGIN, ORIGIN), (ORIGIN, ORIGIN);
      first, haveFirst, haveReference, speculative, failure := ORIGIN, false, false, false, NoReason;
    }

    // -------------------------------------------------------------- reading a frame

    static method ActiveContacts(frame: TouchFrame) returns (count: nat)
      ensures count == Active(frame.contacts)
    {
      count := 0;
      for index := 0 to |frame.contacts|
        invariant count == Active(frame.contacts[..index])
      {
        assert frame.contacts[..index + 1][..index] == frame.contacts[..index];
        if frame.contacts[index].active {
          count := count + 1;
        }
      }
      assert frame.contacts[..|frame.contacts|] == frame.contacts;
    }

    static method DownContacts(frame: TouchFrame) returns (count: nat)
      ensures count == Downs(frame.contacts)
    {
      count := 0;
      for index := 0 to |frame.contacts|
        invariant count == Downs(frame.contacts[..index])
      {
        assert frame.contacts[..index + 1][..index] == frame.contacts[..index];
        if frame.contacts[index].justDown {
          count := count + 1;
        }
      }
      assert frame.contacts[..|frame.contacts|] == frame.contacts;
    }

    static method HasEffectiveInput(frame: TouchFrame) returns (effective: bool)
      ensures effective <==> Effective(frame.contacts)
    {
      for index := 0 to |frame.contacts|
        invariant forall i :: 0 <= i < index ==>
                    !frame.contacts[i].active && !frame.contacts[i].justDown && !frame.contacts[i].justUp
      {
        var contact := frame.contacts[index];
        if contact.active || contact.justDown || contact.justUp {
          return true;
        }
      }
      return false;
    }

    static method CollectSingleActivePoint(frame: TouchFrame) returns (found: bool, point: Point)
      ensures found <==> Active(frame.contacts) > 0
      ensures found ==> point == FirstActive(frame.contacts)
    {
      point := ORIGIN;
      for index := 0 to |frame.contacts|
        invariant Active(frame.contacts[..index]) == 0
      {
        assert frame.contacts[..index + 1][..index] == frame.contacts[..index];
        if frame.contacts[index].active {
          point := PointOf(frame.contacts[index]);
          PrefixPoints(frame.contacts, index + 1);
          return true, point;
        }
      }
      assert frame.contacts[..|frame.contacts|] == frame.contacts;
      return false, point;
    }

    /** The two active contacts, unless there are fewer or more. */
    static method CollectActivePoints(frame: TouchFrame) returns (two: bool, points: (Point, Point))
      ensures two <==> Active(frame.contacts) == 2
      ensures two ==> points.0 == ActivePoints(frame.contacts)[0] && points.1 == ActivePoints(frame.contacts)[1]
    {
      points := (ORIGIN, ORIGIN);
      var found := [];
      for index := 0 to |frame.contacts|
        invariant found == ActivePoints(frame.contacts[..index]) && |found| <= 2
      {
        assert frame.contacts[..index + 1][..index] == frame.contacts[..index];
        if frame.contacts[index].active {
          if |found| >= 2 {
            PrefixPoints(frame.contacts, index + 1);
            return false, points;
          }
          found := found + [PointOf(frame.contacts[index])];
        }
      }
      assert frame.contacts[..|frame.contacts|] == frame.contacts;
      if |found| == 2 {
        return true, (found[0], found[1]);
      }
      return false, points;
    }

    static lemma {:induction false} PrefixPoints(contacts: seq<Contact>, n: nat)
      requires n <= |contacts|
      ensures ActivePoints(contacts[..n]) <= ActivePoints(contacts)
      decreases |contacts| - n
    {
      if n < |contacts| {
        PrefixPoints(contacts, n + 1);
        assert contacts[..n + 1][..n] == contacts[..n];
      } else {
        assert contacts[..n] == contacts;
      }
    }

    method FirstContactHasMoved(frame: TouchFrame) returns (moved: bool)
      ensures moved <==> haveFirst && FirstMoved(first, frame.contacts, config.maxMove)
    {
      if !haveFirst {
        return false;
      }
      for index := 0 to |frame.contacts|
        invariant FirstMoved(first, frame.contacts, config.maxMove)
             <==> FirstMoved(first, frame.contacts[index..], config.maxMove)
      {
        var contact := frame.contacts[index];
        assert frame.contacts[index..][1..] == frame.contacts[index + 1..];
        if (!contact.active && !contact.justUp) || contact.trackingId != first.trackingId {
          continue;
        }
        return Farther(PointOf(contact), first, config.maxMove);
      }
      return false;
    }

    method PairHasMoved(frame: TouchFrame) returns (moved: bool)
      ensures moved <==> PairMoved(pair, frame.contacts, config.maxMove)
    {
      for index := 0 to |frame.contacts|
        invariant forall i :: 0 <= i < index && (frame.contacts[i].active || frame.contacts[i].justUp) ==>
                    && !StrayedFrom(pair.0, frame.contacts[i], config.maxMove)
                    && !StrayedFrom(pair.1, frame.contacts[i], config.maxMove)
      {
        var contact := frame.contacts[index];
        if !contact.active && !contact.justUp {
          continue;
        }
        if StrayedFrom(pair.0, contact, config.maxMove) || StrayedFrom(pair.1, contact, config.maxMove) {
          return true;
        }
      }
      return false;
    }

    // -------------------------------------------------------------- updating the candidate

    method AppendFrame(frame: TouchFrame) returns (appended: bool)
      modifies this`frames
      ensures appended <==> |old(frames)| < MAX_BUFFERED_FRAMES
      ensures frames == if appended then old(frames) + [frame] else old(frames)
    {
      if |frames| >= MAX_BUFFERED_FRAMES {
        return false;
      }
      frames := frames + [frame];
      return true;
    }

    method ClearCandidate()
      modifies this
      ensures State() == Cleared(old(State()))
    {
      ClearTimes();
      ClearMarks();
      pair, reference := (ORIGIN, ORIGIN), (ORIGIN, ORIGIN);
    }

    method ClearMarks()
      modifies this`phase, this`tapCount, this`haveReference, this`haveFirst, this`speculative, this`failure
      ensures phase == Idle && tapCount == 0 && !haveReference && !haveFirst && !speculative && failure == NoReason
    {
      phase, tapCount := Idle, 0;
      haveReference, haveFirst, speculative := false, false, false;
      failure := NoReason;
    }

    method ClearTimes()
      modifies this`firstDown, this`pairDown, this`lastTapUp, this`deadline
      ensures firstDown == pairDown == lastTapUp == deadline == 0
    {
      firstDown, pairDown, lastTapUp, deadline := 0, 0, 0, 0;
    }

    method Reset()
      modifies this
      ensures State() == ResetStep(old(State()))
    {
      frames := [];
      ClearCandidate();
    }

    method BeginTwoFingers(frame: TouchFrame) returns (problem: Reason)
      modifies this`pair, this`haveFirst, this`pairDown, this`phase, this`deadline
      ensures problem == PairProblem(config, old(State()), frame)
      ensures State() == if problem == NoReason then BeginPair(config, old(State()), frame) else old(State())
    {
      var two, points := CollectActivePoints(frame);
      if !two {
        return PairTimeout;
      }
      if haveReference && !NearReference(points, reference, config.maxDrift) {
        return PositionDrift;
      }
      AcceptPair(points, if firstDown != 0 then firstDown else frame.time);
      return NoReason;
    }

    method AcceptPair(points: (Point, Point), down: int)
      modifies this`pair, this`haveFirst, this`pairDown, this`phase, this`deadline
      ensures pair == points && !haveFirst && pairDown == down && phase == PairActive
      ensures deadline == down + config.tapDuration * 1000
    {
      pair := points;
      haveFirst := false;
      pairDown := down;
      phase := PairActive;
      deadline := pairDown + config.tapDuration * 1000;
    }

    method FailCandidate(reason: Reason) returns (action: Action)
      modifies this`deadline, this`failure
      ensures (State(), action) == Fail(old(State()), reason)
    {
      deadline := 0;
      failure := reason;
      return Replay;
    }

    method FinishSpeculativePassthrough() returns (action: Action)
      modifies this
      ensures (State(), action) == Passthrough(old(State()))
    {
      frames := [];
      ClearCandidate();
      return SpeculativePass;
    }

    method GiveUpPair(reason: Reason) returns (action: Action)
      modifies this
      ensures (State(), action) == GiveUp(old(State()), reason)
    {
      if speculative {
        action := FinishSpeculativePassthrough();
      } else {
        action := FailCandidate(reason);
      }
    }

    // -------------------------------------------------------------- events

    method StartCandidate(frame: TouchFrame, enabled: bool) returns (action: Action)
      requires phase == Idle
      modifies this
      ensures (State(), action) == HandleIdle(config, old(State()), frame, enabled)
    {
      hide PairProblem, ActivePoints, Active, Downs, NearReference;
      var downs := DownContacts(frame);
      if !enabled || downs == 0 {
        return Pass;
      }
      var active := ActiveContacts(frame);
      if active == 0 || active > 2 || downs != active {
        return Pass;
      }
      var appended := AppendFrame(frame);
      if !appended {
        return Pass;
      }
      firstDown := frame.time;
      if active == 2 {
        var problem := BeginTwoFingers(frame);
        if problem != NoReason {
          action := FailCandidate(problem);
          return;
        }
        return Buffer;
      }
      WaitForSecondFinger(frame);
      Speculate(frame.time + config.pairWindow * 1000);
      return SpeculativePass;
    }

    method WaitForSecondFinger(frame: TouchFrame)
      requires Active(frame.contacts) > 0
      modifies this`haveFirst, this`first, this`phase
      ensures haveFirst && first == FirstActive(frame.contacts) && phase == WaitPair
    {
      haveFirst, first := CollectSingleActivePoint(frame);
      phase := WaitPair;
    }

    method Speculate(limit: int)
      modifies this`speculative, this`deadline
      ensures speculative && deadline == limit
    {
      speculative := true;
      deadline := limit;
    }

    method WaitingForNextTap(frame: TouchFrame, active: nat) returns (action: Action)
      requires active == Active(frame.contacts)
      modifies this
      ensures (State(), action) == HandleWaitNext(config, old(State()), frame)
    {
      var downs := DownContacts(frame);
      if downs == 0 {
        return Buffer;
      }
      firstDown := frame.time;
      if active == 2 {
        var problem := BeginTwoFingers(frame);
        if problem != NoReason {
          action := FailCandidate(problem);
          return;
        }
      } else if active == 1 {
        WaitForSecondFinger(frame);
        var pairDeadline := frame.time + config.pairWindow * 1000;
        var gapDeadline := lastTapUp + config.interTapGap * 1000;
        deadline := if pairDeadline < gapDeadline then pairDeadline else gapDeadline;
      } else {
        action := FailCandidate(PairTimeout);
        return;
      }
      return Buffer;
    }

    method WaitingForSecondFinger(frame: TouchFrame, active: nat) returns (action: Action)
      requires active == Active(frame.contacts)
      modifies this
      ensures (State(), action) == HandleWaitPair(config, old(State()), frame)
    {
      if active == 0 {
        action := GiveUpPair(PairTimeout);
        return;
      }
      var moved := FirstContactHasMoved(frame);
      if moved {
        action := GiveUpPair(MoveExceeded);
        return;
      }
      if active == 2 {
        if frame.time - firstDown > config.pairWindow * 1000 {
          action := GiveUpPair(PairTimeout);
          return;
        }
        var problem := BeginTwoFingers(frame);
        if problem != NoReason {
          action := FailCandidate(problem);
          return;
        }
        if speculative {
          speculative := false;
          return CancelBuffer;
        }
      }
      return if speculative then SpeculativePass else Buffer;
    }

    method WatchingPair(frame: TouchFrame, active: nat) returns (action: Action)
      requires active == Active(frame.contacts)
      modifies this
      ensures (State(), action) == HandlePairActive(config, old(State()), frame)
    {
      var moved := PairHasMoved(frame);
      if moved {
        action := FailCandidate(MoveExceeded);
        return;
      }
      if frame.time - pairDown > config.tapDuration * 1000 {
        action := FailCandidate(TapTimeout);
        return;
      }
      if active > 0 {
        return Buffer;
      }
      CountTap(frame.time);
      if tapCount >= 3 {
        phase := QuietTime;
        deadline := frame.time + config.quiet * 1000;
      } else {
        phase := WaitNext;
        deadline := frame.time + config.interTapGap * 1000;
      }
      return Buffer;
    }

    method CountTap(time: int)
      modifies this`tapCount, this`lastTapUp, this`reference, this`haveReference, this`firstDown, this`pairDown
      ensures tapCount == old(tapCount) + 1 && lastTapUp == time && firstDown == pairDown == 0
      ensures haveReference && reference == if old(haveReference) then old(reference) else pair
    {
      tapCount := tapCount + 1;
      lastTapUp := time;
      if !haveReference {
        reference := pair;
        haveReference := true;
      }
      firstDown := 0;
      pairDown := 0;
    }

    method Handle(frame: TouchFrame, enabled: bool) returns (action: Action)
      modifies this
      ensures (State(), action) == HandleStep(config, old(State()), frame, enabled)
    {
      if phase == Idle {
        action := StartCandidate(frame, enabled);
        return;
      }
      var appended := AppendFrame(frame);
      if !appended {
        action := FailCandidate(BufferOverflow);
        return;
      }
      if !enabled && speculative {
        action := FinishSpeculativePassthrough();
        return;
      }
      if !enabled {
        action := FailCandidate(Disabled);
        return;
      }
      if phase == QuietTime {
        var effective := HasEffectiveInput(frame);
        if effective {
          action := FailCandidate(QuietInterrupted);
          return;
        }
        return Buffer;
      }
      var active := ActiveContacts(frame);
      if active > 2 {
        action := FailCandidate(ThirdContact);
        return;
      }
      if phase == WaitNext {
        action := WaitingForNextTap(frame, active);
      } else if phase == WaitPair {
        action := WaitingForSecondFinger(frame, active);
      } else {
        action := WatchingPair(frame, active);
      }
    }

    method Expire(now: int) returns (action: Action)
      modifies this
      ensures (State(), action) == ExpireStep(config, old(State()), now)
    {
      if phase == Idle || deadline == 0 || now < deadline {
        return Pass;
      }
      if phase == QuietTime && tapCount == 3 {
        return Toggle;
      }
      if phase == WaitPair && speculative {
        Reset();
        return Pass;
      }
      action := FailCandidate(match phase
                              case WaitPair => PairTimeout
                              case PairActive => TapTimeout
                              case WaitNext => GapTimeout
                              case _ => InputMismatch);
    }

    /** Hands every buffered frame to the caller in arrival order and forgets the candidate. */
    method ReplayFrames() returns (delivered: seq<TouchFrame>)
      modifies this
      ensures delivered == old(frames) && State() == ResetStep(old(State()))
    {
      delivered := [];
      for index := 0 to |frames|
        invariant frames == old(frames) && State() == old(State())
        invariant delivered == frames[..index]
      {
        delivered := delivered + [frames[index]];
      }
      Reset();
    }
  }
}
