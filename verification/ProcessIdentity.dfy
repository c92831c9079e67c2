/**
 The record by which the launcher recognises a browser it started: written as lines of key=value, and
 read back line by line.
 */
module ProcessIdentity {
  import opened CStrings
  import opened Wrappers

  datatype Identity = Identity(pid: int, processGroup: int, startTime: nat, runtimePath: string, workdir: string)

  const UNSET := Identity(-1, -1, 0, "", "")

  predicate SafeValue(value: string) {
    '\n' !in value && '\r' !in value
  }

  /** What an Identity can hold at all. */
  predicate Representable(x: Identity) {
    -INT_MAX - 1 <= x.pid <= INT_MAX && -INT_MAX - 1 <= x.processGroup <= INT_MAX && x.startTime <= UNSIGNED_LONG_LONG_MAX
  }

  /** What is worth writing. */
  predicate Serializable(x: Identity) {
    x.pid > 1 && x.processGroup > 1 && x.startTime != 0 && SafeValue(x.runtimePath) && SafeValue(x.workdir)
  }

  function Line(key: string, value: string): string {
    key + "=" + value
  }

  function Fields(x: Identity): seq<string> {
    [Line("version", "1"), Line("pid", Decimal(if x.pid < 0 then 0 else x.pid)),
     Line("pgid", Decimal(if x.processGroup < 0 then 0 else x.processGroup)), Line("starttime", Decimal(x.startTime)),
     Line("runtime", x.runtimePath), Line("workdir", x.workdir)]
  }

  /** Lines, each ended by a line feed. */
  function Joined(lines: seq<string>): string {
    if lines == [] then "" else lines[0] + "\n" + Joined(lines[1..])
  }

  function Serialized(x: Identity): string {
    if Serializable(x) then Joined(Fields(x)) else ""
  }

  /** Writes the record line by line; nothing when it is not worth writing. */
  method SerializeIdentity(x: Identity) returns (output: string)
    ensures output == Serialized(x)
  {
    if x.pid <= 1 || x.processGroup <= 1 || x.startTime == 0 || !SafeValue(x.runtimePath) || !SafeValue(x.workdir) {
      return "";
    }
    output := "";
    output := output + Line("version", "1") + "\n";
    output := output + Line("pid", Decimal(x.pid)) + "\n";
    output := output + Line("pgid", Decimal(x.processGroup)) + "\n";
    output := output + Line("starttime", Decimal(x.startTime)) + "\n";
    output := output + Line("runtime", x.runtimePath) + "\n";
    output := output + Line("workdir", x.workdir) + "\n";
    hide Decimal, Line;
    var lines := Fields(x);
    assert Joined(lines[..0]) == "";
    JoinedSnoc(lines, 0);
    JoinedSnoc(lines, 1);
    JoinedSnoc(lines, 2);
    JoinedSnoc(lines, 3);
    JoinedSnoc(lines, 4);
    JoinedSnoc(lines, 5);
    assert lines[..6] == lines;
  }

  lemma {:induction false} JoinedSnoc(lines: seq<string>, n: nat)
    requires n < |lines|
    ensures Joined(lines[..n + 1]) == Joined(lines[..n]) + lines[n] + "\n"
  {
    if n > 0 {
      JoinedSnoc(lines[1..], n - 1);
      assert lines[..n + 1][1..] == lines[1..][..n];
      assert lines[..n][1..] == lines[1..][..n - 1];
    }
  }

  // ---------------------------------------------------------------- reading

  /** The index of the first c, or the length. */
  function Find(s: string, c: char): (n: nat)
    ensures n <= |s| && c !in s[..n]
    ensures n < |s| ==> s[n] == c
  {
    if s == "" || s[0] == c then 0
    else
      var n := Find(s[1..], c);
      assert s[..n + 1] == [s[0]] + s[1..][..n];
      n + 1
  }

  /** What getline yields, one after the other; a last line needs no line feed, unless it is empty. */
  function Lines(s: string): seq<string>
    decreases |s|
  {
    if s == "" then []
    else
      var n := Find(s, '\n');
      [s[..n]] + if n < |s| then Lines(s[n + 1..]) else []
  }

  /** What was read so far. */
  datatype Partial = Partial(identity: Identity, versionValid: bool)

  /** One line; None when the text is not a record. */
  function ReadLine(before: Partial, line: string, longMax: int): Option<Partial> {
    var n := Find(line, '=');
    if n == |line| then None
    else
      var key, field := line[..n], line[n + 1..];
      if key == "version" then Some(before.(versionValid := field == "1"))
      else if key == "pid" || key == "pgid" then
        var c := StrToL(field, longMax);
        if !c.inRange || c.rest != "" || c.number <= 1 then None
        else if key == "pid" then Some(before.(identity := before.identity.(pid := ToInt(c.number))))
        else Some(before.(identity := before.identity.(processGroup := ToInt(c.number))))
      else if key == "starttime" then
        var c := StrToULL(field);
        if !c.inRange || c.rest != "" || c.number <= 0 then None
        else Some(before.(identity := before.identity.(startTime := c.number)))
      else if key == "runtime" then Some(before.(identity := before.identity.(runtimePath := field)))
      else if key == "workdir" then Some(before.(identity := before.identity.(workdir := field)))
      else Some(before)
  }

  function ReadLines(before: Option<Partial>, lines: seq<string>, longMax: int): Option<Partial>
    decreases |lines|
  {
    if before.None? || lines == [] then before
    else ReadLines(ReadLine(before.value, lines[0], longMax), lines[1..], longMax)
  }

  /** Everything a record needs was there. */
  function Accept(after: Option<Partial>): Option<Identity> {
    if after.None? then None
    else
      var x := after.value.identity;
      if !after.value.versionValid || x.pid <= 1 || x.processGroup <= 1 || x.startTime == 0 || x.runtimePath == "" || x.workdir == ""
      then None else Some(x)
  }

  function Parsed(value: string, longMax: int): Option<Identity> {
    Accept(ReadLines(Some(Partial(UNSET, false)), Lines(value), longMax))
  }

  /** Reads a record; identity keeps its value unless the whole text is one. */
  method ParseIdentity(value: string, longMax: int, identity: Identity) returns (ok: bool, result: Identity)
    requires longMax >= INT_MAX
    ensures ok == Parsed(value, longMax).Some?
    ensures result == if ok then Parsed(value, longMax).value else identity
  {
    hide ReadLine;
    var parsed := Partial(UNSET, false);
    var rest := value;
    while rest != ""
      invariant ReadLines(Some(Partial(UNSET, false)), Lines(value), longMax) == ReadLines(Some(parsed), Lines(rest), longMax)
      decreases |rest|
    {
      var n := Find(rest, '\n');
      var line := rest[..n];
      var next := if n < |rest| then rest[n + 1..] else "";
      assert Lines(rest) == [line] + Lines(next);
      var after := ReadOneLine(parsed, line, longMax);
      if after.None? {
        return false, identity;
      }
      parsed := after.value;
      rest := next;
    }
    var x := parsed.identity;
    if !parsed.versionValid || x.pid <= 1 || x.processGroup <= 1 || x.startTime == 0 || x.runtimePath == "" || x.workdir == "" {
      return false, identity;
    }
    return true, x;
  }

  method ReadOneLine(before: Partial, line: string, longMax: int) returns (after: Option<Partial>)
    ensures after == ReadLine(before, line, longMax)
  {
    var separator := Find(line, '=');
    if separator == |line| {
      return None;
    }
    var key, field := line[..separator], line[separator + 1..];
    var parsed := before;
    match key {
      case "version" =>
        parsed := parsed.(versionValid := field == "1");
      case "pid" =>
        var c := StrToL(field, longMax);
        if !c.inRange || c.rest != "" || c.number <= 1 {
          return None;
        }
        parsed := parsed.(identity := parsed.identity.(pid := ToInt(c.number)));
      case "pgid" =>
        var c := StrToL(field, longMax);
        if !c.inRange || c.rest != "" || c.number <= 1 {
          return None;
        }
        parsed := parsed.(identity := parsed.identity.(processGroup := ToInt(c.number)));
      case "starttime" =>
        var c := StrToULL(field);
        if !c.inRange || c.rest != "" || c.number <= 0 {
          return None;
        }
        parsed := parsed.(identity := parsed.identity.(startTime := c.number));
      case "runtime" =>
        parsed := parsed.(identity := parsed.identity.(runtimePath := field));
      case "workdir" =>
        parsed := parsed.(identity := parsed.identity.(workdir := field));
      case _ =>
    }
    return Some(parsed);
  }

  // ---------------------------------------------------------------- round trip

  lemma {:induction false} FindFirst(s: string, t: string, c: char)
    requires c !in s
    ensures Find(s + [c] + t, c) == |s|
  {
    if s == "" {
      assert ([c] + t)[0] == c;
      assert s + [c] + t == [c] + t;
    } else {
      FindFirst(s[1..], t, c);
      assert (s + [c] + t)[1..] == s[1..] + [c] + t;
    }
  }

  /** A line before the rest is read first. */
  lemma OneLine(line: string, rest: string)
    requires '\n' !in line
    ensures Lines(line + "\n" + rest) == [line] + Lines(rest)
  {
    FindFirst(line, rest, '\n');
    var s := line + "\n" + rest;
    assert s == line + ['\n'] + rest;
    assert s[..|line|] == line && s[|line| + 1..] == rest;
  }

  lemma NoLines()
    ensures Lines("") == []
  {
  }

  lemma {:induction false} LinesOfJoined(lines: seq<string>)
    requires forall i :: 0 <= i < |lines| ==> '\n' !in lines[i]
    ensures Lines(Joined(lines)) == lines
  {
    hide Lines;
    NoLines();
    if lines != [] {
      LinesOfJoined(lines[1..]);
      OneLine(lines[0], Joined(lines[1..]));
    }
  }

  lemma ReadsField(before: Partial, key: string, field: string, longMax: int)
    requires '=' !in key
    ensures var line := Line(key, field); var n := Find(line, '=');
      n < |line| && line[..n] == key && line[n + 1..] == field
  {
    FindFirst(key, field, '=');
    assert Line(key, field) == key + ['='] + field;
  }

  lemma NoLineFeed(n: nat)
    ensures '\n' !in Decimal(n)
  {
  }

  lemma FieldsAreLines(x: Identity)
    requires Serializable(x)
    ensures forall i :: 0 <= i < |Fields(x)| ==> '\n' !in Fields(x)[i]
  {
    NoLineFeed(x.pid);
    NoLineFeed(x.processGroup);
    NoLineFeed(x.startTime);
    hide Decimal;
  }

  /** What is written is read back as it was, exactly when it is worth writing and both paths are there. */
  lemma RoundTrip(x: Identity, longMax: int)
    requires Representable(x) && longMax >= INT_MAX
    ensures Parsed(Serialized(x), longMax) == Some(x) <==> Serializable(x) && x.runtimePath != "" && x.workdir != ""
    ensures Parsed(Serialized(x), longMax).Some? ==> Parsed(Serialized(x), longMax) == Some(x)
  {
    if Serializable(x) {
      FieldsAreLines(x);
      LinesOfJoined(Fields(x));
      ReadsFields(x, longMax);
    }
  }

  lemma ReadsNext(p: Partial, q: Partial, lines: seq<string>, k: nat, longMax: int)
    requires k < |lines| && ReadLine(p, lines[k], longMax) == Some(q)
    ensures ReadLines(Some(p), lines[k..], longMax) == ReadLines(Some(q), lines[k + 1..], longMax)
  {
    assert lines[k..][1..] == lines[k + 1..];
  }

  lemma ReadsFields(x: Identity, longMax: int)
    requires Representable(x) && longMax >= INT_MAX && Serializable(x)
    ensures ReadLines(Some(Partial(UNSET, false)), Fields(x), longMax) == Some(Partial(x, true))
  {
    hide ReadLine, Decimal, Line, ReadLines, Find, StrToL, StrToULL;
    var p0 := Partial(UNSET, false);
    var p1 := p0.(versionValid := true);
    var p2 := p1.(identity := p1.identity.(pid := x.pid));
    var p3 := p2.(identity := p2.identity.(processGroup := x.processGroup));
    var p4 := p3.(identity := p3.identity.(startTime := x.startTime));
    var p5 := p4.(identity := p4.identity.(runtimePath := x.runtimePath));
    ReadsVersion(p0, longMax);
    ReadsIds(p1, x.pid, longMax);
    ReadsIds(p2, x.processGroup, longMax);
    ReadsRest(p3, x, longMax);
    ReadsRest(p4, x, longMax);
    ReadsRest(p5, x, longMax);
    var lines := Fields(x);
    ReadsNext(p0, p1, lines, 0, longMax);
    ReadsNext(p1, p2, lines, 1, longMax);
    ReadsNext(p2, p3, lines, 2, longMax);
    ReadsNext(p3, p4, lines, 3, longMax);
    ReadsNext(p4, p5, lines, 4, longMax);
    ReadsNext(p5, Partial(x, true), lines, 5, longMax);
    assert lines[0..] == lines && lines[6..] == [];
    ReadsNone(Some(Partial(x, true)), longMax);
  }

  lemma ReadsNone(p: Option<Partial>, longMax: int)
    ensures ReadLines(p, [], longMax) == p
  {
  }

  lemma ReadsVersion(p: Partial, longMax: int)
    ensures ReadLine(p, Line("version", "1"), longMax) == Some(p.(versionValid := true))
  {
    ReadsField(p, "version", "1", longMax);
  }

  lemma ReadsIds(p: Partial, n: int, longMax: int)
    requires 1 < n <= INT_MAX <= longMax
    ensures ReadLine(p, Line("pid", Decimal(n)), longMax) == Some(p.(identity := p.identity.(pid := n)))
    ensures ReadLine(p, Line("pgid", Decimal(n)), longMax) == Some(p.(identity := p.identity.(processGroup := n)))
  {
    hide Decimal, StrToL, Find, Line;
    ReadsField(p, "pid", Decimal(n), longMax);
    ReadsField(p, "pgid", Decimal(n), longMax);
    PrintedNumber(n, longMax);
  }

  lemma ReadsRest(p: Partial, x: Identity, longMax: int)
    requires 0 < x.startTime <= UNSIGNED_LONG_LONG_MAX
    ensures ReadLine(p, Line("starttime", Decimal(x.startTime)), longMax) == Some(p.(identity := p.identity.(startTime := x.startTime)))
    ensures ReadLine(p, Line("runtime", x.runtimePath), longMax) == Some(p.(identity := p.identity.(runtimePath := x.runtimePath)))
    ensures ReadLine(p, Line("workdir", x.workdir), longMax) == Some(p.(identity := p.identity.(workdir := x.workdir)))
  {
    hide Decimal, StrToULL, Find, Line;
    ReadsField(p, "starttime", Decimal(x.startTime), longMax);
    ReadsField(p, "runtime", x.runtimePath, longMax);
    ReadsField(p, "workdir", x.workdir, longMax);
    PrintedNumber(x.startTime, longMax);
  }

  // ---------------------------------------------------------------- what is accepted

  function KeyOf(line: string): string {
    line[..Find(line, '=')]
  }

  function FieldOf(line: string): string {
    var n := Find(line, '=');
    if n < |line| then line[n + 1..] else ""
  }

  /** A line has a key, and a number where the key asks for one; any other key will do. */
  predicate WellFormed(line: string, longMax: int) {
    && '=' in line
    && (KeyOf(line) in {"pid", "pgid"} ==>
          var c := StrToL(FieldOf(line), longMax); c.inRange && c.rest == "" && c.number > 1)
    && (KeyOf(line) == "starttime" ==>
          var c := StrToULL(FieldOf(line)); c.inRange && c.rest == "" && c.number > 0)
  }

  /** The field of the last line with the key. */
  function Final(lines: seq<string>, key: string): Option<string> {
    if lines == [] then None
    else
      var last := lines[|lines| - 1];
      if KeyOf(last) == key then Some(FieldOf(last)) else Final(lines[..|lines| - 1], key)
  }

  function FinalInt(lines: seq<string>, key: string, longMax: int): int {
    var field := Final(lines, key);
    if field.None? then -1 else ToInt(StrToL(field.value, longMax).number)
  }

  function FinalText(lines: seq<string>, key: string): string {
    var field := Final(lines, key);
    if field.None? then "" else field.value
  }

  /** What the last lines of each key say; a later line with a key counts, and a later unknown key does not. */
  function Collected(lines: seq<string>, longMax: int): Partial {
    var started := Final(lines, "starttime");
    Partial(Identity(FinalInt(lines, "pid", longMax), FinalInt(lines, "pgid", longMax),
                     if started.None? then 0 else var n := StrToULL(started.value).number; if n < 0 then 0 else n,
                     FinalText(lines, "runtime"), FinalText(lines, "workdir")),
            Final(lines, "version") == Some("1"))
  }

  predicate AllWellFormed(lines: seq<string>, longMax: int) {
    forall i :: 0 <= i < |lines| ==> WellFormed(lines[i], longMax)
  }

  lemma {:induction false} ReadLinesSnoc(before: Option<Partial>, lines: seq<string>, longMax: int)
    requires lines != []
    ensures var n := |lines| - 1;
      var init := ReadLines(before, lines[..n], longMax);
      ReadLines(before, lines, longMax) == if init.None? then None else ReadLine(init.value, lines[n], longMax)
    decreases |lines|
  {
    hide ReadLine;
    if before.Some? {
      var n := |lines| - 1;
      var next := ReadLine(before.value, lines[0], longMax);
      if n == 0 {
        assert ReadLines(before, lines[..0], longMax) == before;
        assert ReadLines(next, lines[1..], longMax) == next;
      } else {
        ReadLinesSnoc(next, lines[1..], longMax);
        assert lines[1..][..n - 1] == lines[..n][1..];
      }
    }
  }

  lemma OneMore(lines: seq<string>, longMax: int)
    requires lines != []
    ensures var n := |lines| - 1;
      ReadLine(Collected(lines[..n], longMax), lines[n], longMax)
      == if WellFormed(lines[n], longMax) then Some(Collected(lines, longMax)) else None
  {
    var n := |lines| - 1;
    var i := Find(lines[n], '=');
    if i == |lines[n]| {
      assert lines[n] == lines[n][..i];
    } else {
      assert lines[n][i] in lines[n];
    }
  }

  lemma {:induction false} ReadsTheLast(lines: seq<string>, longMax: int)
    ensures ReadLines(Some(Partial(UNSET, false)), lines, longMax)
            == if AllWellFormed(lines, longMax) then Some(Collected(lines, longMax)) else None
    decreases |lines|
  {
    hide ReadLine, WellFormed, Collected;
    if lines == [] {
      NothingCollected(longMax);
    } else {
      var n := |lines| - 1;
      ReadsTheLast(lines[..n], longMax);
      ReadLinesSnoc(Some(Partial(UNSET, false)), lines, longMax);
      OneMore(lines, longMax);
      assert lines == lines[..n] + [lines[n]];
    }
  }

  lemma NothingCollected(longMax: int)
    ensures Collected([], longMax) == Partial(UNSET, false)
  {
  }

  /**
   A text is a record exactly when each of its lines has a key and the numbers are numbers, and the last
   line of each of the six keys is there and says something acceptable.  Their order, lines before them
   with the same key, and other keys do not matter.
   */
  lemma AcceptsTheLastLines(value: string, longMax: int)
    ensures var lines := Lines(value);
      Parsed(value, longMax).Some? <==>
        && (forall line :: line in lines ==> WellFormed(line, longMax))
        && Final(lines, "version") == Some("1")
        && FinalInt(lines, "pid", longMax) > 1 && FinalInt(lines, "pgid", longMax) > 1
        && Final(lines, "starttime").Some?
        && FinalText(lines, "runtime") != "" && FinalText(lines, "workdir") != ""
    ensures Parsed(value, longMax).Some? ==> Parsed(value, longMax).value == Collected(Lines(value), longMax).identity
  {
    hide ReadLine;
    var lines := Lines(value);
    ReadsTheLast(lines, longMax);
    assert AllWellFormed(lines, longMax) <==> forall line :: line in lines ==> WellFormed(line, longMax);
    if AllWellFormed(lines, longMax) && Final(lines, "starttime").Some? {
      StartedAfterZero(lines, longMax);
    }
  }

  lemma {:induction false} StartedAfterZero(lines: seq<string>, longMax: int)
    requires AllWellFormed(lines, longMax) && Final(lines, "starttime").Some?
    ensures StrToULL(Final(lines, "starttime").value).number > 0
    decreases |lines|
  {
    hide StrToL, StrToULL;
    if KeyOf(lines[|lines| - 1]) != "starttime" {
      StartedAfterZero(lines[..|lines| - 1], longMax);
    }
  }
}
