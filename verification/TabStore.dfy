/**
 The tab tables of the profile store: saving replaces a profile's tabs in one transaction, loading lists
 them in order.  Tables are maps with the keys, uniqueness and cascades of the schema.
 */
module TabStore {
  import opened CStrings
  import opened Wrappers

  datatype TabRow = TabRow(profile: int, logical: int, position: int, url: string, title: string, active: int)

  datatype NavKey = NavKey(tab: int, kind: int, position: int)

  datatype SettingKey = SettingKey(profile: int, key: string)

  datatype Database = Database(profiles: set<int>, tabs: map<int, TabRow>, navigation: map<NavKey, string>,
                               settings: map<SettingKey, string>, lastRow: int)

  datatype StoredTab = StoredTab(logical: nat, url: string, title: string, active: bool, back: seq<string>, forward: seq<string>)

  const NEXT_TAB_ID := "next_tab_id"
  const BACK := 0
  const FORWARD := 1

  predicate SamePlace(a: TabRow, b: TabRow) {
    a.profile == b.profile && a.position == b.position
  }

  /** Foreign keys refer to rows, positions are unique, row numbers were handed out. */
  ghost predicate Sound(db: Database) {
    && (forall id :: id in db.tabs ==> db.tabs[id].profile in db.profiles && id <= db.lastRow)
    && (forall i, j :: i in db.tabs && j in db.tabs && SamePlace(db.tabs[i], db.tabs[j]) ==> i == j)
    && (forall k :: k in db.navigation ==> k.tab in db.tabs)
    && (forall s :: s in db.settings ==> s.profile in db.profiles)
  }

  // ---------------------------------------------------------------- what is stored

  ghost predicate NavSaved(db: Database, tab: int, kind: int, items: seq<string>) {
    && (forall p :: NavKey(tab, kind, p) in db.navigation <==> 0 <= p < |items|)
    && (forall p :: 0 <= p < |items| ==> db.navigation[NavKey(tab, kind, p)] == items[p])
  }

  ghost predicate TabSaved(db: Database, id: int, profile: int, position: int, tab: StoredTab) {
    && id in db.tabs
    && db.tabs[id] == TabRow(profile, ToInt(tab.logical), position, tab.url, tab.title, if tab.active then 1 else 0)
    && NavSaved(db, id, BACK, tab.back) && NavSaved(db, id, FORWARD, tab.forward)
  }

  /** The profile's rows are these tabs, in this order, under these row numbers. */
  ghost predicate Saved(db: Database, profile: int, tabs: seq<StoredTab>, ids: seq<int>) {
    && |ids| == |tabs|
    && (forall i :: 0 <= i < |tabs| ==> TabSaved(db, ids[i], profile, i, tabs[i]))
    && (forall id :: id in db.tabs && db.tabs[id].profile == profile ==> id in ids)
  }

  // What other profiles have.

  function OtherTabs(db: Database, profile: int): map<int, TabRow> {
    map id | id in db.tabs && db.tabs[id].profile != profile :: db.tabs[id]
  }

  function OtherNavigation(db: Database, profile: int): map<NavKey, string> {
    map k | k in db.navigation && k.tab in db.tabs && db.tabs[k.tab].profile != profile :: db.navigation[k]
  }

  function OtherSettings(db: Database, profile: int): map<SettingKey, string> {
    map s | s in db.settings && s != SettingKey(profile, NEXT_TAB_ID) :: db.settings[s]
  }

  /** Nothing but this profile's tabs and its next tab number differs. */
  ghost predicate OthersKept(before: Database, after: Database, profile: int) {
    && after.profiles == before.profiles
    && OtherTabs(after, profile) == OtherTabs(before, profile)
    && OtherNavigation(after, profile) == OtherNavigation(before, profile)
    && OtherSettings(after, profile) == OtherSettings(before, profile)
  }

  // ---------------------------------------------------------------- what is listed

  predicate Increasing(s: seq<int>) {
    forall i, j :: 0 <= i < j < |s| ==> s[i] < s[j]
  }

  ghost predicate NavListed(db: Database, tab: int, kind: int, items: seq<string>, positions: seq<int>) {
    && |positions| == |items| && Increasing(positions)
    && (forall p :: p in positions <==> NavKey(tab, kind, p) in db.navigation)
    && (forall i :: 0 <= i < |items| ==> NavKey(tab, kind, positions[i]) in db.navigation
                                         && items[i] == db.navigation[NavKey(tab, kind, positions[i])])
  }

  ghost predicate Shows(db: Database, id: int, tab: StoredTab) {
    && id in db.tabs
    && var row := db.tabs[id];
    && tab.logical == ToUnsigned(row.logical) && tab.url == row.url && tab.title == row.title && tab.active == (row.active != 0)
    && (exists ps :: NavListed(db, id, BACK, tab.back, ps)) && (exists ps :: NavListed(db, id, FORWARD, tab.forward, ps))
  }

  /** The tabs of a profile by position. */
  ghost predicate Listed(db: Database, profile: int, tabs: seq<StoredTab>, ids: seq<int>) {
    && |ids| == |tabs|
    && (forall i :: 0 <= i < |ids| ==> ids[i] in db.tabs && db.tabs[ids[i]].profile == profile)
    && (forall i, j :: 0 <= i < j < |ids| ==> db.tabs[ids[i]].position < db.tabs[ids[j]].position)
    && (forall id :: id in db.tabs && db.tabs[id].profile == profile ==> id in ids)
    && (forall i :: 0 <= i < |tabs| ==> Shows(db, ids[i], tabs[i]))
  }

  // A read error ends the reading of a stack after some of its rows, or of the next tab number before
  // it, and nothing reports it.

  function Cut(items: seq<string>, fault: Option<nat>): seq<string> {
    if fault.Some? && fault.value < |items| then items[..fault.value] else items
  }

  /**
   Where reading fails: for the tabs' stacks the rows read before, by the tab's place in the list, and
   whether the next tab number cannot be read.
   */
  datatype Faults = Faults(back: map<nat, nat>, forward: map<nat, nat>, next: bool) {
    function Back(i: nat): Option<nat> {
      if i in back then Some(back[i]) else None
    }

    function Forward(i: nat): Option<nat> {
      if i in forward then Some(forward[i]) else None
    }

    function CutTab(tab: StoredTab, i: nat): StoredTab {
      tab.(back := Cut(tab.back, Back(i)), forward := Cut(tab.forward, Forward(i)))
    }

    /** An error falls on a link of the i-th tab. */
    predicate Loses(tab: StoredTab, i: nat) {
      (i in back && back[i] < |tab.back|) || (i in forward && forward[i] < |tab.forward|)
    }
  }

  ghost predicate NavRead(db: Database, tab: int, kind: int, items: seq<string>, fault: Option<nat>) {
    exists whole, ps :: NavListed(db, tab, kind, whole, ps) && items == Cut(whole, fault)
  }

  ghost predicate TabRead(db: Database, id: int, tab: StoredTab, i: nat, faults: Faults) {
    exists whole :: Shows(db, id, whole) && tab == faults.CutTab(whole, i)
  }

  /** The tabs are the profile's, as far as their stacks could be read. */
  ghost predicate TabsRead(db: Database, profile: int, tabs: seq<StoredTab>, faults: Faults) {
    exists whole, ids :: Listed(db, profile, whole, ids) && CutTabs(whole, tabs, faults)
  }

  predicate CutTabs(whole: seq<StoredTab>, tabs: seq<StoredTab>, faults: Faults) {
    |tabs| == |whole| && forall i :: 0 <= i < |tabs| ==> tabs[i] == faults.CutTab(whole[i], i)
  }

  function Setting(db: Database, profile: int, key: string, fallback: string): string {
    if SettingKey(profile, key) in db.settings then db.settings[SettingKey(profile, key)] else fallback
  }

  /** browser_profile_store_load_tabs' reading of the stored text: at least 2, and then 32 bits of it. */
  function NumberOf(text: string): nat {
    var n := StrToULL(text).number;
    ToUnsigned(if n < 2 then 2 else n)
  }

  /** The next tab number as it is loaded when it can be read. */
  function NextId(db: Database, profile: int): nat {
    NumberOf(Setting(db, profile, NEXT_TAB_ID, "2"))
  }

  // ---------------------------------------------------------------- round trip

  /** An increasing sequence of the numbers below n is 0, 1, 2, ... */
  lemma Counting(s: seq<int>, n: nat)
    requires Increasing(s) && forall p :: p in s <==> 0 <= p < n
    ensures |s| == n && forall i :: 0 <= i < n ==> s[i] == i
  {
    var i := 0;
    while i < n
      invariant i <= n && i <= |s| && forall k :: 0 <= k < i ==> s[k] == k
    {
      assert i in s;
      var j :| 0 <= j < |s| && s[j] == i;
      assert s[i] in s && s[i] <= s[j];
      assert i > 0 ==> s[i - 1] < s[i];
      i := i + 1;
    }
    if |s| > n {
      Above(s, n);
      assert false;
    }
  }

  lemma Above(s: seq<int>, i: nat)
    requires i < |s| && Increasing(s)
    ensures s[i] in s && (i > 0 ==> s[i - 1] < s[i])
  {
  }

  lemma NavigationRoundTrip(db: Database, tab: int, kind: int, saved: seq<string>, listed: seq<string>, positions: seq<int>)
    requires NavSaved(db, tab, kind, saved) && NavListed(db, tab, kind, listed, positions)
    ensures listed == saved
  {
    Counting(positions, |saved|);
  }

  lemma TabRoundTrip(db: Database, id: int, profile: int, position: int, saved: StoredTab, listed: StoredTab)
    requires TabSaved(db, id, profile, position, saved) && Shows(db, id, listed) && saved.logical < 0x1_0000_0000
    ensures listed == saved
  {
    UnsignedThroughInt(saved.logical);
    var b :| NavListed(db, id, BACK, listed.back, b);
    var f :| NavListed(db, id, FORWARD, listed.forward, f);
    NavigationRoundTrip(db, id, BACK, saved.back, listed.back, b);
    NavigationRoundTrip(db, id, FORWARD, saved.forward, listed.forward, f);
  }

  /** What is listed after a save is what was saved, in order, with both stacks and the active flags. */
  lemma TabsRoundTrip(db: Database, profile: int, saved: seq<StoredTab>, ids: seq<int>, listed: seq<StoredTab>, order: seq<int>)
    requires Saved(db, profile, saved, ids) && Listed(db, profile, listed, order)
    requires forall i :: 0 <= i < |saved| ==> saved[i].logical < 0x1_0000_0000
    ensures listed == saved
  {
    var ps := seq(|order|, i requires 0 <= i < |order| => db.tabs[order[i]].position);
    SamePositions(db, profile, saved, ids, listed, order, ps);
    Counting(ps, |saved|);
    forall i | 0 <= i < |saved|
      ensures listed[i] == saved[i]
    {
      SameRow(db, profile, saved, ids, order, i);
      TabRoundTrip(db, ids[i], profile, i, saved[i], listed[i]);
    }
  }

  lemma SamePositions(db: Database, profile: int, saved: seq<StoredTab>, ids: seq<int>, listed: seq<StoredTab>, order: seq<int>,
                      ps: seq<int>)
    requires Saved(db, profile, saved, ids) && Listed(db, profile, listed, order)
    requires |ps| == |order| && forall i :: 0 <= i < |order| ==> ps[i] == db.tabs[order[i]].position
    ensures Increasing(ps) && forall p :: p in ps <==> 0 <= p < |saved|
  {
    forall p | p in ps
      ensures 0 <= p < |saved|
    {
      var i :| 0 <= i < |ps| && ps[i] == p;
      assert order[i] in ids;
      var j :| 0 <= j < |ids| && ids[j] == order[i];
      assert TabSaved(db, ids[j], profile, j, saved[j]);
    }
    forall p | 0 <= p < |saved|
      ensures p in ps
    {
      assert TabSaved(db, ids[p], profile, p, saved[p]);
      assert ids[p] in order;
      var i :| 0 <= i < |order| && order[i] == ids[p];
      assert ps[i] in ps;
    }
  }

  lemma SameRow(db: Database, profile: int, saved: seq<StoredTab>, ids: seq<int>, order: seq<int>, i: nat)
    requires i < |order| == |saved| && |ids| == |saved|
    requires forall k :: 0 <= k < |saved| ==> TabSaved(db, ids[k], profile, k, saved[k])
    requires forall id :: id in db.tabs && db.tabs[id].profile == profile ==> id in ids
    requires order[i] in db.tabs && db.tabs[order[i]].profile == profile && db.tabs[order[i]].position == i
    ensures order[i] == ids[i]
  {
    var j :| 0 <= j < |ids| && ids[j] == order[i];
    assert TabSaved(db, ids[j], profile, j, saved[j]);
  }

  lemma FallbackNumber()
    ensures NumberOf("2") == 2
  {
    PrintedNumber(2, INT_MAX);
    assert Decimal(2) == "2";
  }

  /** The next tab number that was saved is loaded, but never less than two. */
  lemma NextIdRoundTrip(db: Database, profile: int, next: nat)
    requires next < 0x1_0000_0000
    requires SettingKey(profile, NEXT_TAB_ID) in db.settings && db.settings[SettingKey(profile, NEXT_TAB_ID)] == Decimal(next)
    ensures NextId(db, profile) == if next < 2 then 2 else next
  {
    PrintedNumber(next, INT_MAX);
  }

  /**
   The bound of two is taken before the number is cut to 32 bits: it holds of what is loaded exactly
   when the number read is below 2^32 or stays above the bound when it is cut.
   */
  lemma NextIdBound(db: Database, profile: int)
    ensures var n := StrToULL(Setting(db, profile, NEXT_TAB_ID, "2")).number;
      NextId(db, profile) >= 2 <==> n < 0x1_0000_0000 || n % 0x1_0000_0000 >= 2
  {
  }

  /** 2^32, which no save writes, is loaded as 0. */
  lemma ForeignTextBreaksTheBound()
    ensures var db := Database({1}, map[], map[], map[SettingKey(1, NEXT_TAB_ID) := Decimal(0x1_0000_0000)], 0);
      Sound(db) && NextId(db, 1) == 0
  {
    hide Decimal, Signed, StrToL;
    PrintedNumber(0x1_0000_0000, INT_MAX);
  }

  // ---------------------------------------------------------------- what a statement keeps

  /** The tab and its navigation are the same before and after. */
  ghost predicate RowKept(before: Database, after: Database, id: int) {
    && id in before.tabs && id in after.tabs && after.tabs[id] == before.tabs[id]
    && forall k: NavKey :: k.tab == id ==> (k in after.navigation <==> k in before.navigation)
                                           && (k in before.navigation ==> after.navigation[k] == before.navigation[k])
  }

  lemma SavedKept(before: Database, after: Database, id: int, profile: int, position: int, tab: StoredTab)
    requires TabSaved(before, id, profile, position, tab) && RowKept(before, after, id)
    ensures TabSaved(after, id, profile, position, tab)
  {
  }

  lemma RowAdded(db: Database, id: int, row: TabRow)
    requires Sound(db) && id == db.lastRow + 1 && row.profile in db.profiles
    requires forall i :: i in db.tabs ==> !SamePlace(db.tabs[i], row)
    ensures var after := db.(tabs := db.tabs[id := row], lastRow := id);
      Sound(after) && OthersKept(db, after, row.profile)
    ensures id !in db.tabs && forall k :: k in db.navigation ==> k.tab != id
  {
    hide Sound, OtherTabs, OtherNavigation;
    RowIsSound(db, id, row);
    OthersTabsKept(db, id, row);
    OthersLinksKept(db, id, row);
  }

  lemma RowIsSound(db: Database, id: int, row: TabRow)
    requires Sound(db) && id == db.lastRow + 1 && row.profile in db.profiles
    requires forall i :: i in db.tabs ==> !SamePlace(db.tabs[i], row)
    ensures Sound(db.(tabs := db.tabs[id := row], lastRow := id))
    ensures id !in db.tabs && forall k :: k in db.navigation ==> k.tab != id && k.tab in db.tabs
  {
  }

  lemma OthersTabsKept(db: Database, id: int, row: TabRow)
    requires id !in db.tabs
    ensures OtherTabs(db.(tabs := db.tabs[id := row], lastRow := id), row.profile) == OtherTabs(db, row.profile)
  {
  }

  lemma OthersLinksKept(db: Database, id: int, row: TabRow)
    requires forall k :: k in db.navigation ==> k.tab != id
    ensures OtherNavigation(db.(tabs := db.tabs[id := row], lastRow := id), row.profile) == OtherNavigation(db, row.profile)
  {
  }

  lemma NothingChanged(db: Database, profile: int)
    ensures OthersKept(db, db, profile)
  {
  }

  /** No row has the place. */
  ghost predicate PlaceIsFree(db: Database, profile: int, position: int) {
    forall id :: id in db.tabs ==> !(db.tabs[id].profile == profile && db.tabs[id].position == position)
  }

  /** After the first tabs were saved the next place is free. */
  lemma NextPlaceIsFree(db: Database, profile: int, tabs: seq<StoredTab>, ids: seq<int>)
    requires Saved(db, profile, tabs, ids)
    ensures PlaceIsFree(db, profile, |tabs|)
  {
    forall id | id in db.tabs && db.tabs[id].profile == profile
      ensures db.tabs[id].position != |tabs|
    {
      var i :| 0 <= i < |ids| && ids[i] == id;
      assert TabSaved(db, ids[i], profile, i, tabs[i]);
    }
  }

  class ProfileStore {
    var db: Database
    const statements: Forecast<bool>   // whether they work

    constructor (profiles: set<int>, statements: Forecast<bool>)
      ensures Sound(db) && db == Database(profiles, map[], map[], map[], 0) && this.statements == statements
    {
      db := Database(profiles, map[], map[], map[], 0);
      this.statements := statements;
    }

    // Statements.  Each may fail for reasons of its own; one that violates the schema fails.

    /** DELETE FROM tabs; the navigation of the deleted rows goes with them. */
    method DeleteTabs(profile: int) returns (ok: bool)
      requires Sound(db)
      modifies this
      ensures Sound(db) && OthersKept(old(db), db, profile)
      ensures ok ==> forall id :: id in db.tabs ==> db.tabs[id].profile != profile
      ensures statements.Always? ==> ok == statements.value
    {
      var works := Ask(statements);
      if !works {
        return false;
      }
      db := db.(tabs := OtherTabs(db, profile), navigation := OtherNavigation(db, profile));
      return true;
    }

    /** INSERT INTO tabs; the row gets a number never used before. */
    method InsertTab(row: TabRow) returns (ok: bool, id: int)
      requires Sound(db)
      modifies this
      ensures Sound(db) && OthersKept(old(db), db, row.profile)
      ensures !ok ==> db == old(db)
      ensures ok ==>
                && id !in old(db).tabs && db == old(db).(tabs := old(db).tabs[id := row], lastRow := id)
                && forall k :: k in db.navigation ==> k.tab != id
      ensures statements.Always? ==>
                (ok <==> statements.value && row.profile in db.profiles && PlaceIsFree(old(db), row.profile, row.position))
    {
      hide Sound, OthersKept;
      var works := Ask(statements);
      id := db.lastRow + 1;
      if !works || row.profile !in db.profiles || exists i | i in db.tabs :: SamePlace(db.tabs[i], row) {
        NothingChanged(db, row.profile);
        return false, id;
      }
      RowAdded(db, id, row);
      db := db.(tabs := db.tabs[id := row], lastRow := id);
      return true, id;
    }

    /** INSERT INTO tab_navigation. */
    method InsertNavigationRow(k: NavKey, url: string) returns (ok: bool)
      requires Sound(db)
      modifies this
      ensures Sound(db)
      ensures !ok ==> db == old(db)
      ensures ok ==> k.tab in db.tabs && k !in old(db).navigation && db == old(db).(navigation := old(db).navigation[k := url])
      ensures k.tab in db.tabs ==> OthersKept(old(db), db, db.tabs[k.tab].profile)
      ensures statements.Always? ==> (ok <==> statements.value && k.tab in db.tabs && k !in old(db).navigation)
    {
      var works := Ask(statements);
      if !works || k.tab !in db.tabs || k in db.navigation {
        return false;
      }
      db := db.(navigation := db.navigation[k := url]);
      return true;
    }

    /** INSERT INTO profile_settings, or an update. */
    method SetSetting(profile: int, key: string, value: string) returns (ok: bool)
      requires Sound(db)
      modifies this
      ensures Sound(db)
      ensures db == if ok then old(db).(settings := old(db).settings[SettingKey(profile, key) := value]) else old(db)
      ensures (ok ==> profile in db.profiles) && (statements.Always? ==> (ok <==> statements.value && profile in db.profiles))
    {
      var works := Ask(statements);
      if !works || profile !in db.profiles {
        return false;
      }
      db := db.(settings := db.settings[SettingKey(profile, key) := value]);
      return true;
    }

    // ---------------------------------------------------------------- saving

    /** A stack of a row that has none of this kind yet. */
    method InsertNavigation(tab: int, kind: int, items: seq<string>) returns (ok: bool)
      requires Sound(db) && tab in db.tabs && forall p :: NavKey(tab, kind, p) !in db.navigation
      modifies this
      ensures Sound(db) && OthersKept(old(db), db, old(db).tabs[tab].profile)
      ensures db == old(db).(navigation := db.navigation)
      ensures forall k: NavKey :: !(k.tab == tab && k.kind == kind) ==>
                (k in db.navigation <==> k in old(db).navigation)
                && (k in db.navigation ==> db.navigation[k] == old(db).navigation[k])
      ensures ok ==> NavSaved(db, tab, kind, items)
      ensures statements == Always(true) ==> ok
    {
      hide OtherTabs, OtherNavigation, OtherSettings;
      var index := 0;
      while index < |items|
        invariant 0 <= index <= |items| && Sound(db) && OthersKept(old(db), db, old(db).tabs[tab].profile)
        invariant db == old(db).(navigation := db.navigation)
        invariant forall k: NavKey :: !(k.tab == tab && k.kind == kind) ==>
                    (k in db.navigation <==> k in old(db).navigation)
                    && (k in db.navigation ==> db.navigation[k] == old(db).navigation[k])
        invariant NavSaved(db, tab, kind, items[..index])
      {
        ok := InsertNavigationRow(NavKey(tab, kind, index), items[index]);
        if !ok {
          return;
        }
        index := index + 1;
      }
      assert items[..index] == items;
      ok := true;
    }

    /** One tab with both its stacks. */
    method InsertStoredTab(profile: int, position: int, tab: StoredTab) returns (ok: bool, id: int)
      requires Sound(db)
      modifies this
      ensures Sound(db) && OthersKept(old(db), db, profile)
      ensures ok ==>
                && TabSaved(db, id, profile, position, tab)
                && db.tabs.Keys == old(db).tabs.Keys + {id}
                && forall other :: other in old(db).tabs ==> RowKept(old(db), db, other)
      ensures statements == Always(true) ==> (ok <==> profile in db.profiles && PlaceIsFree(old(db), profile, position))
    {
      hide OtherTabs, OtherNavigation, OtherSettings, Sound, NavSaved, PlaceIsFree;
      ok, id := InsertTab(TabRow(profile, ToInt(tab.logical), position, tab.url, tab.title, if tab.active then 1 else 0));
      if !ok {
        return;
      }
      ok := InsertStacks(id, tab);
    }

    method InsertStacks(id: int, tab: StoredTab) returns (ok: bool)
      requires Sound(db) && id in db.tabs && forall k :: k in db.navigation ==> k.tab != id
      modifies this
      ensures Sound(db) && OthersKept(old(db), db, old(db).tabs[id].profile)
      ensures db == old(db).(navigation := db.navigation)
      ensures forall k: NavKey :: k.tab != id ==>
                (k in db.navigation <==> k in old(db).navigation)
                && (k in db.navigation ==> db.navigation[k] == old(db).navigation[k])
      ensures ok ==> NavSaved(db, id, BACK, tab.back) && NavSaved(db, id, FORWARD, tab.forward)
      ensures statements == Always(true) ==> ok
    {
      hide OtherTabs, OtherNavigation, OtherSettings, Sound;
      ok := InsertNavigation(id, BACK, tab.back);
      if ok {
        ok := InsertNavigation(id, FORWARD, tab.forward);
      }
    }

    /**
     Replaces the tabs of a profile.  Either all of it happens, and nothing of any other profile changes,
     or nothing happens; it happens when the statements work and there is such a profile.
     */
    method SaveTabs(profile: int, tabs: seq<StoredTab>, next: nat) returns (ok: bool, ghost ids: seq<int>)
      requires Sound(db) && next < 0x1_0000_0000
      modifies this
      ensures Sound(db)
      ensures ok ==>
                && Saved(db, profile, tabs, ids) && OthersKept(old(db), db, profile)
                && SettingKey(profile, NEXT_TAB_ID) in db.settings && db.settings[SettingKey(profile, NEXT_TAB_ID)] == Decimal(next)
      ensures !ok ==> db == old(db)
      ensures ok ==> profile in old(db).profiles
      ensures statements.Always? ==> (ok <==> statements.value && profile in old(db).profiles)
    {
      hide OtherTabs, OtherNavigation, OtherSettings, Decimal, Sound;
      ids := [];
      var begun := Ask(statements);
      if !begun {
        return false, ids;
      }
      var before := db;
      ok, ids := ReplaceTabs(profile, tabs);
      if ok {
        ok := SetNextTabId(profile, next);
      }
      var committed := Ask(statements);
      ok := ok && committed;
      if !ok {
        db := before;
      }
    }

    method SetNextTabId(profile: int, next: nat) returns (ok: bool)
      requires Sound(db)
      modifies this
      ensures Sound(db) && OthersKept(old(db), db, profile)
      ensures db == old(db).(settings := db.settings)
      ensures ok ==> SettingKey(profile, NEXT_TAB_ID) in db.settings && db.settings[SettingKey(profile, NEXT_TAB_ID)] == Decimal(next)
      ensures (ok ==> profile in db.profiles) && (statements == Always(true) ==> (ok <==> profile in db.profiles))
    {
      ok := SetSetting(profile, NEXT_TAB_ID, Decimal(next));
    }

    method ReplaceTabs(profile: int, tabs: seq<StoredTab>) returns (ok: bool, ghost ids: seq<int>)
      requires Sound(db)
      modifies this
      ensures Sound(db) && OthersKept(old(db), db, profile)
      ensures ok ==> Saved(db, profile, tabs, ids)
      ensures statements == Always(true) && profile in db.profiles ==> ok
    {
      hide OtherTabs, OtherNavigation, OtherSettings, Sound, TabSaved, PlaceIsFree;
      ids := [];
      ok := DeleteTabs(profile);
      var index := 0;
      while ok && index < |tabs|
        invariant 0 <= index <= |tabs| && Sound(db) && OthersKept(old(db), db, profile)
        invariant ok ==> Saved(db, profile, tabs[..index], ids)
        invariant statements == Always(true) && profile in db.profiles ==> ok
      {
        NextPlaceIsFree(db, profile, tabs[..index], ids);
        ghost var previous := db;
        var id;
        ok, id := InsertStoredTab(profile, index, tabs[index]);
        if ok {
          SavedSnoc(previous, db, profile, tabs, index, ids, id);
          ids := ids + [id];
        }
        index := index + 1;
      }
      assert ok ==> tabs[..index] == tabs;
    }

    // ---------------------------------------------------------------- loading

    /** ORDER BY: the numbers of a set in increasing order. */
    method SortedNumbers(numbers: set<int>) returns (sorted: seq<int>)
      ensures Increasing(sorted) && forall p :: p in sorted <==> p in numbers
    {
      sorted := [];
      var left := numbers;
      while left != {}
        invariant Increasing(sorted) && left <= numbers
        invariant forall p :: p in numbers <==> p in sorted || p in left
        invariant forall p, q :: p in sorted && q in left ==> p < q
        decreases |left|
      {
        var least := Least(left);
        assert forall i :: 0 <= i < |sorted| ==> sorted[i] in sorted;
        sorted := sorted + [least];
        left := left - {least};
      }
    }

    method Least(numbers: set<int>) returns (least: int)
      requires numbers != {}
      ensures least in numbers && forall p :: p in numbers ==> least <= p
    {
      NonEmpty(numbers);
      least :| least in numbers;
      var left := numbers - {least};
      while left != {}
        invariant least in numbers && left <= numbers
        invariant forall p :: p in numbers && p !in left ==> least <= p
        decreases |left|
      {
        NonEmpty(left);
        var p :| p in left;
        if p < least {
          least := p;
        }
        left := left - {p};
      }
    }

    /** One stack, by position, as far as it can be read. */
    method LoadNavigation(tab: int, kind: int, fault: Option<nat>) returns (items: seq<string>)
      ensures NavRead(db, tab, kind, items, fault)
    {
      var positions := SortedNumbers(set k | k in db.navigation && k.tab == tab && k.kind == kind :: k.position);
      forall p
        ensures p in positions <==> NavKey(tab, kind, p) in db.navigation
      {
        if p in positions {
          var k :| k in db.navigation && k.tab == tab && k.kind == kind && k.position == p;
          assert k == NavKey(tab, kind, p);
        }
      }
      items := [];
      var rows := db.navigation;
      forall i | 0 <= i < |positions|
        ensures NavKey(tab, kind, positions[i]) in rows
      {
        assert positions[i] in positions;
      }
      ghost var whole := seq(|positions|, i requires 0 <= i < |positions| => rows[NavKey(tab, kind, positions[i])]);
      assert NavListed(db, tab, kind, whole, positions);
      for i := 0 to |positions|
        invariant items == whole[..i] && (fault.Some? ==> i <= fault.value)
      {
        if fault == Some(i) {
          return;
        }
        items := items + [rows[NavKey(tab, kind, positions[i])]];
      }
    }

    /** A setting, or the fallback: for a missing row as for a failed statement. */
    method GetSetting(profile: int, key: string, fallback: string, fault: bool) returns (value: string)
      ensures value == if fault then fallback else Setting(db, profile, key, fallback)
    {
      if fault || SettingKey(profile, key) !in db.settings {
        return fallback;
      }
      return db.settings[SettingKey(profile, key)];
    }

    /**
     The tabs of a profile by position, each as far as its stacks can be read, and its next tab number,
     or 2 when that cannot be read.
     */
    method LoadTabs(profile: int, faults: Faults)
      returns (ok: bool, tabs: seq<StoredTab>, next: nat)
      requires Sound(db)
      ensures ok ==> TabsRead(db, profile, tabs, faults) && next == if faults.next then 2 else NextId(db, profile)
      ensures statements.Always? ==> ok == statements.value
    {
      hide NumberOf, Shows, Faults.CutTab;
      ghost var ids, whole := [], [];
      tabs := [];
      var positions := SortedNumbers(set id | id in db.tabs && db.tabs[id].profile == profile :: db.tabs[id].position);
      for i := 0 to |positions|
        invariant |tabs| == |ids| == |whole| == i
        invariant forall j :: 0 <= j < i ==> ids[j] in db.tabs && db.tabs[ids[j]].profile == profile
                                             && db.tabs[ids[j]].position == positions[j]
        invariant forall j :: 0 <= j < i ==> Shows(db, ids[j], whole[j]) && tabs[j] == faults.CutTab(whole[j], j)
      {
        assert positions[i] in positions;
        var id :| id in db.tabs && db.tabs[id].profile == profile && db.tabs[id].position == positions[i];
        var tab := LoadTab(id, i, faults);
        ghost var full :| Shows(db, id, full) && tab == faults.CutTab(full, i);
        tabs := tabs + [tab];
        ids, whole := ids + [id], whole + [full];
      }
      forall id | id in db.tabs && db.tabs[id].profile == profile
        ensures id in ids
      {
        assert db.tabs[id].position in positions;
        var j :| 0 <= j < |positions| && positions[j] == db.tabs[id].position;
        assert SamePlace(db.tabs[id], db.tabs[ids[j]]);
        assert ids[j] == id;
      }
      assert Listed(db, profile, whole, ids) && CutTabs(whole, tabs, faults);
      var value := GetSetting(profile, NEXT_TAB_ID, "2", faults.next);
      next := NumberOf(value);
      FallbackNumber();
      ok := Ask(statements);
    }

    method LoadTab(id: int, place: nat, faults: Faults) returns (tab: StoredTab)
      requires id in db.tabs
      ensures TabRead(db, id, tab, place, faults)
    {
      var row := db.tabs[id];
      var back := LoadNavigation(id, BACK, faults.Back(place));
      var forward := LoadNavigation(id, FORWARD, faults.Forward(place));
      tab := StoredTab(ToUnsigned(row.logical), row.url, row.title, row.active != 0, back, forward);
      ghost var wholeBack, backPlaces :|
        NavListed(db, id, BACK, wholeBack, backPlaces) && back == Cut(wholeBack, faults.Back(place));
      ghost var wholeForward, forwardPlaces :|
        NavListed(db, id, FORWARD, wholeForward, forwardPlaces) && forward == Cut(wholeForward, faults.Forward(place));
      assert Shows(db, id, tab.(back := wholeBack, forward := wholeForward));
    }

    /**
     Saving and loading, end to end.  Every tab is back in its place with its address, title and flag;
     its stacks are back up to the first read error, so that all tabs are as they were exactly when no
     error falls on a link.  The next number is back exactly when it is 2, or above and could be read.
     */
    method SaveAndLoad(profile: int, tabs: seq<StoredTab>, next: nat, faults: Faults)
      returns (ok: bool, loaded: seq<StoredTab>, loadedNext: nat)
      requires Sound(db) && next < 0x1_0000_0000
      requires forall i :: 0 <= i < |tabs| ==> tabs[i].logical < 0x1_0000_0000
      modifies this
      ensures Sound(db)
      ensures statements.Always? ==> (ok <==> statements.value && profile in old(db).profiles)
      ensures ok ==> OthersKept(old(db), db, profile)
      ensures ok ==> loadedNext == if faults.next || next < 2 then 2 else next
      ensures ok ==> (loadedNext == next <==> next == 2 || (next > 2 && !faults.next))
      ensures ok ==> |loaded| == |tabs| && forall i :: 0 <= i < |tabs| ==> loaded[i] == faults.CutTab(tabs[i], i)
      ensures ok ==> (loaded == tabs <==> forall i :: 0 <= i < |tabs| ==> !faults.Loses(tabs[i], i))
    {
      hide Sound, OthersKept, NextId, Saved, Listed, Faults.CutTab, Faults.Loses;
      ghost var ids;
      loaded, loadedNext := [], 2;
      ok, ids := SaveTabs(profile, tabs, next);
      if ok {
        ok, loaded, loadedNext := LoadTabs(profile, faults);
        if ok {
          ghost var whole, order :| Listed(db, profile, whole, order) && CutTabs(whole, loaded, faults);
          TabsRoundTrip(db, profile, tabs, ids, whole, order);
          NextIdRoundTrip(db, profile, next);
          forall i | 0 <= i < |tabs|
            ensures loaded[i] == tabs[i] <==> !faults.Loses(tabs[i], i)
          {
            CutOrWhole(faults, tabs[i], i);
          }
        }
      }
    }
  }

  /** A tab numbered 16 and the next number 17 are saved; the number cannot be read back, and 2 is. */
  method LostNumber() returns (store: ProfileStore, ok: bool, loaded: seq<StoredTab>, next: nat)
    ensures ok && loaded == [StoredTab(16, "about:blank", "", true, [], [])] && next == 2
  {
    store := new ProfileStore({1}, Always(true));
    var tabs := [StoredTab(16, "about:blank", "", true, [], [])];
    ok, loaded, next := store.SaveAndLoad(1, tabs, 17, Faults(map[], map[], true));
  }

  lemma CutOrWhole(faults: Faults, tab: StoredTab, i: nat)
    ensures faults.CutTab(tab, i) == tab <==> !faults.Loses(tab, i)
  {
    assert i in faults.back && faults.back[i] < |tab.back| ==> |Cut(tab.back, faults.Back(i))| < |tab.back|;
    assert i in faults.forward && faults.forward[i] < |tab.forward| ==>
      |Cut(tab.forward, faults.Forward(i))| < |tab.forward|;
  }

  lemma NonEmpty(s: set<int>)
    ensures s == {} || exists p :: p in s
  {
    if forall p :: p !in s {
      assert s == {};
    }
  }

  lemma SavedSnoc(before: Database, after: Database, profile: int, tabs: seq<StoredTab>, n: nat, ids: seq<int>, id: int)
    requires n < |tabs| && Saved(before, profile, tabs[..n], ids)
    requires TabSaved(after, id, profile, n, tabs[n]) && after.tabs.Keys == before.tabs.Keys + {id}
    requires forall other :: other in before.tabs ==> RowKept(before, after, other)
    ensures Saved(after, profile, tabs[..n + 1], ids + [id])
  {
    var more := ids + [id];
    forall i | 0 <= i < n + 1
      ensures TabSaved(after, more[i], profile, i, tabs[..n + 1][i])
    {
      if i < n {
        assert TabSaved(before, ids[i], profile, i, tabs[..n][i]);
        SavedKept(before, after, ids[i], profile, i, tabs[i]);
      }
    }
    forall other | other in after.tabs && after.tabs[other].profile == profile
      ensures other in more
    {
      if other in before.tabs {
        assert RowKept(before, after, other);
        assert other in ids;
      } else {
        assert more[n] == other;
      }
    }
  }
}
