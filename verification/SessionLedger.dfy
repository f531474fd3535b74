/**
 The list of changes of an editing session, kept against a baseline: what edits, tab
 closes, agent plans and background refreshes do to it.
 */
module SessionLedger {
  import opened Paths

  /** A file as the session knows it: absent, or with some content. */
  datatype Version = Version(exists_: bool, content: string)

  datatype Change = Change(path: string, before: Version, after: Version)

  datatype Tab = Tab(content: string, saved: string, dirty: bool)

  datatype Ledger = Ledger(baseline: map<string, Version>, changes: seq<Change>, tabs: map<string, Tab>)

  const FRESH := Ledger(map[], [], map[])

  /** `a.localeCompare(b) <= 0` */
  type Collation = (string, string) -> bool

  ghost predicate Total(le: Collation) {
    && (forall a, b :: le(a, b) || le(b, a))
    && (forall a, b, c :: le(a, b) && le(b, c) ==> le(a, c))
  }

  datatype Event =
    | Open(path: string, content: string)
    | Edit(path: string, content: string)
    | Save(path: string)
    | CloseTab(path: string)
    | TabRead(path: string, content: string)
    | TabsReplaced(tabs: map<string, Tab>)
    | AgentChange(path: string, before: Version, after: Version)
    | Create(path: string)
    | CreateFails(path: string)
    | Reset

  // ---------------------------------------------------------- the steps

  function Without(changes: seq<Change>, path: string): seq<Change> {
    if changes == [] then []
    else
      var rest := Without(changes[..|changes| - 1], path);
      if changes[|changes| - 1].path == path then rest else rest + [changes[|changes| - 1]]
  }

  /** Sorting a sorted list with one more entry at its end: a stable sort puts it behind its equals. */
  function Insert(le: Collation, changes: seq<Change>, change: Change): seq<Change> {
    if changes == [] then [change]
    else
      var last := changes[|changes| - 1];
      if le(last.path, change.path) then changes + [change]
      else Insert(le, changes[..|changes| - 1], change) + [last]
  }

  predicate Live(changes: seq<Change>, path: string) {
    exists change | change in changes :: change.path == path
  }

  /** `trackChange` on a path that is already normalised. */
  function TrackAt(le: Collation, s: Ledger, path: string, before: Version, after: Version): Ledger {
    if path == "" then s
    else
      var baseline := if path in s.baseline then s.baseline else s.baseline[path := before];
      var remaining := Without(s.changes, path);
      s.(baseline := baseline,
         changes := if baseline[path] == after then remaining
                    else Insert(le, remaining, Change(path, baseline[path], after)))
  }

  function Track(le: Collation, s: Ledger, path: string, before: Version, after: Version): Ledger {
    TrackAt(le, s, Normalize(path), before, after)
  }

  function SavedAt(s: Ledger, path: string): string {
    if path in s.tabs then s.tabs[path].saved else ""
  }

  function BaselineAt(s: Ledger, path: string): Version {
    if path in s.baseline then s.baseline[path] else Version(true, SavedAt(s, path))
  }

  function Edited(le: Collation, s: Ledger, path: string, content: string): Ledger {
    var baseline := BaselineAt(s, path);
    var known := s.(baseline := s.baseline[path := baseline]);
    var typed := if path in s.tabs
                 then known.(tabs := s.tabs[path := Tab(content, s.tabs[path].saved, content != s.tabs[path].saved)])
                 else known;
    Track(le, typed, path, baseline, Version(true, content))
  }

  function Closed(le: Collation, s: Ledger, path: string): Ledger {
    var tracked := if path in s.tabs && s.tabs[path].dirty
                   then Track(le, s, path, BaselineAt(s, path), Version(true, s.tabs[path].saved))
                   else s;
    tracked.(tabs := tracked.tabs - {path})
  }

  /** A background refresh has read a tab that was clean when it began: the baseline follows the disk unless the path has a live entry. */
  function BaselineRead(s: Ledger, path: string, content: string): Ledger {
    if Live(s.changes, path) then s else s.(baseline := s.baseline[path := Version(true, content)])
  }

  /** The tabs a refresh puts in place: those open when it began, the clean ones it could read as read, the missing ones gone. */
  function Rebuilt(snapshot: map<string, Tab>, read: map<string, string>, gone: set<string>): map<string, Tab> {
    map p | p in snapshot && !(p in gone && !snapshot[p].dirty) ::
      if p in read && !snapshot[p].dirty then Tab(read[p], read[p], false) else snapshot[p]
  }

  function Step(le: Collation, s: Ledger, e: Event): Ledger {
    match e
    case Open(path, content) =>
      if path in s.tabs then s
      else s.(baseline := if path in s.baseline then s.baseline else s.baseline[path := Version(true, content)],
              tabs := s.tabs[path := Tab(content, content, false)])
    case Edit(path, content) => Edited(le, s, Normalize(path), content)
    case Save(path) =>
      var key := Normalize(path);
      if key in s.tabs then s.(tabs := s.tabs[key := Tab(s.tabs[key].content, s.tabs[key].content, false)]) else s
    case CloseTab(path) => Closed(le, s, Normalize(path))
    case TabRead(path, content) => BaselineRead(s, path, content)
    case TabsReplaced(tabs) => s.(tabs := tabs)
    case AgentChange(path, before, after) => Track(le, s, path, before, after)
    case Create(path) =>
      Track(le, s.(baseline := s.baseline[path := Version(false, "")]), path, Version(false, ""), Version(true, ""))
    case CreateFails(path) => s.(baseline := s.baseline[path := Version(false, "")])
    case Reset => FRESH
  }

  function Run(le: Collation, s: Ledger, events: seq<Event>): Ledger
    decreases |events|
  {
    if events == [] then s else Run(le, Step(le, s, events[0]), events[1..])
  }

  // ---------------------------------------------------------- the invariant

  ghost predicate Sorted(le: Collation, changes: seq<Change>) {
    forall i, j :: 0 <= i < j < |changes| ==> le(changes[i].path, changes[j].path)
  }

  ghost predicate OnePerPath(changes: seq<Change>) {
    forall i, j :: 0 <= i < j < |changes| ==> changes[i].path != changes[j].path
  }

  /** An entry starts at the baseline of its path and ends somewhere else. */
  ghost predicate Honest(baseline: map<string, Version>, change: Change) {
    change.path in baseline && change.before == baseline[change.path] && change.after != change.before
  }

  ghost predicate Inv(le: Collation, s: Ledger) {
    && Sorted(le, s.changes) && OnePerPath(s.changes)
    && forall change :: change in s.changes ==> Honest(s.baseline, change)
  }

  // ---------------------------------------------------------- list lemmas

  lemma SortedAppend(le: Collation, changes: seq<Change>, last: Change)
    ensures Sorted(le, changes + [last])
            <==> Sorted(le, changes) && forall c :: c in changes ==> le(c.path, last.path)
  {
    var all := changes + [last];
    if Sorted(le, all) {
      forall c | c in changes ensures le(c.path, last.path) {
        var i :| 0 <= i < |changes| && changes[i] == c;
        assert le(all[i].path, all[|changes|].path);
      }
      forall i, j | 0 <= i < j < |changes| ensures le(changes[i].path, changes[j].path) {
        assert le(all[i].path, all[j].path);
      }
    }
  }

  lemma OnePerPathAppend(changes: seq<Change>, last: Change)
    ensures OnePerPath(changes + [last])
            <==> OnePerPath(changes) && forall c :: c in changes ==> c.path != last.path
  {
    var all := changes + [last];
    if OnePerPath(all) {
      forall c | c in changes ensures c.path != last.path {
        var i :| 0 <= i < |changes| && changes[i] == c;
        assert all[i].path != all[|changes|].path;
      }
      forall i, j | 0 <= i < j < |changes| ensures changes[i].path != changes[j].path {
        assert all[i].path != all[j].path;
      }
    }
  }

  lemma LastSplit(changes: seq<Change>)
    requires changes != []
    ensures changes == changes[..|changes| - 1] + [changes[|changes| - 1]]
  {
  }

  lemma {:induction false} WithoutElements(changes: seq<Change>, path: string)
    ensures forall c :: c in Without(changes, path) <==> c in changes && c.path != path
  {
    if changes != [] {
      WithoutElements(changes[..|changes| - 1], path);
      LastSplit(changes);
    }
  }

  lemma {:induction false} WithoutKeeps(le: Collation, changes: seq<Change>, path: string)
    ensures Sorted(le, changes) ==> Sorted(le, Without(changes, path))
    ensures OnePerPath(changes) ==> OnePerPath(Without(changes, path))
  {
    if changes != [] {
      var init, last := changes[..|changes| - 1], changes[|changes| - 1];
      WithoutKeeps(le, init, path);
      WithoutElements(init, path);
      LastSplit(changes);
      SortedAppend(le, init, last);
      OnePerPathAppend(init, last);
      SortedAppend(le, Without(init, path), last);
      OnePerPathAppend(Without(init, path), last);
      hide Sorted, OnePerPath;
    }
  }

  lemma {:induction false} InsertElements(le: Collation, changes: seq<Change>, change: Change)
    ensures multiset(Insert(le, changes, change)) == multiset(changes) + multiset{change}
    ensures forall c :: c in Insert(le, changes, change) <==> c in changes || c == change
  {
    if changes != [] {
      InsertElements(le, changes[..|changes| - 1], change);
      LastSplit(changes);
    }
  }

  /** The new entry goes where it keeps the list sorted. */
  lemma {:induction false} InsertSorted(le: Collation, changes: seq<Change>, change: Change)
    requires Total(le) && Sorted(le, changes)
    ensures Sorted(le, Insert(le, changes, change))
  {
    if changes == [] {
    } else {
      var init, last := changes[..|changes| - 1], changes[|changes| - 1];
      LastSplit(changes);
      SortedAppend(le, init, last);
      SortedAppend(le, changes, change);
      InsertSorted(le, init, change);
      InsertElements(le, init, change);
      SortedAppend(le, Insert(le, init, change), last);
      hide Sorted, Insert;
      InsertStep(le, changes, change);
    }
  }

  lemma InsertStep(le: Collation, changes: seq<Change>, change: Change)
    requires changes != []
    ensures var last := changes[|changes| - 1];
            Insert(le, changes, change)
            == if le(last.path, change.path) then changes + [change]
               else Insert(le, changes[..|changes| - 1], change) + [last]
  {
  }

  lemma {:induction false} InsertOnePerPath(le: Collation, changes: seq<Change>, change: Change)
    requires OnePerPath(changes) && forall c :: c in changes ==> c.path != change.path
    ensures OnePerPath(Insert(le, changes, change))
  {
    if changes == [] {
    } else {
      var init, last := changes[..|changes| - 1], changes[|changes| - 1];
      LastSplit(changes);
      OnePerPathAppend(init, last);
      OnePerPathAppend(changes, change);
      InsertOnePerPath(le, init, change);
      InsertElements(le, init, change);
      OnePerPathAppend(Insert(le, init, change), last);
      hide OnePerPath, Insert;
      InsertStep(le, changes, change);
    }
  }

  // ---------------------------------------------------------- every event keeps the invariant, but one

  lemma TrackKeeps(le: Collation, s: Ledger, path: string, before: Version, after: Version)
    requires Total(le) && Sorted(le, s.changes) && OnePerPath(s.changes)
    requires forall change :: change in s.changes && change.path != Normalize(path) ==> Honest(s.baseline, change)
    requires Normalize(path) == "" ==> Inv(le, s)
    ensures Inv(le, Track(le, s, path, before, after))
  {
    var key := Normalize(path);
    hide Normalize, Sorted, OnePerPath, Total, Insert, Without;
    if key != "" {
      var remaining := Without(s.changes, key);
      WithoutElements(s.changes, key);
      WithoutKeeps(le, s.changes, key);
      var baseline := if key in s.baseline then s.baseline else s.baseline[key := before];
      if baseline[key] != after {
        var change := Change(key, baseline[key], after);
        InsertElements(le, remaining, change);
        InsertSorted(le, remaining, change);
        InsertOnePerPath(le, remaining, change);
      }
    }
  }

  /** A creation that replaces the baseline of its path and reports no change under that same path. */
  predicate Replaces(e: Event) {
    e.CreateFails? || (e.Create? && (e.path == "" || Normalize(e.path) != e.path))
  }

  /** Such a creation finds a live entry with another starting point at its path. */
  predicate Breaks(s: Ledger, e: Event) {
    Replaces(e) && exists change | change in s.changes :: change.path == e.path && change.before != Version(false, "")
  }

  /**
   Every event keeps the list sorted, one entry per path, each starting at its baseline
   and ending elsewhere, exactly unless a creation over a live entry fails to be written,
   or is reported under another path: the baseline has been replaced then and the entry
   has not.
   */
  lemma StepKeepsIff(le: Collation, s: Ledger, e: Event)
    requires Total(le) && Inv(le, s)
    ensures Inv(le, Step(le, s, e)) <==> !Breaks(s, e)
  {
    hide Sorted, OnePerPath, Total, Insert, Without, Normalize, TrackAt;
    match e {
      case Edit(path, content) =>
        EditKeeps(le, s, Normalize(path), content);
      case CloseTab(path) =>
        var key := Normalize(path);
        TrackKeeps(le, s, key, BaselineAt(s, key), Version(true, SavedAt(s, key)));
      case AgentChange(path, before, after) => TrackKeeps(le, s, path, before, after);
      case Create(path) => CreateKeepsIff(le, s, path);
      case CreateFails(path) =>
        var t := Step(le, s, e);
        assert forall c :: c in s.changes ==> (Honest(t.baseline, c) <==> c.path != path || c.before == Version(false, ""));
      case TabRead(path, content) =>
        BaselineReadKeeps(le, s, path, content);
      case _ =>
        EmptyKeeps(le);
    }
  }

  lemma CreateKeepsIff(le: Collation, s: Ledger, path: string)
    requires Total(le) && Inv(le, s)
    ensures Inv(le, Step(le, s, Create(path))) <==> !Breaks(s, Create(path))
  {
    var replaced := s.(baseline := s.baseline[path := Version(false, "")]);
    var key, t := Normalize(path), Step(le, s, Create(path));
    hide Normalize, Sorted, OnePerPath, Total, Insert, Without;
    assert forall c :: c in s.changes ==> (Honest(replaced.baseline, c) <==> c.path != path || c.before == Version(false, ""));
    if !Breaks(s, Create(path)) {
      TrackKeeps(le, replaced, path, Version(false, ""), Version(true, ""));
    } else {
      var change :| change in s.changes && change.path == path && change.before != Version(false, "");
      if key != "" {
        WithoutElements(s.changes, key);
        InsertElements(le, Without(s.changes, key), Change(key, t.baseline[key], Version(true, "")));
      }
      assert change in t.changes && !Honest(t.baseline, change);
    }
  }

  lemma EmptyKeeps(le: Collation)
    ensures Inv(le, FRESH)
  {
  }

  lemma BaselineReadKeeps(le: Collation, s: Ledger, path: string, content: string)
    requires Inv(le, s)
    ensures Inv(le, BaselineRead(s, path, content))
  {
    var t := BaselineRead(s, path, content);
    forall c | c in t.changes ensures Honest(t.baseline, c) {
      assert Honest(s.baseline, c);
      assert c.path == path ==> Live(s.changes, path);
    }
  }

  lemma EditKeeps(le: Collation, s: Ledger, path: string, content: string)
    requires Total(le) && Inv(le, s)
    ensures Inv(le, Edited(le, s, path, content))
  {
    hide Sorted, OnePerPath, Total, Insert, Without, Normalize, TrackAt;
    var baseline := BaselineAt(s, path);
    var known := s.(baseline := s.baseline[path := baseline]);
    assert Inv(le, known);
    var typed := if path in s.tabs
                 then known.(tabs := s.tabs[path := Tab(content, s.tabs[path].saved, content != s.tabs[path].saved)])
                 else known;
    assert Inv(le, typed);
    TrackKeeps(le, typed, path, baseline, Version(true, content));
  }

  lemma {:induction false} RunLast(le: Collation, s: Ledger, events: seq<Event>, k: nat)
    requires k < |events|
    ensures Run(le, s, events[..k + 1]) == Step(le, Run(le, s, events[..k]), events[k])
    decreases k
  {
    hide Step;
    var all := events[..k + 1];
    assert all[0] == events[0] && all[1..] == events[1..][..k];
    if k == 0 {
      assert events[1..][..0] == [] && events[..0] == [];
    } else {
      RunLast(le, Step(le, s, events[0]), events[1..], k - 1);
      assert events[..k][0] == events[0] && events[..k][1..] == events[1..][..k - 1];
    }
  }

  lemma {:induction false} PrefixKeeps(le: Collation, s: Ledger, events: seq<Event>, k: nat)
    requires Total(le) && Inv(le, s) && k <= |events|
    requires forall i :: 0 <= i < k ==> !Breaks(Run(le, s, events[..i]), events[i])
    ensures Inv(le, Run(le, s, events[..k]))
  {
    hide Inv, Total, Step, Breaks;
    if k == 0 {
      assert events[..0] == [];
    } else {
      PrefixKeeps(le, s, events, k - 1);
      RunLast(le, s, events, k - 1);
      StepKeepsIff(le, Run(le, s, events[..k - 1]), events[k - 1]);
    }
  }

  /** Over every session the ledger stays sound all along exactly if no event of it breaks the ledger it meets. */
  lemma RunKeepsIff(le: Collation, s: Ledger, events: seq<Event>)
    requires Total(le) && Inv(le, s)
    ensures (forall k :: 0 <= k <= |events| ==> Inv(le, Run(le, s, events[..k])))
            <==> (forall k :: 0 <= k < |events| ==> !Breaks(Run(le, s, events[..k]), events[k]))
  {
    hide Inv, Total, Step, Breaks, Run;
    if forall k :: 0 <= k < |events| ==> !Breaks(Run(le, s, events[..k]), events[k]) {
      forall k | 0 <= k <= |events| ensures Inv(le, Run(le, s, events[..k])) {
        PrefixKeeps(le, s, events, k);
      }
    }
    if forall k :: 0 <= k <= |events| ==> Inv(le, Run(le, s, events[..k])) {
      forall k | 0 <= k < |events| ensures !Breaks(Run(le, s, events[..k]), events[k]) {
        RunLast(le, s, events, k);
        assert Inv(le, Run(le, s, events[..k])) && Inv(le, Run(le, s, events[..k + 1]));
        StepKeepsIff(le, Run(le, s, events[..k]), events[k]);
      }
    }
  }

  /** The tab at `path`, or its absence, is the same in both. */
  predicate SameTab(a: map<string, Tab>, b: map<string, Tab>, path: string) {
    (path in a <==> path in b) && (path in a ==> a[path] == b[path])
  }

  lemma Replaced(le: Collation, s: Ledger, tabs: map<string, Tab>)
    ensures Step(le, s, TabsReplaced(tabs)) == s.(tabs := tabs)
  {
  }

  /** A refresh that begins in `s` and ends after the events `during`. */
  function Refreshing(s: Ledger, during: seq<Event>, read: map<string, string>, gone: set<string>): seq<Event> {
    during + [TabsReplaced(Rebuilt(s.tabs, read, gone))]
  }

  lemma RefreshEnds(le: Collation, s: Ledger, during: seq<Event>, read: map<string, string>, gone: set<string>)
    ensures Run(le, s, Refreshing(s, during, read, gone)) == Run(le, s, during).(tabs := Rebuilt(s.tabs, read, gone))
  {
    hide Run, Step, Rebuilt;
    var all := Refreshing(s, during, read, gone);
    RunLast(le, s, all, |during|);
    assert all[..|during|] == during && all[..|during| + 1] == all;
    Replaced(le, Run(le, s, during), Rebuilt(s.tabs, read, gone));
  }

  /**
   Exactly when unsaved text survives a refresh, whatever the refresh read and found gone,
   that file or others, and whatever happened meanwhile: when its tab was open with the same
   text when the refresh began. The ledger keeps what happened in any case.
   */
  lemma UnsavedSurvivesIff(le: Collation, s: Ledger, during: seq<Event>, path: string, read: map<string, string>, gone: set<string>)
    requires var before := Run(le, s, during); path in before.tabs && before.tabs[path].dirty
    ensures var before, after := Run(le, s, during), Run(le, s, Refreshing(s, during, read, gone));
            && (SameTab(after.tabs, before.tabs, path) <==> path in s.tabs && s.tabs[path] == before.tabs[path])
            && after.changes == before.changes && after.baseline == before.baseline
  {
    RefreshEnds(le, s, during, read, gone);
    hide Run, Refreshing;
  }

  /** An event that may change the tab at `path`. */
  predicate TouchesTab(e: Event, path: string) {
    || e.Reset? || e.TabsReplaced? || (e.Open? && e.path == path)
    || ((e.Edit? || e.Save? || e.CloseTab?) && Normalize(e.path) == path)
  }

  lemma StepLeavesTab(le: Collation, s: Ledger, e: Event, path: string)
    requires !TouchesTab(e, path)
    ensures SameTab(Step(le, s, e).tabs, s.tabs, path)
  {
    hide Normalize, Insert, Without;
  }

  lemma {:induction false} RunLeavesTab(le: Collation, s: Ledger, events: seq<Event>, path: string)
    requires forall e :: e in events ==> !TouchesTab(e, path)
    ensures SameTab(Run(le, s, events).tabs, s.tabs, path)
    decreases |events|
  {
    hide Step, TouchesTab;
    if events != [] {
      StepLeavesTab(le, s, events[0], path);
      RunLeavesTab(le, Step(le, s, events[0]), events[1..], path);
    }
  }

  /** Unsaved text from before the refresh survives if no event in between concerns its tab. */
  lemma UntouchedSurvives(le: Collation, s: Ledger, during: seq<Event>, path: string, read: map<string, string>, gone: set<string>)
    requires path in s.tabs && s.tabs[path].dirty && forall e :: e in during ==> !TouchesTab(e, path)
    ensures SameTab(Run(le, s, Refreshing(s, during, read, gone)).tabs, s.tabs, path)
  {
    RunLeavesTab(le, s, during, path);
    UnsavedSurvivesIff(le, s, during, path, read, gone);
    hide Run, Refreshing;
  }

  lemma {:induction false} RunConcat(le: Collation, s: Ledger, a: seq<Event>, b: seq<Event>)
    ensures Run(le, s, a + b) == Run(le, Run(le, s, a), b)
    decreases |a|
  {
    hide Step;
    if a == [] {
      assert a + b == b;
    } else {
      RunConcat(le, Step(le, s, a[0]), a[1..], b);
      assert (a + b)[0] == a[0] && (a + b)[1..] == a[1..] + b;
    }
  }

  lemma TypedTab(le: Collation, s: Ledger, value: string, typed: string)
    requires Normalize(value) in s.tabs
    ensures var path, t := Normalize(value), Step(le, s, Edit(value, typed));
            path in t.tabs && t.tabs[path] == Tab(typed, s.tabs[path].saved, typed != s.tabs[path].saved)
  {
    hide Normalize, Insert, Without;
  }

  /**
   Text typed during the refresh is lost from its tab, unless the tab held that very text,
   unsaved over the same saved text, when the refresh began: for any events before the last
   edit of the tab and any after it that leave the tab alone.
   */
  lemma TypedSurvivesIff(le: Collation, s: Ledger, early: seq<Event>, value: string, typed: string, late: seq<Event>,
                         read: map<string, string>, gone: set<string>)
    requires var path, open := Normalize(value), Run(le, s, early).tabs;
             path in open && typed != open[path].saved && forall e :: e in late ==> !TouchesTab(e, path)
    ensures var path, open := Normalize(value), Run(le, s, early).tabs;
            var during := early + [Edit(value, typed)] + late;
            var before, after := Run(le, s, during), Run(le, s, Refreshing(s, during, read, gone));
            && path in before.tabs && before.tabs[path].content == typed
            && (SameTab(after.tabs, before.tabs, path) <==> path in s.tabs && s.tabs[path] == Tab(typed, open[path].saved, true))
  {
    var path := Normalize(value);
    var during := early + [Edit(value, typed)] + late;
    var t := Run(le, s, early);
    var u := Step(le, t, Edit(value, typed));
    TypedTab(le, t, value, typed);
    hide Step, TouchesTab, Normalize;
    RunConcat(le, s, early + [Edit(value, typed)], late);
    RunConcat(le, s, early, [Edit(value, typed)]);
    assert [Edit(value, typed)][1..] == [];
    assert Run(le, t, [Edit(value, typed)]) == u;
    RunLeavesTab(le, u, late, path);
    hide Run;
    UnsavedSurvivesIff(le, s, during, path, read, gone);
  }

  /**
   What is typed into a clean tab while a refresh reads another one: the refresh puts the
   tabs back that were open when it began, so the tab is clean and shows the old text while
   the ledger keeps the entry of the edit.
   */
  lemma RefreshDiscardsEdit(le: Collation, s: Ledger, path: string, typed: string, other: string, text: string)
    requires Inv(le, s) && Normalize(path) == path && path != "" && path in s.tabs && path != other
    requires other in s.tabs && !s.tabs[other].dirty && text != s.tabs[other].content
    requires !s.tabs[path].dirty && path in s.baseline && s.baseline[path] == Version(true, s.tabs[path].content)
    requires typed != s.tabs[path].content
    ensures var t := Run(le, s, Refreshing(s, [Edit(path, typed), TabRead(other, text)], map[other := text], {}));
            && other in t.tabs && t.tabs[other] == Tab(text, text, false)
            && path in t.tabs && t.tabs[path] == s.tabs[path]
            && Change(path, s.baseline[path], Version(true, typed)) in t.changes
  {
    var events := [Edit(path, typed), TabRead(other, text)];
    var read := map[other := text];
    var typedIn := Step(le, s, events[0]);
    var known := s.(baseline := s.baseline[path := s.baseline[path]]);
    TrackReports(le, known.(tabs := s.tabs[path := Tab(typed, s.tabs[path].saved, typed != s.tabs[path].saved)]),
                 path, s.baseline[path], Version(true, typed));
    hide Normalize, Insert, Without;
    assert known.baseline == s.baseline;
    assert Live(typedIn.changes, path);
    assert events[1..] == [events[1]] && events[1..][1..] == [];
    assert Run(le, s, events) == Run(le, typedIn, events[1..]);
    assert Run(le, typedIn, events[1..]) == Step(le, typedIn, events[1]);
    hide Run;
    RefreshEnds(le, s, events, read, {});
  }

  // ---------------------------------------------------------- the baseline under a live entry

  /** What replaces a baseline on purpose. */
  predicate Rebases(e: Event, path: string) {
    e.Reset? || ((e.Create? || e.CreateFails?) && e.path == path)
  }

  /** While a path has an entry its baseline stays where it is: no edit, close, plan or refresh moves it. */
  lemma BaselineStays(le: Collation, s: Ledger, e: Event, path: string)
    requires Inv(le, s) && Live(s.changes, path) && !Rebases(e, path)
    ensures path in s.baseline && path in Step(le, s, e).baseline && Step(le, s, e).baseline[path] == s.baseline[path]
  {
    hide Sorted, OnePerPath, Insert, Without, Normalize;
    var change :| change in s.changes && change.path == path;
    assert Honest(s.baseline, change);
  }

  /** Once a baseline is known nothing but a reset, a creation or a refresh of a path without entry moves it. */
  lemma BaselineMoves(le: Collation, s: Ledger, e: Event, path: string)
    requires Inv(le, s) && path in s.baseline && !Rebases(e, path)
    requires path !in Step(le, s, e).baseline || Step(le, s, e).baseline[path] != s.baseline[path]
    ensures e.TabRead? && e.path == path && !Live(s.changes, path) && Step(le, s, e).baseline[path] == Version(true, e.content)
  {
    hide Sorted, OnePerPath, Insert, Without, Normalize;
  }

  /** After a change is reported its path has an entry exactly if the file differs from the baseline. */
  lemma TrackReports(le: Collation, s: Ledger, path: string, before: Version, after: Version)
    requires Normalize(path) != ""
    ensures var key, t := Normalize(path), Track(le, s, path, before, after);
            && key in t.baseline
            && (Live(t.changes, key) <==> after != t.baseline[key])
            && (forall c :: c in t.changes && c.path == key ==> c == Change(key, t.baseline[key], after))
            && (forall c: Change :: c.path != key ==> (c in t.changes <==> c in s.changes))
  {
    var key := Normalize(path);
    hide Normalize, Insert, Without;
    WithoutElements(s.changes, key);
    var baseline := if key in s.baseline then s.baseline else s.baseline[key := before];
    InsertElements(le, Without(s.changes, key), Change(key, baseline[key], after));
    assert baseline[key] != after ==> Change(key, baseline[key], after) in Track(le, s, path, before, after).changes;
  }

  /** Creating over a live entry that a failed write leaves behind: the entry no longer starts at its baseline. */
  lemma FailedCreationBreaks(le: Collation, text: string)
    requires Total(le)
    ensures var s := Ledger(map["a" := Version(true, text)], [Change("a", Version(true, text), Version(false, ""))], map[]);
            Inv(le, s) && !Inv(le, Step(le, s, CreateFails("a")))
  {
    var change := Change("a", Version(true, text), Version(false, ""));
    var s := Ledger(map["a" := Version(true, text)], [change], map[]);
    assert Inv(le, s);
    assert change in s.changes;
    StepKeepsIff(le, s, CreateFails("a"));
  }

  // ---------------------------------------------------------- which version the session reports

  /** The version of a file the ledger speaks of: where its entry ends, or its baseline if it has none. */
  ghost predicate Reports(s: Ledger, path: string, version: Version) {
    || (exists c :: c in s.changes && c.path == path && c.after == version)
    || ((forall c :: c in s.changes ==> c.path != path) && path in s.baseline && s.baseline[path] == version)
  }

  /** All the session knows of a path is the same in both. */
  ghost predicate SameAt(s: Ledger, t: Ledger, path: string) {
    SameTab(s.tabs, t.tabs, path) && SameStory(s, t, path)
  }

  /** The ledger says the same of a path in both. */
  ghost predicate SameStory(s: Ledger, t: Ledger, path: string) {
    && (path in s.baseline <==> path in t.baseline) && (path in s.baseline ==> s.baseline[path] == t.baseline[path])
    && forall c: Change :: c.path == path ==> (c in s.changes <==> c in t.changes)
  }

  /** A key that normalises to itself, as the paths of listed files do. */
  predicate Settled(path: string) {
    path != "" && Normalize(path) == path
  }

  lemma TrackedReports(le: Collation, s: Ledger, path: string, earlier: Version, later: Version)
    requires Settled(path)
    ensures var t := Track(le, s, path, earlier, later);
            && Reports(t, path, later) && t.tabs == s.tabs
            && (path in s.baseline ==> t.baseline == s.baseline)
            && (forall q :: q != path ==> SameAt(s, t, q))
  {
    TrackReports(le, s, path, earlier, later);
    var t := Track(le, s, path, earlier, later);
    hide Normalize, Insert, Without;
    if later != t.baseline[path] {
      assert Live(t.changes, path);
      var c :| c in t.changes && c.path == path;
      assert c.after == later;
    }
  }

  lemma TrackedElsewhere(le: Collation, s: Ledger, value: string, earlier: Version, later: Version, path: string)
    requires Normalize(value) != path
    ensures SameAt(s, Track(le, s, value, earlier, later), path)
  {
    if Normalize(value) != "" {
      TrackReports(le, s, value, earlier, later);
    }
    hide Normalize, Insert, Without;
  }

  /** Typing is reported as typed, and the tab holds it against what was last saved. */
  lemma EditReports(le: Collation, s: Ledger, value: string, path: string, typed: string)
    requires Normalize(value) == path && Settled(path)
    ensures var t := Step(le, s, Edit(value, typed));
            && Reports(t, path, Version(true, typed))
            && (path in s.tabs ==> path in t.tabs && t.tabs[path] == Tab(typed, s.tabs[path].saved, typed != s.tabs[path].saved))
            && (path in s.baseline ==> t.baseline == s.baseline)
            && (forall q :: q != path ==> SameAt(s, t, q))
  {
    var known := s.(baseline := s.baseline[path := BaselineAt(s, path)]);
    var typedIn := if path in s.tabs
                   then known.(tabs := s.tabs[path := Tab(typed, s.tabs[path].saved, typed != s.tabs[path].saved)])
                   else known;
    TrackedReports(le, typedIn, path, BaselineAt(s, path), Version(true, typed));
    var t := Step(le, s, Edit(value, typed));
    hide Normalize, Track, Reports;
    assert path in s.baseline ==> known.baseline == s.baseline;
    forall q | q != path ensures SameAt(s, t, q) {
      assert SameAt(typedIn, t, q);
    }
  }

  /** Closing a tab with unsaved text reports the text last saved; closing any other tab reports nothing. */
  lemma CloseReports(le: Collation, s: Ledger, value: string, path: string)
    requires Normalize(value) == path && Settled(path)
    ensures var t := Step(le, s, CloseTab(value));
            && path !in t.tabs
            && (path in s.tabs && s.tabs[path].dirty ==> Reports(t, path, Version(true, s.tabs[path].saved)))
            && ((path in s.tabs && s.tabs[path].dirty) || (t.changes == s.changes && t.baseline == s.baseline))
            && (path in s.baseline ==> t.baseline == s.baseline)
            && (forall q :: q != path ==> SameAt(s, t, q))
  {
    var t := Step(le, s, CloseTab(value));
    hide Normalize, Track;
    if path in s.tabs && s.tabs[path].dirty {
      var tracked := Track(le, s, path, BaselineAt(s, path), Version(true, s.tabs[path].saved));
      TrackedReports(le, s, path, BaselineAt(s, path), Version(true, s.tabs[path].saved));
      assert t == tracked.(tabs := tracked.tabs - {path});
      forall q | q != path ensures SameAt(s, t, q) {
        assert SameAt(s, tracked, q);
      }
    }
  }

  /** Saving makes the shown text the saved one and reports nothing. */
  lemma SaveReports(le: Collation, s: Ledger, value: string)
    ensures var path, t := Normalize(value), Step(le, s, Save(value));
            && t.changes == s.changes && t.baseline == s.baseline
            && t.tabs == if path in s.tabs then s.tabs[path := Tab(s.tabs[path].content, s.tabs[path].content, false)] else s.tabs
  {
    hide Normalize;
  }

  /** Opening shows the text on disk, and takes it as the baseline of a file the session has not met. */
  lemma OpenReports(le: Collation, s: Ledger, path: string, text: string)
    requires path !in s.tabs
    ensures var t := Step(le, s, Open(path, text));
            && t.changes == s.changes && t.tabs == s.tabs[path := Tab(text, text, false)]
            && t.baseline == if path in s.baseline then s.baseline else s.baseline[path := Version(true, text)]
  {
  }

  /** The report of a plan and of a creation. */
  lemma AgentReports(le: Collation, s: Ledger, value: string, path: string, earlier: Version, later: Version)
    requires Normalize(value) == path && Settled(path)
    ensures var t := Step(le, s, AgentChange(value, earlier, later));
            && Reports(t, path, later) && t.tabs == s.tabs
            && (path in s.baseline ==> t.baseline == s.baseline)
            && (path !in s.baseline ==> t.baseline == s.baseline[path := earlier])
            && (forall q :: q != path ==> SameAt(s, t, q))
  {
    TrackAtPath(le, s, value, path, earlier, later);
    TrackedReports(le, s, path, earlier, later);
    TrackReports(le, s, path, earlier, later);
    hide Normalize, TrackAt, Without, Insert, Reports, SameAt;
  }

  lemma TrackAtPath(le: Collation, s: Ledger, value: string, path: string, earlier: Version, later: Version)
    requires Normalize(value) == path && Settled(path)
    ensures Track(le, s, value, earlier, later) == Track(le, s, path, earlier, later)
    ensures Track(le, s, path, earlier, later).baseline == if path in s.baseline then s.baseline else s.baseline[path := earlier]
  {
    hide Normalize, Insert, Without;
  }

  /** A created file starts from nothing and is reported empty. */
  lemma CreateReports(le: Collation, s: Ledger, path: string)
    requires Settled(path)
    ensures var t := Step(le, s, Create(path));
            && t.baseline == s.baseline[path := Version(false, "")]
            && Change(path, Version(false, ""), Version(true, "")) in t.changes
            && (forall c :: c in t.changes && c.path == path ==> c == Change(path, Version(false, ""), Version(true, "")))
            && t.tabs == s.tabs && (forall q :: q != path ==> SameAt(s, t, q))
  {
    var replaced := s.(baseline := s.baseline[path := Version(false, "")]);
    TrackAtPath(le, replaced, path, path, Version(false, ""), Version(true, ""));
    TrackedReports(le, replaced, path, Version(false, ""), Version(true, ""));
    TrackReports(le, replaced, path, Version(false, ""), Version(true, ""));
    hide Normalize, Track;
  }

  // ---------------------------------------------------------- a tab from opening to closing

  /** The event edits or saves the tab at `path`. */
  predicate Works(e: Event, path: string) {
    (e.Edit? || e.Save?) && Normalize(e.path) == path
  }

  /** The event edits or saves some other tab, and is reported under some other path. */
  predicate WorksElsewhere(e: Event, path: string) {
    (e.Edit? || e.Save?) && Normalize(e.path) != path && Normalize(Normalize(e.path)) != path
  }

  /** What was typed last at `path`, or the text it was opened with. */
  function Typed(text: string, work: seq<Event>, path: string): string {
    if work == [] then text
    else
      var last := work[|work| - 1];
      if last.Edit? && Normalize(last.path) == path then last.content else Typed(text, work[..|work| - 1], path)
  }

  /** What was saved last at `path`, or the text it was opened with. */
  function Saved(text: string, work: seq<Event>, path: string): string {
    if work == [] then text
    else
      var last := work[|work| - 1];
      if last.Save? && Normalize(last.path) == path then Typed(text, work[..|work| - 1], path)
      else Saved(text, work[..|work| - 1], path)
  }

  /** The tab shows `content` over `saved`, and the ledger speaks of `content`. */
  ghost predicate Holding(s: Ledger, path: string, content: string, saved: string) {
    && path in s.tabs && s.tabs[path] == Tab(content, saved, content != saved)
    && path in s.baseline && Reports(s, path, Version(true, content))
  }

  lemma ElsewhereLeaves(le: Collation, s: Ledger, e: Event, path: string)
    requires WorksElsewhere(e, path)
    ensures SameAt(s, Step(le, s, e), path)
  {
    if e.Edit? {
      var key := Normalize(e.path);
      var known := s.(baseline := s.baseline[key := BaselineAt(s, key)]);
      var typedIn := if key in s.tabs
                     then known.(tabs := s.tabs[key := Tab(e.content, s.tabs[key].saved, e.content != s.tabs[key].saved)])
                     else known;
      TrackedElsewhere(le, typedIn, key, BaselineAt(s, key), Version(true, e.content), path);
      hide Track, Normalize;
    } else {
      hide Track, Normalize;
    }
  }

  lemma SameHolding(s: Ledger, t: Ledger, path: string, content: string, saved: string)
    requires Holding(s, path, content, saved) && SameAt(s, t, path)
    ensures Holding(t, path, content, saved)
  {
  }

  lemma {:induction false} WorkHolds(le: Collation, s: Ledger, text: string, work: seq<Event>, path: string, n: nat)
    requires Settled(path) && Holding(s, path, text, text) && n <= |work|
    requires forall e :: e in work ==> Works(e, path) || WorksElsewhere(e, path)
    ensures Holding(Run(le, s, work[..n]), path, Typed(text, work[..n], path), Saved(text, work[..n], path))
    decreases n
  {
    hide Holding, Run, Step, Settled, WorksElsewhere, Normalize;
    if n == 0 {
      RunNothing(le, s);
      assert work[..0] == [];
    } else {
      var m := n - 1;
      var now, e := Run(le, s, work[..m]), work[m];
      WorkHolds(le, s, text, work, path, m);
      RunLast(le, s, work, m);
      assert work[..n][..m] == work[..m] && work[..n][m] == e && e in work;
      WorkStep(le, now, e, path, Typed(text, work[..m], path), Saved(text, work[..m], path));
    }
  }

  lemma RunNothing(le: Collation, s: Ledger)
    ensures Run(le, s, []) == s
  {
  }

  lemma WorkStep(le: Collation, s: Ledger, e: Event, path: string, content: string, saved: string)
    requires Settled(path) && Holding(s, path, content, saved) && (Works(e, path) || WorksElsewhere(e, path))
    ensures var t := Step(le, s, e);
            if !Works(e, path) then Holding(t, path, content, saved)
            else if e.Edit? then Holding(t, path, e.content, saved)
            else Holding(t, path, content, content)
  {
    if !Works(e, path) {
      ElsewhereLeaves(le, s, e, path);
      SameHolding(s, Step(le, s, e), path, content, saved);
      hide Step, Holding;
    } else if e.Edit? {
      EditReports(le, s, e.path, path, e.content);
      hide Step, Reports, Normalize;
    } else {
      SaveReports(le, s, e.path);
      hide Step, Normalize;
    }
  }

  /**
   From opening to closing. A tab that is opened, edited and saved any number of times, with
   work on other tabs in between, and then closed leaves the session speaking of exactly the
   text last saved, or of the text it was opened with if none was; what was typed after
   that is gone.
   */
  lemma CloseSpeaksOfSaved(le: Collation, s: Ledger, text: string, work: seq<Event>, path: string)
    requires Settled(path) && path !in s.tabs
    requires Reports(Step(le, s, Open(path, text)), path, Version(true, text))
    requires forall e :: e in work ==> Works(e, path) || WorksElsewhere(e, path)
    ensures var t := Run(le, s, [Open(path, text)] + work + [CloseTab(path)]);
            path !in t.tabs && Reports(t, path, Version(true, Saved(text, work, path)))
  {
    var begun := Step(le, s, Open(path, text));
    OpenReports(le, s, path, text);
    assert Holding(begun, path, text, text);
    hide Reports, Step, Run, Normalize, WorksElsewhere;
    WorkHolds(le, begun, text, work, path, |work|);
    assert work[..|work|] == work;
    var now := Run(le, begun, work);
    CloseReports(le, now, path, path);
    RunOne(le, s, Open(path, text));
    RunOne(le, now, CloseTab(path));
    RunConcat(le, s, [Open(path, text)], work);
    RunConcat(le, s, [Open(path, text)] + work, [CloseTab(path)]);
    var t := Step(le, now, CloseTab(path));
    if !now.tabs[path].dirty {
      SameReports(now, t, path, Version(true, Saved(text, work, path)));
    }
  }

  lemma SameReports(s: Ledger, t: Ledger, path: string, version: Version)
    requires t.changes == s.changes && t.baseline == s.baseline && Reports(s, path, version)
    ensures Reports(t, path, version)
  {
  }

  lemma RunOne(le: Collation, s: Ledger, e: Event)
    ensures Run(le, s, [e]) == Step(le, s, e)
  {
    hide Step;
    assert [e][1..] == [];
  }

  /** A sound ledger that speaks of one version of a path on one baseline has one story of it. */
  lemma OneStory(le: Collation, s: Ledger, t: Ledger, path: string, version: Version)
    requires Inv(le, s) && Inv(le, t) && Reports(s, path, version) && Reports(t, path, version)
    requires path in s.baseline && path in t.baseline && s.baseline[path] == t.baseline[path]
    ensures SameStory(s, t, path)
  {
    hide Sorted;
    forall c: Change | c.path == path ensures c in s.changes <==> c in t.changes {
      StoryOf(le, s, path, version, c);
      StoryOf(le, t, path, version, c);
    }
  }

  lemma StoryOf(le: Collation, s: Ledger, path: string, version: Version, c: Change)
    requires Inv(le, s) && Reports(s, path, version) && c.path == path && path in s.baseline
    ensures c in s.changes <==> c == Change(path, s.baseline[path], version) && version != s.baseline[path]
  {
    hide Sorted;
    if d :| d in s.changes && d.path == path && d.after == version {
      assert Honest(s.baseline, d) && d == Change(path, s.baseline[path], version);
      if c in s.changes {
        var i :| 0 <= i < |s.changes| && s.changes[i] == c;
        var j :| 0 <= j < |s.changes| && s.changes[j] == d;
        assert i == j;
      }
    }
  }

  /**
   Discarding changes leaves no trace: opening a file, typing any number of times without
   saving and closing it again leaves every entry and every baseline of a sound ledger as
   opening the file alone would.
   */
  lemma DiscardLeavesNoTrace(le: Collation, s: Ledger, text: string, work: seq<Event>, path: string)
    requires Total(le) && Inv(le, s) && Settled(path) && path !in s.tabs
    requires Reports(Step(le, s, Open(path, text)), path, Version(true, text))
    requires forall e :: e in work ==> e.Edit? && Normalize(e.path) == path
    ensures var begun := Step(le, s, Open(path, text));
            var t := Run(le, s, [Open(path, text)] + work + [CloseTab(path)]);
            && t.baseline == begun.baseline && t.tabs == s.tabs && (forall c :: c in t.changes <==> c in s.changes)
  {
    var begun := Step(le, s, Open(path, text));
    var t := Run(le, s, [Open(path, text)] + work + [CloseTab(path)]);
    OpenReports(le, s, path, text);
    NeverSaved(text, work, path);
    CloseSpeaksOfSaved(le, s, text, work, path);
    EditsElsewhereSame(le, s, text, work, path);
    SoundToTheEnd(le, s, text, work, path);
    hide Run, Step, Reports, Inv, Normalize, Total, Saved, SameStory;
    OneStory(le, begun, t, path, Version(true, text));
    SameChanges(begun, t, path);
    SameTabs(s, begun, t, path, text);
  }

  lemma SameChanges(s: Ledger, t: Ledger, path: string)
    requires SameStory(s, t, path) && forall q :: q != path ==> SameAt(s, t, q)
    ensures forall c :: c in t.changes <==> c in s.changes
  {
    forall c ensures c in t.changes <==> c in s.changes {
      assert c.path != path ==> SameAt(s, t, c.path);
    }
  }

  lemma SameTabs(s: Ledger, begun: Ledger, t: Ledger, path: string, text: string)
    requires path !in s.tabs && path !in t.tabs && begun.tabs == s.tabs[path := Tab(text, text, false)]
    requires forall q :: q != path ==> SameAt(begun, t, q)
    ensures t.tabs == s.tabs
  {
    hide SameStory;
    forall q ensures SameTab(t.tabs, s.tabs, q) {
      assert q != path ==> SameAt(begun, t, q);
    }
    assert forall q :: q in t.tabs ==> SameTab(t.tabs, s.tabs, q);
    assert forall q :: q in s.tabs ==> SameTab(t.tabs, s.tabs, q);
  }

  lemma SoundToTheEnd(le: Collation, s: Ledger, text: string, work: seq<Event>, path: string)
    requires Total(le) && Inv(le, s) && forall e :: e in work ==> e.Edit?
    ensures Inv(le, Step(le, s, Open(path, text)))
    ensures Inv(le, Run(le, s, [Open(path, text)] + work + [CloseTab(path)]))
  {
    var all := [Open(path, text)] + work + [CloseTab(path)];
    StepKeepsIff(le, s, Open(path, text));
    hide Inv, Step, Run, Total, Normalize;
    assert forall k :: 0 <= k < |work| ==> work[k] in work;
    assert forall k :: 0 <= k < |all| ==> !Replaces(all[k]);
    PrefixKeeps(le, s, all, |all|);
    assert all[..|all|] == all;
  }

  lemma {:induction false} NeverSaved(text: string, work: seq<Event>, path: string)
    requires forall e :: e in work ==> e.Edit?
    ensures Saved(text, work, path) == text
  {
    hide Normalize, Typed;
    if work != [] {
      assert work[|work| - 1] in work;
      NeverSaved(text, work[..|work| - 1], path);
    }
  }

  /** Edits of one path, with its opening and closing, leave the baseline there and everything elsewhere. */
  lemma EditsElsewhereSame(le: Collation, s: Ledger, text: string, work: seq<Event>, path: string)
    requires Settled(path) && path !in s.tabs && forall e :: e in work ==> e.Edit? && Normalize(e.path) == path
    ensures var begun := Step(le, s, Open(path, text));
            var t := Run(le, s, [Open(path, text)] + work + [CloseTab(path)]);
            && t.baseline == begun.baseline && forall q :: q != path ==> SameAt(begun, t, q)
  {
    var begun := Step(le, s, Open(path, text));
    OpenReports(le, s, path, text);
    hide Run, Step, Normalize, SameAt;
    EditsLeaveElsewhere(le, begun, work, path, |work|);
    assert work[..|work|] == work;
    var now := Run(le, begun, work);
    CloseReports(le, now, path, path);
    RunOne(le, s, Open(path, text));
    RunOne(le, now, CloseTab(path));
    RunConcat(le, s, [Open(path, text)], work);
    RunConcat(le, s, [Open(path, text)] + work, [CloseTab(path)]);
    forall q | q != path ensures SameAt(begun, Step(le, now, CloseTab(path)), q) {
      SameTransitive(begun, now, Step(le, now, CloseTab(path)), q);
    }
  }

  lemma SameTransitive(a: Ledger, b: Ledger, c: Ledger, path: string)
    requires SameAt(a, b, path) && SameAt(b, c, path)
    ensures SameAt(a, c, path)
  {
  }

  lemma {:induction false} EditsLeaveElsewhere(le: Collation, s: Ledger, work: seq<Event>, path: string, n: nat)
    requires Settled(path) && path in s.baseline && n <= |work| && forall e :: e in work ==> e.Edit? && Normalize(e.path) == path
    ensures var t := Run(le, s, work[..n]); t.baseline == s.baseline && forall q :: q != path ==> SameAt(s, t, q)
    decreases n
  {
    hide Run, Step, Normalize, SameAt;
    if n == 0 {
      RunNothing(le, s);
      assert work[..0] == [];
      forall q ensures SameAt(s, s, q) {
        SameItself(s, q);
      }
    } else {
      var m := n - 1;
      EditsLeaveElsewhere(le, s, work, path, m);
      RunLast(le, s, work, m);
      var now, e := Run(le, s, work[..m]), work[m];
      assert e in work;
      EditReports(le, now, e.path, path, e.content);
      assert e == Edit(e.path, e.content);
      forall q | q != path ensures SameAt(s, Step(le, now, e), q) {
        SameTransitive(s, now, Step(le, now, e), q);
      }
    }
  }

  lemma SameItself(s: Ledger, path: string)
    ensures SameAt(s, s, path)
  {
  }

  // ---------------------------------------------------------- the session as it runs

  ghost function Seen(snapshot: map<string, Tab>, left: set<string>): map<string, Tab> {
    map p | p in snapshot && p !in left :: snapshot[p]
  }

  lemma NoneRebuilt(snapshot: map<string, Tab>, read: map<string, string>, gone: set<string>)
    ensures Rebuilt(Seen(snapshot, snapshot.Keys), read, gone) == map[]
  {
  }

  lemma RebuiltMore(snapshot: map<string, Tab>, left: set<string>, path: string, read: map<string, string>, gone: set<string>)
    requires path in left && path in snapshot
    ensures var rebuilt := Rebuilt(Seen(snapshot, left), read, gone);
            Rebuilt(Seen(snapshot, left - {path}), read, gone)
            == if path in gone && !snapshot[path].dirty then rebuilt
               else rebuilt[path := if path in read && !snapshot[path].dirty then Tab(read[path], read[path], false) else snapshot[path]]
  {
  }

  class Session {
    var baseline: map<string, Version>
    var sessionChanges: seq<Change>
    var tabs: map<string, Tab>

    ghost function View(): Ledger
      reads this
    {
      Ledger(baseline, sessionChanges, tabs)
    }

    constructor ()
      ensures View() == FRESH
    {
      baseline, sessionChanges, tabs := map[], [], map[];
    }

    /** The entries at other paths, in order. */
    method Remaining(path: string) returns (remaining: seq<Change>)
      ensures remaining == Without(sessionChanges, path)
    {
      remaining := [];
      for i := 0 to |sessionChanges|
        invariant remaining == Without(sessionChanges[..i], path)
      {
        assert sessionChanges[..i + 1][..i] == sessionChanges[..i];
        if sessionChanges[i].path != path {
          remaining := remaining + [sessionChanges[i]];
        }
      }
      assert sessionChanges[..|sessionChanges|] == sessionChanges;
    }

    method TrackChange(le: Collation, path: string, before: Version, after: Version)
      modifies `baseline, `sessionChanges
      ensures View() == Track(le, old(View()), path, before, after)
    {
      hide Normalize, Insert, Without;
      var normalized := Normalize(path);
      if normalized == "" {
        return;
      }
      if normalized !in baseline {
        baseline := baseline[normalized := before];
      }
      var remaining := Remaining(normalized);
      if baseline[normalized] != after {
        sessionChanges := Insert(le, remaining, Change(normalized, baseline[normalized], after));
      } else {
        sessionChanges := remaining;
      }
    }

    method UpdateContent(le: Collation, path: string, content: string)
      modifies this
      ensures View() == Step(le, old(View()), Edit(path, content))
    {
      hide Normalize, TrackAt;
      var normalized := Normalize(path);
      ghost var start := View();
      var known := if normalized in baseline then baseline[normalized]
                   else Version(true, if normalized in tabs then tabs[normalized].saved else "");
      if normalized !in baseline {
        baseline := baseline[normalized := known];
      }
      assert baseline == start.baseline[normalized := known];
      if normalized in tabs {
        tabs := tabs[normalized := Tab(content, tabs[normalized].saved, content != tabs[normalized].saved)];
      }
      TrackChange(le, normalized, known, Version(true, content));
    }

    method CloseTab(le: Collation, path: string)
      modifies this
      ensures View() == Step(le, old(View()), Event.CloseTab(path))
    {
      hide Normalize, TrackAt;
      var normalized := Normalize(path);
      if normalized in tabs && tabs[normalized].dirty {
        var saved := tabs[normalized].saved;
        var known := if normalized in baseline then baseline[normalized] else Version(true, saved);
        TrackChange(le, normalized, known, Version(true, saved));
      }
      tabs := tabs - {normalized};
    }

    /** A refresh has read one more tab of those it began with. */
    method ReadTab(le: Collation, path: string, content: string)
      modifies `baseline
      ensures View() == Step(le, old(View()), TabRead(path, content))
    {
      var live := exists change | change in sessionChanges :: change.path == path;
      if !live {
        baseline := baseline[path := Version(true, content)];
      }
    }

    /** The end of a refresh: the tabs it rebuilt replace whatever is open by then. */
    method ReplaceTabs(le: Collation, snapshot: map<string, Tab>, read: map<string, string>, gone: set<string>)
      modifies `tabs
      ensures View() == Step(le, old(View()), TabsReplaced(Rebuilt(snapshot, read, gone)))
    {
      hide Rebuilt;
      var rebuilt: map<string, Tab> := map[];
      NoneRebuilt(snapshot, read, gone);
      var left := snapshot.Keys;
      while left != {}
        invariant left <= snapshot.Keys
        invariant rebuilt == Rebuilt(Seen(snapshot, left), read, gone)
        decreases left
      {
        var path :| path in left;
        RebuiltMore(snapshot, left, path, read, gone);
        left := left - {path};
        var tab := snapshot[path];
        if path in gone && !tab.dirty {
          continue;
        }
        rebuilt := rebuilt[path := if path in read && !tab.dirty then Tab(read[path], read[path], false) else tab];
      }
      assert Seen(snapshot, left) == snapshot;
      tabs := rebuilt;
    }

    method OpenFile(le: Collation, path: string, content: string)
      modifies `baseline, `tabs
      ensures View() == Step(le, old(View()), Open(path, content))
    {
      if path in tabs {
        return;
      }
      if path !in baseline {
        baseline := baseline[path := Version(true, content)];
      }
      tabs := tabs[path := Tab(content, content, false)];
    }

    /** The part of a creation that touches the session; `written` says whether the write went through. */
    method CreateFile(le: Collation, path: string, written: bool)
      modifies this
      ensures View() == Step(le, old(View()), if written then Create(path) else CreateFails(path))
    {
      hide Normalize, TrackAt;
      baseline := baseline[path := Version(false, "")];
      if !written {
        return;
      }
      TrackChange(le, path, Version(false, ""), Version(true, ""));
    }
  }
}
