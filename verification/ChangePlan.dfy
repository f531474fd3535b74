/**
 Applying an agent's change plan to a workspace: preflight, writes and deletes that may
 fail half-way, and the rollback in reverse order. The promotion of a browser workspace to
 a physical folder runs the same steps with a different rollback.
 */
module ChangePlan {
  import opened Text
  import opened FilePaths

  type Bytes = seq<nat>

  type Hash = string

  type Disk = map<string, Bytes>

  /** `File.text`, its inverse as writes encode it, the editor's binary and size limits, SHA-256, and the walk to a file. */
  datatype Io = Io(decode: Bytes -> string, encode: string -> Bytes, readable: (string, Bytes) -> bool, hash: string -> Hash,
                   walk: FileSystem)

  datatype Action = Put(text: string) | Remove | Unsupported

  /** `expectedExists` may be left out; so may the hash of the content the agent saw. */
  datatype Operation = Operation(path: string, action: Action, expectedExists: Option<bool>, baseHash: Option<Hash>)

  datatype EditorTab = EditorTab(content: string, dirty: bool)

  /** The open editors by path. */
  type Tabs = map<string, EditorTab>

  datatype Conflict = Unverified | Stale | Unsaved | Missing | AlreadyExists

  /** One step on the file its path reaches, with what the preflight read there. */
  datatype Item = Item(path: string, action: Action, before: Option<string>)

  /** `step` fails if it is reached, and leaves `left` at its path. */
  datatype Fault = Fault(step: nat, left: Option<Bytes>)

  // ---------------------------------------------------------- preflight

  /** The file an operation on `value` reaches; reading, writing and removing reach the same one. */
  function FileOf(io: Io, value: string): Option<string> {
    match SafePath(value)
    case None => None
    case Some(path) => ReadFile(io.walk, path)
  }

  /** What the file holds, as the editor reads it; a file beyond its limits makes the read throw. */
  datatype Reading = Absent | Content(text: string) | Unreadable

  function Read(io: Io, disk: Disk, path: string): Reading {
    if path !in disk then Absent
    else if !io.readable(path, disk[path]) then Unreadable
    else Content(io.decode(disk[path]))
  }

  function ConflictsOf(io: Io, op: Operation, current: Option<string>, tab: Option<EditorTab>): seq<Conflict> {
    (if op.expectedExists == Some(true) && op.baseHash.None? then [Unverified] else [])
    + (if op.baseHash.Some? && (current.None? || io.hash(current.value) != op.baseHash.value) then [Stale] else [])
    + (if tab.Some? && tab.value.dirty && (op.baseHash.None? || io.hash(tab.value.content) != op.baseHash.value) then [Unsaved] else [])
    + (if op.expectedExists == Some(true) && current.None? then [Missing] else [])
    + (if op.expectedExists == Some(false) && current.Some? && op.baseHash.None? then [AlreadyExists] else [])
  }

  datatype Preflight = Ready(items: seq<Item>) | Conflicted(conflicts: seq<Conflict>) | Rejected

  /** The preflight from `i` on, with what it has gathered so far. */
  function Check(io: Io, disk: Disk, tabs: Tabs, ops: seq<Operation>, i: nat, items: seq<Item>,
                 conflicts: seq<Conflict>): Preflight
    requires i <= |ops|
    decreases |ops| - i
  {
    if i == |ops| then if conflicts != [] then Conflicted(conflicts) else Ready(items)
    else
      var file := FileOf(io, ops[i].path);
      if file.None? then Rejected
      else
        match Read(io, disk, file.value)
        case Unreadable => Rejected
        case Absent => Check(io, disk, tabs, ops, i + 1, items + [Item(file.value, ops[i].action, None)],
                             conflicts + ConflictsOf(io, ops[i], None, TabOf(tabs, ops[i].path)))
        case Content(text) => Check(io, disk, tabs, ops, i + 1, items + [Item(file.value, ops[i].action, Some(text))],
                                    conflicts + ConflictsOf(io, ops[i], Some(text), TabOf(tabs, ops[i].path)))
  }

  /** The open tab at a path, looked up as it is spelled once normalised. */
  function TabOf(tabs: Tabs, value: string): Option<EditorTab> {
    match SafePath(value)
    case None => None
    case Some(path) => if path in tabs then Some(tabs[path]) else None
  }

  // ---------------------------------------------------------- applying

  /** The step calls into the file system. */
  predicate Touches(item: Item) {
    item.action.Put? || (item.action.Remove? && item.before.Some?)
  }

  /** The step throws on its own: an unknown action, or a removal of a file that is gone. */
  predicate Throws(disk: Disk, item: Item) {
    item.action.Unsupported? || (item.action.Remove? && item.before.Some? && item.path !in disk)
  }

  function Done(io: Io, disk: Disk, item: Item): Disk {
    match item.action
    case Put(text) => disk[item.path := io.encode(text)]
    case Remove => if item.before.Some? then disk - {item.path} else disk
    case Unsupported => disk
  }

  function Leave(disk: Disk, path: string, left: Option<Bytes>): Disk {
    match left
    case None => disk - {path}
    case Some(bytes) => disk[path := bytes]
  }

  datatype Progress = Completed(disk: Disk) | Failed(disk: Disk, step: nat)

  /** The steps from `i` on. */
  function Forward(io: Io, disk: Disk, items: seq<Item>, i: nat, fault: Option<Fault>): (r: Progress)
    requires i <= |items|
    ensures r.Failed? ==> i <= r.step < |items|
    decreases |items| - i
  {
    if i == |items| then Completed(disk)
    else if Throws(disk, items[i]) then Failed(disk, i)
    else if fault.Some? && fault.value.step == i && Touches(items[i])
    then Failed(Leave(disk, items[i].path, fault.value.left), i)
    else Forward(io, Done(io, disk, items[i]), items, i + 1, fault)
  }

  /** One step of the rollback; a new file the editor cannot read makes it throw, and that is swallowed. */
  function Undo(io: Io, disk: Disk, item: Item): Disk {
    if item.before.Some? then disk[item.path := io.encode(item.before.value)]
    else if item.path in disk && io.readable(item.path, disk[item.path]) then disk - {item.path}
    else disk
  }

  /** Undo the items, last first. */
  function Rollback(io: Io, disk: Disk, items: seq<Item>): Disk
    decreases |items|
  {
    if items == [] then disk
    else Rollback(io, Undo(io, disk, items[|items| - 1]), items[..|items| - 1])
  }

  datatype Outcome = Applied | RolledBack | InConflict | Refused

  function ApplyPlan(io: Io, disk: Disk, tabs: Tabs, ops: seq<Operation>, fault: Option<Fault>): (Outcome, Disk) {
    if ops == [] then (Refused, disk)
    else
      match Check(io, disk, tabs, ops, 0, [], [])
      case Rejected => (Refused, disk)
      case Conflicted(_) => (InConflict, disk)
      case Ready(items) =>
        match Forward(io, disk, items, 0, fault)
        case Completed(after) => (Applied, after)
        case Failed(after, k) => (RolledBack, Rollback(io, after, items[..k + 1]))
  }

  // ---------------------------------------------------------- what the items say about the disk

  function BeforeOf(io: Io, disk: Disk, path: string): Option<string> {
    if path in disk then Some(io.decode(disk[path])) else None
  }

  /** Every item carries the text its path had before the plan. */
  ghost predicate Snapshot(io: Io, disk: Disk, items: seq<Item>) {
    forall j :: 0 <= j < |items| ==> items[j].before == BeforeOf(io, disk, items[j].path)
  }

  /** The item an operation becomes. */
  ghost predicate Matches(io: Io, disk: Disk, op: Operation, item: Item) {
    FileOf(io, op.path) == Some(item.path) && item.action == op.action && item.before == BeforeOf(io, disk, item.path)
  }

  ghost predicate Clean(io: Io, disk: Disk, tabs: Tabs, op: Operation, item: Item) {
    Matches(io, disk, op, item) && ConflictsOf(io, op, item.before, TabOf(tabs, op.path)) == []
  }

  /** One item per operation so far, in order, and no conflict at any of them. */
  ghost predicate CleanSoFar(io: Io, disk: Disk, tabs: Tabs, ops: seq<Operation>, items: seq<Item>) {
    |items| <= |ops| && forall j :: 0 <= j < |items| ==> Clean(io, disk, tabs, ops[j], items[j])
  }

  lemma CleanMore(io: Io, disk: Disk, tabs: Tabs, ops: seq<Operation>, items: seq<Item>, item: Item)
    requires |items| < |ops| && CleanSoFar(io, disk, tabs, ops, items) && Clean(io, disk, tabs, ops[|items|], item)
    ensures CleanSoFar(io, disk, tabs, ops, items + [item])
  {
    hide Clean;
  }

  lemma CheckStep(io: Io, disk: Disk, tabs: Tabs, ops: seq<Operation>, i: nat, items: seq<Item>,
                  conflicts: seq<Conflict>) returns (item: Item, more: seq<Conflict>)
    requires i < |ops| && Check(io, disk, tabs, ops, i, items, conflicts).Ready?
    ensures Check(io, disk, tabs, ops, i, items, conflicts)
            == Check(io, disk, tabs, ops, i + 1, items + [item], conflicts + more)
    ensures Matches(io, disk, ops[i], item) && more == ConflictsOf(io, ops[i], item.before, TabOf(tabs, ops[i].path))
  {
    hide ConflictsOf, FileOf, TabOf;
    var file := FileOf(io, ops[i].path).value;
    item := Item(file, ops[i].action, BeforeOf(io, disk, file));
    more := ConflictsOf(io, ops[i], item.before, TabOf(tabs, ops[i].path));
  }

  lemma CheckEnds(io: Io, disk: Disk, tabs: Tabs, ops: seq<Operation>, items: seq<Item>, conflicts: seq<Conflict>)
    ensures Check(io, disk, tabs, ops, |ops|, items, conflicts) == if conflicts != [] then Conflicted(conflicts) else Ready(items)
  {
  }

  /** Conflicts are only ever added. */
  lemma {:induction false} NoneDropped(io: Io, disk: Disk, tabs: Tabs, ops: seq<Operation>, i: nat, items: seq<Item>,
                                       conflicts: seq<Conflict>)
    requires i <= |ops| && Check(io, disk, tabs, ops, i, items, conflicts).Ready?
    ensures conflicts == []
    decreases |ops| - i
  {
    hide Check, Matches, ConflictsOf, FileOf, TabOf;
    if i == |ops| {
      CheckEnds(io, disk, tabs, ops, items, conflicts);
    } else {
      var item, more := CheckStep(io, disk, tabs, ops, i, items, conflicts);
      NoneDropped(io, disk, tabs, ops, i + 1, items + [item], conflicts + more);
    }
  }

  lemma {:induction false} ReadyFrom(io: Io, disk: Disk, tabs: Tabs, ops: seq<Operation>, i: nat, items: seq<Item>,
                                     conflicts: seq<Conflict>)
    requires i == |items| <= |ops| && CleanSoFar(io, disk, tabs, ops, items)
    requires Check(io, disk, tabs, ops, i, items, conflicts).Ready?
    ensures var all := Check(io, disk, tabs, ops, i, items, conflicts).items;
            |all| == |ops| && CleanSoFar(io, disk, tabs, ops, all)
    decreases |ops| - i
  {
    hide Check, Matches, ConflictsOf, FileOf, TabOf;
    if i == |ops| {
      CheckEnds(io, disk, tabs, ops, items, conflicts);
    } else {
      var item, more := CheckStep(io, disk, tabs, ops, i, items, conflicts);
      NoneDropped(io, disk, tabs, ops, i + 1, items + [item], conflicts + more);
      assert more == [];
      assert Clean(io, disk, tabs, ops[i], item);
      CleanMore(io, disk, tabs, ops, items, item);
      hide Clean, CleanSoFar;
      ReadyFrom(io, disk, tabs, ops, i + 1, items + [item], conflicts + more);
    }
  }

  /** An accepted plan has one item per operation, in order, and no conflict at any of them. */
  lemma ReadyMeans(io: Io, disk: Disk, tabs: Tabs, ops: seq<Operation>)
    requires Check(io, disk, tabs, ops, 0, [], []).Ready?
    ensures var items := Check(io, disk, tabs, ops, 0, [], []).items;
            |items| == |ops| && CleanSoFar(io, disk, tabs, ops, items) && Snapshot(io, disk, items)
  {
    hide Check;
    ReadyFrom(io, disk, tabs, ops, 0, [], []);
  }

  // ---------------------------------------------------------- one path at a time

  /** Some item among `items` is at `path`. */
  ghost predicate Hits(items: seq<Item>, path: string) {
    exists j :: 0 <= j < |items| && items[j].path == path
  }

  predicate SameAt(a: Disk, b: Disk, path: string) {
    (path in a <==> path in b) && (path in a ==> a[path] == b[path])
  }

  lemma SameEverywhere(a: Disk, b: Disk)
    ensures a == b <==> forall p :: SameAt(a, b, p)
  {
    if forall p :: SameAt(a, b, p) {
      forall p ensures p in a <==> p in b {
        assert SameAt(a, b, p);
      }
      forall p | p in a ensures a[p] == b[p] {
        assert SameAt(a, b, p);
      }
    }
  }

  /** The steps leave every path they do not name alone. */
  lemma {:induction false} ForwardElsewhere(io: Io, disk: Disk, items: seq<Item>, i: nat, fault: Option<Fault>, path: string)
    requires i <= |items|
    requires var r := Forward(io, disk, items, i, fault);
             forall j :: i <= j < |items| && (r.Completed? || j <= r.step) ==> items[j].path != path
    ensures SameAt(disk, Forward(io, disk, items, i, fault).disk, path)
    decreases |items| - i
  {
    if i < |items| && !Throws(disk, items[i]) && !(fault.Some? && fault.value.step == i && Touches(items[i])) {
      ForwardElsewhere(io, Done(io, disk, items[i]), items, i + 1, fault, path);
    }
  }

  /** What the rollback leaves at one path. */
  function UndoneAt(io: Io, disk: Disk, path: string, before: Option<string>): Option<Bytes> {
    if before.Some? then Some(io.encode(before.value))
    else if path !in disk || io.readable(path, disk[path]) then None
    else Some(disk[path])
  }

  predicate Holds(disk: Disk, path: string, content: Option<Bytes>) {
    match content
    case None => path !in disk
    case Some(bytes) => path in disk && disk[path] == bytes
  }

  lemma {:induction false} RollbackAt(io: Io, disk: Disk, items: seq<Item>, path: string, before: Option<string>)
    requires forall j :: 0 <= j < |items| && items[j].path == path ==> items[j].before == before
    ensures !Hits(items, path) ==> SameAt(disk, Rollback(io, disk, items), path)
    ensures Hits(items, path) ==> Holds(Rollback(io, disk, items), path, UndoneAt(io, disk, path, before))
    decreases |items|
  {
    if items != [] {
      var n := |items| - 1;
      var last, init := items[n], items[..n];
      var undone := Undo(io, disk, last);
      RollbackAt(io, undone, init, path, before);
      assert Hits(init, path) ==> Hits(items, path) by {
        if Hits(init, path) {
          var j :| 0 <= j < |init| && init[j].path == path;
          assert items[j].path == path;
        }
      }
      if Hits(items, path) && last.path != path {
        var j :| 0 <= j < |items| && items[j].path == path;
        assert init[j].path == path;
      }
      if last.path == path {
        assert Holds(undone, path, UndoneAt(io, disk, path, before));
        assert UndoneAt(io, undone, path, before) == UndoneAt(io, disk, path, before);
      }
    }
  }

  // ---------------------------------------------------------- the rollback restores the disk, exactly when

  /** What the rollback needs to bring `path` back from `failed` to `disk`. */
  ghost predicate Restorable(io: Io, disk: Disk, failed: Disk, path: string) {
    if path in disk then io.encode(io.decode(disk[path])) == disk[path]
    else path in failed ==> io.readable(path, failed[path])
  }

  /**
   After a failed step and the rollback the disk is the one before the plan exactly when
   every old file it touched survives decoding and encoding, and every new file it touched
   is gone or readable by then. The failing step may have left anything at its path, and
   several items may name one path.
   */
  lemma RestoredIff(io: Io, disk: Disk, items: seq<Item>, fault: Option<Fault>)
    requires Snapshot(io, disk, items) && Forward(io, disk, items, 0, fault).Failed?
    ensures var r := Forward(io, disk, items, 0, fault);
            Rollback(io, r.disk, items[..r.step + 1]) == disk
            <==> forall j :: 0 <= j <= r.step ==> Restorable(io, disk, r.disk, items[j].path)
  {
    var r := Forward(io, disk, items, 0, fault);
    var tried := items[..r.step + 1];
    var end := Rollback(io, r.disk, tried);
    hide Rollback, Forward;
    forall p ensures SameAt(end, disk, p) <==> !Hits(tried, p) || Restorable(io, disk, r.disk, p) {
      RollbackAt(io, r.disk, tried, p, BeforeOf(io, disk, p));
      if !Hits(tried, p) {
        forall j | 0 <= j <= r.step ensures items[j].path != p {
          assert tried[j] == items[j];
        }
        ForwardElsewhere(io, disk, items, 0, fault, p);
      }
    }
    SameEverywhere(end, disk);
    assert forall j :: 0 <= j <= r.step ==> tried[j] == items[j];
    assert forall j :: 0 <= j <= r.step ==> Hits(tried, items[j].path);
  }

  /** Whatever the failing step leaves at a new path is gone or readable, and so is every new text. */
  ghost predicate Gentle(io: Io, disk: Disk, items: seq<Item>, fault: Option<Fault>) {
    && (forall p :: p in disk ==> io.encode(io.decode(disk[p])) == disk[p])
    && (forall j :: 0 <= j < |items| && items[j].path !in disk && items[j].action.Put?
          ==> io.readable(items[j].path, io.encode(items[j].action.text)))
    && (fault.Some? && fault.value.left.Some? ==> forall p: string :: io.readable(p, fault.value.left.value))
  }

  lemma {:induction false} NewStayReadable(io: Io, before: Disk, disk: Disk, items: seq<Item>, i: nat, fault: Option<Fault>, path: string)
    requires i <= |items| && Gentle(io, before, items, fault) && path !in before
    requires path in disk ==> io.readable(path, disk[path])
    ensures var end := Forward(io, disk, items, i, fault).disk;
            path in end ==> io.readable(path, end[path])
    decreases |items| - i
  {
    if i < |items| && !Throws(disk, items[i]) && !(fault.Some? && fault.value.step == i && Touches(items[i])) {
      NewStayReadable(io, before, Done(io, disk, items[i]), items, i + 1, fault, path);
    }
  }

  /** Atomicity as a caller can check it beforehand: nothing a failed plan did remains. */
  lemma AtomicWhenGentle(io: Io, disk: Disk, items: seq<Item>, fault: Option<Fault>)
    requires Snapshot(io, disk, items) && Gentle(io, disk, items, fault)
    requires Forward(io, disk, items, 0, fault).Failed?
    ensures var r := Forward(io, disk, items, 0, fault);
            Rollback(io, r.disk, items[..r.step + 1]) == disk
  {
    var r := Forward(io, disk, items, 0, fault);
    RestoredIff(io, disk, items, fault);
    hide Rollback, Forward;
    forall j | 0 <= j <= r.step ensures Restorable(io, disk, r.disk, items[j].path) {
      if items[j].path !in disk {
        NewStayReadable(io, disk, disk, items, 0, fault, items[j].path);
      }
    }
  }

  /** A new file too large or binary for the editor survives the rollback of a plan that failed after writing it. */
  lemma UnreadableNewFileStays(io: Io, text: string)
    requires !io.readable("a", io.encode(text))
    ensures var items := [Item("a", Put(text), None), Item("b", Unsupported, None)];
            var r := Forward(io, map[], items, 0, None);
            r.Failed? && r.step == 1 && "a" in Rollback(io, r.disk, items)
  {
    var items := [Item("a", Put(text), None), Item("b", Unsupported, None)];
    var written := map["a" := io.encode(text)];
    assert Done(io, map[], items[0]) == written;
    assert Forward(io, written, items, 1, None) == Failed(written, 1);
    assert items[..1] == [items[0]] && items[..1][..0] == [];
    assert Undo(io, written, items[1]) == written && Undo(io, written, items[0]) == written;
    assert Rollback(io, written, items[..1]) == written;
  }

  // ---------------------------------------------------------- success is the operations in order, exactly when

  /** What the operations say, taken one after the other. */
  function Folded(io: Io, disk: Disk, items: seq<Item>): Disk
    decreases |items|
  {
    if items == [] then disk
    else
      var rest := Folded(io, disk, items[..|items| - 1]);
      var last := items[|items| - 1];
      match last.action
      case Put(text) => rest[last.path := io.encode(text)]
      case Remove => rest - {last.path}
      case Unsupported => rest
  }

  /** The steps that succeed so far, taken from the end. */
  function Executed(io: Io, disk: Disk, items: seq<Item>): Disk
    decreases |items|
  {
    if items == [] then disk else Done(io, Executed(io, disk, items[..|items| - 1]), items[|items| - 1])
  }

  lemma {:induction false} ExecutedTail(io: Io, disk: Disk, first: Item, rest: seq<Item>)
    ensures Executed(io, disk, [first] + rest) == Executed(io, Done(io, disk, first), rest)
    decreases |rest|
  {
    var all := [first] + rest;
    if rest == [] {
      assert all == [first] && all[..0] == [];
    } else {
      var init := rest[..|rest| - 1];
      ExecutedTail(io, disk, first, init);
      assert all[..|all| - 1] == [first] + init && all[|all| - 1] == rest[|rest| - 1];
    }
  }

  lemma {:induction false} CompletedIsExecuted(io: Io, disk: Disk, items: seq<Item>, i: nat, fault: Option<Fault>)
    requires i <= |items| && Forward(io, disk, items, i, fault).Completed?
    ensures Forward(io, disk, items, i, fault).disk == Executed(io, disk, items[i..])
    ensures forall j :: i <= j < |items| ==> !items[j].action.Unsupported?
    decreases |items| - i
  {
    if i < |items| {
      CompletedIsExecuted(io, Done(io, disk, items[i]), items, i + 1, fault);
      assert items[i..] == [items[i]] + items[i + 1..];
      ExecutedTail(io, disk, items[i], items[i + 1..]);
    }
  }

  /** The last action at a path. */
  function LastAt(items: seq<Item>, path: string): Option<Action>
    decreases |items|
  {
    if items == [] then None
    else if items[|items| - 1].path == path then Some(items[|items| - 1].action)
    else LastAt(items[..|items| - 1], path)
  }

  predicate WritesAt(items: seq<Item>, path: string)
    decreases |items|
  {
    items != [] && ((items[|items| - 1].path == path && items[|items| - 1].action.Put?) || WritesAt(items[..|items| - 1], path))
  }

  /** The plan creates a new file and means to delete it again. */
  predicate CreatesThenDeletes(disk: Disk, items: seq<Item>, path: string) {
    path !in disk && WritesAt(items, path) && LastAt(items, path) == Some(Remove)
  }

  lemma {:induction false} AtOnePath(io: Io, disk: Disk, items: seq<Item>, path: string)
    requires Snapshot(io, disk, items) && forall j :: 0 <= j < |items| ==> !items[j].action.Unsupported?
    ensures path in disk ==> SameAt(Executed(io, disk, items), Folded(io, disk, items), path)
    ensures path !in disk ==> (path in Executed(io, disk, items) <==> WritesAt(items, path))
    ensures path !in disk && LastAt(items, path) == Some(Remove) ==> path !in Folded(io, disk, items)
    ensures path !in disk && LastAt(items, path) != Some(Remove) ==> SameAt(Executed(io, disk, items), Folded(io, disk, items), path)
    decreases |items|
  {
    if items != [] {
      var n := |items| - 1;
      assert Snapshot(io, disk, items[..n]);
      AtOnePath(io, disk, items[..n], path);
      assert items[n].before == BeforeOf(io, disk, items[n].path);
      if items[n].path != path {
        assert SameAt(Executed(io, disk, items), Executed(io, disk, items[..n]), path);
        assert SameAt(Folded(io, disk, items), Folded(io, disk, items[..n]), path);
      }
    }
  }

  /**
   A plan that succeeds leaves the disk its operations describe, in order, exactly when it
   does not create a file and delete it again: such a deletion is skipped, because the
   preflight saw no file there.
   */
  lemma AppliedIff(io: Io, disk: Disk, items: seq<Item>, fault: Option<Fault>)
    requires Snapshot(io, disk, items) && Forward(io, disk, items, 0, fault).Completed?
    ensures Forward(io, disk, items, 0, fault).disk == Folded(io, disk, items)
            <==> forall p :: !CreatesThenDeletes(disk, items, p)
  {
    CompletedIsExecuted(io, disk, items, 0, fault);
    assert items[0..] == items;
    var done, folded := Executed(io, disk, items), Folded(io, disk, items);
    hide Executed, Folded, Forward, LastAt, WritesAt;
    forall p ensures SameAt(done, folded, p) <==> !CreatesThenDeletes(disk, items, p) {
      AtOnePath(io, disk, items, p);
    }
    SameEverywhere(done, folded);
  }

  /** A file the plan creates and then deletes is still there after the plan succeeded. */
  lemma CreatedThenDeletedStays(io: Io, text: string)
    ensures var items := [Item("a", Put(text), None), Item("a", Remove, None)];
            Forward(io, map[], items, 0, None) == Completed(map["a" := io.encode(text)])
  {
    var items := [Item("a", Put(text), None), Item("a", Remove, None)];
    var written := map["a" := io.encode(text)];
    assert Done(io, map[], items[0]) == written && Done(io, written, items[1]) == written;
    assert Forward(io, written, items, 1, None) == Forward(io, written, items, 2, None);
  }

  /**
   The whole call: a refused or conflicting plan writes nothing, a failed one leaves
   nothing exactly if every file it touched can be restored, which a caller can know
   beforehand of a gentle plan, and a successful one does what its operations say exactly
   unless it creates a file and deletes it again.
   */
  lemma Atomicity(io: Io, disk: Disk, tabs: Tabs, ops: seq<Operation>, fault: Option<Fault>)
    ensures var (outcome, after) := ApplyPlan(io, disk, tabs, ops, fault);
            var items := if outcome in {RolledBack, Applied} then Check(io, disk, tabs, ops, 0, [], []).items else [];
            && (outcome == Refused || outcome == InConflict ==> after == disk)
            && (outcome == RolledBack ==>
                  var r := Forward(io, disk, items, 0, fault);
                  && r.Failed? && r.step < |items| == |ops|
                  && (after == disk <==> forall j :: 0 <= j <= r.step ==> Restorable(io, disk, r.disk, items[j].path))
                  && (Gentle(io, disk, items, fault) ==> after == disk))
            && (outcome == Applied ==>
                  |items| == |ops| && (after == Folded(io, disk, items) <==> forall p :: !CreatesThenDeletes(disk, items, p)))
  {
    hide Check, Forward, Rollback, Gentle, Folded, CreatesThenDeletes, Restorable, CleanSoFar, Snapshot;
    if ops != [] && Check(io, disk, tabs, ops, 0, [], []).Ready? {
      var items := Check(io, disk, tabs, ops, 0, [], []).items;
      ReadyMeans(io, disk, tabs, ops);
      if Forward(io, disk, items, 0, fault).Completed? {
        AppliedIff(io, disk, items, fault);
      } else {
        RestoredIff(io, disk, items, fault);
        if Gentle(io, disk, items, fault) {
          AtomicWhenGentle(io, disk, items, fault);
        }
      }
    }
  }

  // ---------------------------------------------------------- no lost update

  ghost predicate Injective(io: Io) {
    forall a, b :: io.hash(a) == io.hash(b) ==> a == b
  }

  /**
   An accepted operation that declares what it expects replaces or deletes only the text
   the agent was shown, or meets no file at all; an unsaved editor buffer under its path
   equals that text, and so does the one of its file if the path spells the file.
   */
  lemma NoLostUpdate(io: Io, disk: Disk, tabs: Tabs, ops: seq<Operation>, i: nat, shown: string)
    requires Injective(io) && Check(io, disk, tabs, ops, 0, [], []).Ready? && i < |ops|
    requires ops[i].baseHash.Some? ==> ops[i].baseHash.value == io.hash(shown)
    ensures SafePath(ops[i].path).Some? && FileOf(io, ops[i].path).Some?
    ensures var path, file := SafePath(ops[i].path).value, FileOf(io, ops[i].path).value;
            && (ops[i].baseHash.Some? ==> file in disk && io.decode(disk[file]) == shown)
            && (ops[i].expectedExists.Some? && ops[i].baseHash.None? ==> ops[i].expectedExists.value == false && file !in disk)
            && (path in tabs && tabs[path].dirty ==> ops[i].baseHash.Some? && tabs[path].content == shown)
            && (path == file && file in tabs && tabs[file].dirty ==> ops[i].baseHash.Some? && tabs[file].content == shown)
  {
    hide Check, SafePath, ReadFile;
    ReadyMeans(io, disk, tabs, ops);
    var item := Check(io, disk, tabs, ops, 0, [], []).items[i];
    assert Clean(io, disk, tabs, ops[i], item);
  }

  /** A plan of one write that declares the text it was shown. */
  function Rewrite(io: Io, value: string, shown: string, text: string): seq<Operation> {
    [Operation(value, Put(text), Some(true), Some(io.hash(shown)))]
  }

  /** That plan succeeds although an open tab holds unsaved changes to the same file. */
  ghost predicate LosesUpdate(io: Io, value: string, disk: Disk, tabs: Tabs, shown: string, text: string) {
    && FileOf(io, value).Some?
    && var file := FileOf(io, value).value;
    && file in tabs && tabs[file].dirty && tabs[file].content != shown
    && ApplyPlan(io, disk, tabs, Rewrite(io, value, shown, text), None) == (Applied, disk[file := io.encode(text)])
  }

  /** Without a tab under its spelling a declared write passes over any readable file. */
  lemma RewritePasses(io: Io, value: string, file: string, bytes: Bytes, tabs: Tabs, text: string)
    requires FileOf(io, value) == Some(file) && io.readable(file, bytes) && TabOf(tabs, value).None?
    ensures var disk := map[file := bytes];
            ApplyPlan(io, disk, tabs, Rewrite(io, value, io.decode(bytes), text), None) == (Applied, disk[file := io.encode(text)])
  {
    hide FileOf, TabOf;
    var disk := map[file := bytes];
    var ops := Rewrite(io, value, io.decode(bytes), text);
    var item := Item(file, Put(text), Some(io.decode(bytes)));
    assert Read(io, disk, file) == Content(io.decode(bytes));
    assert ConflictsOf(io, ops[0], Some(io.decode(bytes)), None) == [];
    assert Check(io, disk, tabs, ops, 1, [item], []) == Ready([item]);
    assert Check(io, disk, tabs, ops, 0, [], []) == Ready([item]);
    assert Forward(io, Done(io, disk, item), [item], 1, None) == Completed(disk[file := io.encode(text)]);
  }

  /**
   Exactly when unsaved changes can be lost to a plan that declares everything: when its
   path, normalised once, does not spell the file it reaches.
   */
  lemma LostUpdateIff(io: Io, value: string, bytes: Bytes)
    requires Injective(io) && FileOf(io, value).Some? && io.readable(FileOf(io, value).value, bytes)
    ensures (exists disk, tabs, shown, text :: LosesUpdate(io, value, disk, tabs, shown, text))
            <==> SafePath(value) != FileOf(io, value)
  {
    if SafePath(value) != FileOf(io, value) {
      LostUnderOtherName(io, value, bytes);
    } else {
      forall disk, tabs, shown, text ensures !LosesUpdate(io, value, disk, tabs, shown, text) {
        KeptUnderOwnName(io, value, disk, tabs, shown, text);
      }
    }
  }

  lemma LostUnderOtherName(io: Io, value: string, bytes: Bytes)
    requires FileOf(io, value).Some? && io.readable(FileOf(io, value).value, bytes) && SafePath(value) != FileOf(io, value)
    ensures exists disk, tabs, shown, text :: LosesUpdate(io, value, disk, tabs, shown, text)
  {
    hide FileOf, SafePath, ApplyPlan, TabOf;
    var file := FileOf(io, value).value;
    var shown := io.decode(bytes);
    var tabs: Tabs := map[file := EditorTab(shown + "!", true)];
    NoTabUnder(tabs, value);
    RewritePasses(io, value, file, bytes, tabs, "");
    assert LosesUpdate(io, value, map[file := bytes], tabs, shown, "");
  }

  lemma NoTabUnder(tabs: Tabs, value: string)
    requires SafePath(value).Some? ==> SafePath(value).value !in tabs
    ensures TabOf(tabs, value).None?
  {
    hide SafePath;
  }

  lemma KeptUnderOwnName(io: Io, value: string, disk: Disk, tabs: Tabs, shown: string, text: string)
    requires Injective(io) && FileOf(io, value).Some? && SafePath(value) == FileOf(io, value)
    ensures !LosesUpdate(io, value, disk, tabs, shown, text)
  {
    var ops := Rewrite(io, value, shown, text);
    hide FileOf, SafePath, Forward, Rollback, Injective, Check;
    if Check(io, disk, tabs, ops, 0, [], []).Ready? {
      NoLostUpdate(io, disk, tabs, ops, 0, shown);
    }
  }

  /** So changes are lost under every accepted path that is still "./" something, and under no path without dot segments. */
  lemma LostUpdateByPath(io: Io, value: string, bytes: Bytes)
    requires Injective(io) && Lawful(io.walk)
    requires FileOf(io, value).Some? && io.readable(FileOf(io, value).value, bytes)
    ensures var path := SafePath(value).value;
            && ("./" <= path ==> exists disk, tabs, shown, text :: LosesUpdate(io, value, disk, tabs, shown, text))
            && (Dotless(path) ==> forall disk, tabs, shown, text :: !LosesUpdate(io, value, disk, tabs, shown, text))
  {
    var path := SafePath(value).value;
    LostUpdateIff(io, value, bytes);
    hide LosesUpdate;
    if "./" <= path {
      OtherFile(io.walk, path);
    }
    if Dotless(path) {
      ReadIsSafe(io.walk, path);
      OwnFile(io.walk, path);
    }
  }

  lemma ReadIsSafe(walk: FileSystem, path: string)
    requires ReadFile(walk, path).Some?
    ensures SafePath(path).Some?
  {
  }

  lemma DottedPlan(io: Io, tabs: Tabs)
    requires Lawful(io.walk)
    ensures FileOf(io, "././a") == Some("a") && FileOf(io, "a") == Some("a")
    ensures "./a" !in tabs ==> TabOf(tabs, "././a").None?
  {
    hide SafePath, ReadFile, Lawful;
    DottedFile(io.walk);
  }

  /** Writing "././a" over the text it was shown drops the unsaved changes in the tab "a". */
  lemma LostUnderDots(io: Io, bytes: Bytes, typed: string, text: string)
    requires Lawful(io.walk) && io.readable("a", bytes) && typed != io.decode(bytes)
    ensures LosesUpdate(io, "././a", map["a" := bytes], map["a" := EditorTab(typed, true)], io.decode(bytes), text)
  {
    hide SafePath, ReadFile, FileOf, ApplyPlan, TabOf, Lawful;
    DottedPlan(io, map["a" := EditorTab(typed, true)]);
    RewritePasses(io, "././a", "a", bytes, map["a" := EditorTab(typed, true)], text);
  }

  /** A plan that writes "././a" and then deletes "a", both new, succeeds and leaves the file. */
  lemma TwoSpellings(io: Io, text: string)
    requires Lawful(io.walk)
    ensures var ops := [Operation("././a", Put(text), Some(false), None), Operation("a", Remove, Some(false), None)];
            ApplyPlan(io, map[], map[], ops, None) == (Applied, map["a" := io.encode(text)])
  {
    hide SafePath, ReadFile, FileOf, TabOf, Forward, ConflictsOf, Lawful;
    DottedPlan(io, map[]);
    var first, second := Operation("././a", Put(text), Some(false), None), Operation("a", Remove, Some(false), None);
    var ops := [first, second];
    var items := [Item("a", Put(text), None), Item("a", Remove, None)];
    NoConflict(io, first);
    NoConflict(io, second);
    assert items[..1] + [items[1]] == items && [] + [items[0]] == items[..1];
    assert Check(io, map[], map[], ops, 2, items, []) == Ready(items);
    assert Check(io, map[], map[], ops, 1, items[..1], []) == Ready(items);
    assert Check(io, map[], map[], ops, 0, [], []) == Ready(items);
    CreatedThenDeletedStays(io, text);
  }

  lemma NoConflict(io: Io, op: Operation)
    requires op.expectedExists == Some(false) && op.baseHash.None?
    ensures ConflictsOf(io, op, None, TabOf(map[], op.path)) == []
  {
    hide SafePath;
  }

  /** An operation that declares nothing is accepted over any readable text: the last clause needs what it asks for. */
  lemma UndeclaredOverwrites(io: Io, path: string, text: string)
    requires io.readable(path, io.encode(text)) && FileOf(io, path) == Some(path)
    ensures var op := Operation(path, Put(""), None, None);
            Check(io, map[path := io.encode(text)], map[], [op], 0, [], []).Ready?
  {
    hide FileOf, SafePath;
    var disk := map[path := io.encode(text)];
    var ops := [Operation(path, Put(""), None, None)];
    var seen := io.decode(disk[path]);
    assert Read(io, disk, path) == Content(seen);
    assert ConflictsOf(io, ops[0], Some(seen), TabOf(map[], path)) == [];
    assert Check(io, disk, map[], ops, 1, [Item(path, Put(""), Some(seen))], []).Ready?;
  }

  // ---------------------------------------------------------- promotion to a physical folder

  /**
   The promotion notes a change as applied only once it has succeeded, so its rollback
   leaves out the step that failed: the folder is restored exactly when that step left its
   own file as it was, or an applied change is at the same file, and the applied ones can
   be undone.
   */
  lemma PromotionRestoredIff(io: Io, disk: Disk, items: seq<Item>, fault: Option<Fault>)
    requires Snapshot(io, disk, items) && Forward(io, disk, items, 0, fault).Failed?
    ensures var r := Forward(io, disk, items, 0, fault);
            Rollback(io, r.disk, items[..r.step]) == disk
            <==> (SameAt(r.disk, disk, items[r.step].path) || Hits(items[..r.step], items[r.step].path))
                 && forall j :: 0 <= j < r.step ==> Restorable(io, disk, r.disk, items[j].path)
  {
    var r := Forward(io, disk, items, 0, fault);
    var undone := items[..r.step];
    var end := Rollback(io, r.disk, undone);
    hide Rollback, Forward;
    assert forall j :: 0 <= j < r.step ==> undone[j] == items[j];
    forall p ensures SameAt(end, disk, p) <==>
                     if Hits(undone, p) then Restorable(io, disk, r.disk, p) else SameAt(r.disk, disk, p)
    {
      RollbackAt(io, r.disk, undone, p, BeforeOf(io, disk, p));
    }
    forall p | !Hits(undone, p) && p != items[r.step].path ensures SameAt(r.disk, disk, p) {
      forall j | 0 <= j <= r.step ensures items[j].path != p {
        assert j < r.step ==> undone[j] == items[j];
      }
      ForwardElsewhere(io, disk, items, 0, fault, p);
    }
    SameEverywhere(end, disk);
    assert forall j :: 0 <= j < r.step ==> Hits(undone, items[j].path);
  }

  /** A step that fails half-way leaves what it wrote. */
  lemma FailedStepStays(io: Io, text: string, left: Bytes)
    ensures var items := [Item("a", Put(text), None)];
            var r := Forward(io, map[], items, 0, Some(Fault(0, Some(left))));
            r == Failed(map["a" := left], 0) && Rollback(io, r.disk, items[..0]) == r.disk
  {
  }

  // ---------------------------------------------------------- the workspace as it runs

  /** A tracked change of the session, as the promotion applies it. */
  datatype Change = Change(path: string, before: Option<string>, after: Option<string>)

  function ActionOf(change: Change): Action {
    if change.after.Some? then Put(change.after.value) else Remove
  }

  /** What reading every changed file of the physical folder gives: its steps, or a throw, or a conflict. */
  function CheckChanges(io: Io, disk: Disk, changes: seq<Change>, i: nat, items: seq<Item>, diverged: bool): Preflight
    requires i <= |changes|
    decreases |changes| - i
  {
    if i == |changes| then if diverged then Conflicted([Stale]) else Ready(items)
    else
      var change := changes[i];
      var file := PromotedFile(io.walk, change.path);
      if file.None? then Rejected
      else
        match Read(io, disk, file.value)
        case Unreadable => Rejected
        case Absent => CheckChanges(io, disk, changes, i + 1, items + [Item(file.value, ActionOf(change), None)],
                                    diverged || change.before.Some?)
        case Content(text) => CheckChanges(io, disk, changes, i + 1, items + [Item(file.value, ActionOf(change), Some(text))],
                                           diverged || change.before != Some(text))
  }

  function Promote(io: Io, disk: Disk, changes: seq<Change>, fault: Option<Fault>): (Outcome, Disk) {
    match CheckChanges(io, disk, changes, 0, [], false)
    case Rejected => (Refused, disk)
    case Conflicted(_) => (InConflict, disk)
    case Ready(items) =>
      match Forward(io, disk, items, 0, fault)
      case Completed(after) => (Applied, after)
      case Failed(after, k) => (RolledBack, Rollback(io, after, items[..k]))
  }

  class Workspace {
    var disk: Disk

    constructor (files: Disk)
      ensures disk == files
    {
      disk := files;
    }

    /** Compare every operation with the disk and the open editors before anything is written. */
    method Inspect(io: Io, tabs: Tabs, ops: seq<Operation>) returns (r: Preflight)
      ensures r == Check(io, disk, tabs, ops, 0, [], [])
    {
      hide ConflictsOf, FileOf, TabOf;
      var preflight: seq<Item> := [];
      var conflicts: seq<Conflict> := [];
      for i := 0 to |ops|
        invariant Check(io, disk, tabs, ops, i, preflight, conflicts) == Check(io, disk, tabs, ops, 0, [], [])
      {
        var file := FileOf(io, ops[i].path);
        if file.None? {
          return Rejected;
        }
        var current := Read(io, disk, file.value);
        if current.Unreadable? {
          return Rejected;
        }
        var before := if current.Content? then Some(current.text) else None;
        conflicts := conflicts + ConflictsOf(io, ops[i], before, TabOf(tabs, ops[i].path));
        preflight := preflight + [Item(file.value, ops[i].action, before)];
      }
      return if conflicts != [] then Conflicted(conflicts) else Ready(preflight);
    }

    /** Take the steps in order; the number of the one that failed, if one did. */
    method TakeSteps(io: Io, items: seq<Item>, fault: Option<Fault>) returns (failed: Option<nat>)
      modifies this
      ensures var r := Forward(io, old(disk), items, 0, fault);
              disk == r.disk && failed == if r.Failed? then Some(r.step) else None
    {
      hide Done, Leave;
      for i := 0 to |items|
        invariant Forward(io, disk, items, i, fault) == Forward(io, old(disk), items, 0, fault)
      {
        var item := items[i];
        if Throws(disk, item) {
          return Some(i);
        }
        if fault.Some? && fault.value.step == i && Touches(item) {
          disk := Leave(disk, item.path, fault.value.left);
          return Some(i);
        }
        disk := Done(io, disk, item);
      }
      return None;
    }

    method RollBack(io: Io, attempted: seq<Item>)
      modifies this
      ensures disk == Rollback(io, old(disk), attempted)
    {
      hide Undo;
      var i := |attempted|;
      assert attempted[..i] == attempted;
      while i > 0
        invariant 0 <= i <= |attempted|
        invariant Rollback(io, disk, attempted[..i]) == Rollback(io, old(disk), attempted)
      {
        assert attempted[..i][..i - 1] == attempted[..i - 1];
        disk := Undo(io, disk, attempted[i - 1]);
        i := i - 1;
      }
    }

    method ApplyChangePlan(io: Io, tabs: Tabs, ops: seq<Operation>, fault: Option<Fault>) returns (outcome: Outcome)
      modifies this
      ensures (outcome, disk) == ApplyPlan(io, old(disk), tabs, ops, fault)
    {
      hide Check, Forward, Rollback;
      if ops == [] {
        return Refused;
      }
      var preflight := Inspect(io, tabs, ops);
      match preflight {
        case Rejected => return Refused;
        case Conflicted(_) => return InConflict;
        case Ready(items) =>
          var failed := TakeSteps(io, items, fault);
          if failed.None? {
            return Applied;
          }
          RollBack(io, items[..failed.value + 1]);
          return RolledBack;
      }
    }

    /** Bring the session's changes to the physical folder behind `disk`. */
    method PromoteChanges(io: Io, changes: seq<Change>, fault: Option<Fault>) returns (outcome: Outcome)
      modifies this
      ensures (outcome, disk) == Promote(io, old(disk), changes, fault)
    {
      hide Forward, Rollback, PromotedFile;
      var items: seq<Item> := [];
      var diverged := false;
      for i := 0 to |changes|
        invariant disk == old(disk)
        invariant CheckChanges(io, disk, changes, i, items, diverged) == CheckChanges(io, disk, changes, 0, [], false)
      {
        var file := PromotedFile(io.walk, changes[i].path);
        if file.None? {
          return Refused;
        }
        var current := Read(io, disk, file.value);
        if current.Unreadable? {
          return Refused;
        }
        var before := if current.Content? then Some(current.text) else None;
        diverged := diverged || changes[i].before != before;
        items := items + [Item(file.value, ActionOf(changes[i]), before)];
      }
      if diverged {
        return InConflict;
      }
      var failed := TakeSteps(io, items, fault);
      if failed.None? {
        return Applied;
      }
      RollBack(io, items[..failed.value]);
      return RolledBack;
    }
  }

  // ---------------------------------------------------------- promotion, the whole call

  lemma {:induction false} ChangesBecomeItems(io: Io, disk: Disk, changes: seq<Change>, i: nat, items: seq<Item>, diverged: bool)
    requires i == |items| <= |changes| && Snapshot(io, disk, items)
    requires forall j :: 0 <= j < i ==> PromotedFile(io.walk, changes[j].path) == Some(items[j].path)
    requires CheckChanges(io, disk, changes, i, items, diverged).Ready?
    ensures var all := CheckChanges(io, disk, changes, i, items, diverged).items;
            && |all| == |changes| && Snapshot(io, disk, all)
            && forall j :: 0 <= j < |changes| ==> PromotedFile(io.walk, changes[j].path) == Some(all[j].path)
    decreases |changes| - i
  {
    hide PromotedFile;
    if i < |changes| {
      var change := changes[i];
      var file := PromotedFile(io.walk, change.path).value;
      var before := BeforeOf(io, disk, file);
      ChangesBecomeItems(io, disk, changes, i + 1, items + [Item(file, ActionOf(change), before)],
                         diverged || change.before != before);
    }
  }

  /**
   A promotion that fails brings the folder back exactly when the step that failed left its
   file alone, or an earlier change is at that file, and the earlier ones can be undone.
   */
  lemma PromotionAtomicity(io: Io, disk: Disk, changes: seq<Change>, fault: Option<Fault>)
    ensures var (outcome, after) := Promote(io, disk, changes, fault);
            && (outcome == Refused || outcome == InConflict ==> after == disk)
            && (outcome == RolledBack ==>
                  var items := CheckChanges(io, disk, changes, 0, [], false).items;
                  var r := Forward(io, disk, items, 0, fault);
                  && r.Failed? && r.step < |items| == |changes|
                  && (forall j :: 0 <= j < |changes| ==> PromotedFile(io.walk, changes[j].path) == Some(items[j].path))
                  && (after == disk <==> (SameAt(r.disk, disk, items[r.step].path) || Hits(items[..r.step], items[r.step].path))
                                         && forall j :: 0 <= j < r.step ==> Restorable(io, disk, r.disk, items[j].path)))
  {
    if CheckChanges(io, disk, changes, 0, [], false).Ready? {
      ChangesBecomeItems(io, disk, changes, 0, [], false);
      var items := CheckChanges(io, disk, changes, 0, [], false).items;
      hide CheckChanges, Forward, Rollback, Restorable, PromotedFile, Hits;
      if Forward(io, disk, items, 0, fault).Failed? {
        PromotionRestoredIff(io, disk, items, fault);
      }
    }
  }

  // ---------------------------------------------------------- the answer of a plan and of a promotion

  /** The path reaches a file that the editor can read, or that is not there. */
  predicate Accessible(io: Io, disk: Disk, file: Option<string>) {
    file.Some? && (file.value in disk ==> io.readable(file.value, disk[file.value]))
  }

  /** The folder holds at the change's file what the change was made from: that text, or nothing. */
  predicate StillThere(io: Io, disk: Disk, change: Change) {
    match PromotedFile(io.walk, change.path)
    case None => false
    case Some(file) => if file in disk then change.before == Some(io.decode(disk[file])) else change.before == None
  }

  /**
   The operation may not be taken: it expects a file and names no text or finds none, finds
   another text than it names, finds a file it expects not to, or an open tab under its path
   holds unsaved changes other than that text.
   */
  predicate Clashes(io: Io, disk: Disk, tabs: Tabs, op: Operation) {
    match FileOf(io, op.path)
    case None => false
    case Some(file) =>
      var path := SafePath(op.path).value;
      || (op.expectedExists == Some(true) && (op.baseHash == None || file !in disk))
      || (op.baseHash.Some? && (file !in disk || io.hash(io.decode(disk[file])) != op.baseHash.value))
      || (op.expectedExists == Some(false) && op.baseHash == None && file in disk)
      || (path in tabs && tabs[path].dirty && op.baseHash != Some(io.hash(tabs[path].content)))
  }

  lemma ClashesMeans(io: Io, disk: Disk, tabs: Tabs, op: Operation)
    requires FileOf(io, op.path).Some?
    ensures ConflictsOf(io, op, BeforeOf(io, disk, FileOf(io, op.path).value), TabOf(tabs, op.path)) != [] <==> Clashes(io, disk, tabs, op)
  {
    hide SafePath, ReadFile;
  }

  lemma {:induction false} CheckAnswer(io: Io, disk: Disk, tabs: Tabs, ops: seq<Operation>, i: nat, items: seq<Item>, conflicts: seq<Conflict>)
    requires i <= |ops|
    ensures var r := Check(io, disk, tabs, ops, i, items, conflicts);
            && (r.Rejected? <==> exists j :: i <= j < |ops| && !Accessible(io, disk, FileOf(io, ops[j].path)))
            && (r.Conflicted? ==> conflicts != [] || exists j :: i <= j < |ops| && Clashes(io, disk, tabs, ops[j]))
            && (r.Ready? ==> conflicts == [] && forall j :: i <= j < |ops| ==> !Clashes(io, disk, tabs, ops[j]))
    decreases |ops| - i
  {
    hide ConflictsOf, FileOf, TabOf, Clashes;
    if i < |ops| && Accessible(io, disk, FileOf(io, ops[i].path)) {
      var file := FileOf(io, ops[i].path).value;
      var before := BeforeOf(io, disk, file);
      ClashesMeans(io, disk, tabs, ops[i]);
      CheckAnswer(io, disk, tabs, ops, i + 1, items + [Item(file, ops[i].action, before)],
                  conflicts + ConflictsOf(io, ops[i], before, TabOf(tabs, ops[i].path)));
    }
  }

  lemma {:induction false} CheckChangesAnswer(io: Io, disk: Disk, changes: seq<Change>, i: nat, items: seq<Item>, diverged: bool)
    requires i == |items| <= |changes|
    ensures var r := CheckChanges(io, disk, changes, i, items, diverged);
            && (r.Rejected? <==> exists j :: i <= j < |changes| && !Accessible(io, disk, PromotedFile(io.walk, changes[j].path)))
            && (r.Conflicted? ==> diverged || exists j :: i <= j < |changes| && !StillThere(io, disk, changes[j]))
            && (r.Ready? ==> !diverged && forall j :: i <= j < |changes| ==> StillThere(io, disk, changes[j]))
            && (r.Ready? ==> |r.items| == |changes| && r.items[..i] == items
                             && forall j :: i <= j < |changes| ==> r.items[j].action == ActionOf(changes[j]))
    decreases |changes| - i
  {
    hide PromotedFile, ActionOf;
    if i < |changes| && Accessible(io, disk, PromotedFile(io.walk, changes[i].path)) {
      var change := changes[i];
      var file := PromotedFile(io.walk, change.path).value;
      var item := Item(file, ActionOf(change), BeforeOf(io, disk, file));
      CheckChangesAnswer(io, disk, changes, i + 1, items + [item], diverged || change.before != item.before);
      var r := CheckChanges(io, disk, changes, i + 1, items + [item], diverged || change.before != item.before);
      assert CheckChanges(io, disk, changes, i, items, diverged) == r;
      if r.Ready? {
        assert r.items[..i + 1][..i] == r.items[..i] && r.items[i] == r.items[..i + 1][i] == item;
        assert StillThere(io, disk, change);
      }
    }
  }

  ghost predicate DistinctFiles(items: seq<Item>) {
    forall i, j :: 0 <= i < j < |items| ==> items[i].path != items[j].path
  }

  /** The step reached its aim: the file holds the text written, or is gone. */
  ghost predicate Reached(io: Io, disk: Disk, item: Item) {
    Holds(disk, item.path, if item.action.Put? then Some(io.encode(item.action.text)) else None)
  }

  lemma HitsPrefix(items: seq<Item>, m: nat)
    requires m < |items|
    ensures forall p :: Hits(items[..m + 1], p) <==> Hits(items[..m], p) || items[m].path == p
    ensures DistinctFiles(items) ==> !Hits(items[..m], items[m].path)
  {
    var longer, shorter := items[..m + 1], items[..m];
    assert forall j :: 0 <= j < m ==> longer[j] == shorter[j] == items[j];
    forall p | Hits(longer, p) ensures Hits(shorter, p) || items[m].path == p {
      var j :| 0 <= j < |longer| && longer[j].path == p;
      assert j < m ==> shorter[j].path == p;
    }
    forall p | Hits(shorter, p) || items[m].path == p ensures Hits(longer, p) {
      if items[m].path == p {
        assert longer[m].path == p;
      } else {
        var j :| 0 <= j < |shorter| && shorter[j].path == p;
        assert longer[j].path == p;
      }
    }
  }

  lemma {:induction false} EachDone(io: Io, disk: Disk, items: seq<Item>, n: nat)
    requires Snapshot(io, disk, items) && DistinctFiles(items) && n <= |items|
    requires forall j :: 0 <= j < n ==> !items[j].action.Unsupported?
    ensures var done := Executed(io, disk, items[..n]);
            && (forall j :: 0 <= j < n ==> Reached(io, done, items[j]))
            && (forall p :: Hits(items[..n], p) || SameAt(done, disk, p))
    decreases n
  {
    if n > 0 {
      var m := n - 1;
      EachDone(io, disk, items, m);
      assert items[..n][..m] == items[..m] && items[..n][m] == items[m];
      var done, more := Executed(io, disk, items[..m]), Executed(io, disk, items[..n]);
      assert more == Done(io, done, items[m]);
      HitsPrefix(items, m);
      assert items[..m + 1] == items[..n];
      assert !Hits(items[..m], items[m].path);
      assert SameAt(done, disk, items[m].path);
      assert items[m].before == BeforeOf(io, disk, items[m].path);
      forall p ensures Hits(items[..n], p) || SameAt(more, disk, p) {
        assert p != items[m].path ==> SameAt(more, done, p);
        assert p == items[m].path ==> Hits(items[..m + 1], p);
        assert Hits(items[..m], p) ==> Hits(items[..m + 1], p);
      }
    }
  }

  /** Steps on distinct files that the preflight read, none of them unknown, all succeed where nothing fails. */
  lemma {:induction false} NothingThrows(io: Io, disk: Disk, now: Disk, items: seq<Item>, i: nat)
    requires i <= |items| && Snapshot(io, disk, items) && DistinctFiles(items)
    requires forall j :: 0 <= j < |items| ==> !items[j].action.Unsupported?
    requires forall j :: i <= j < |items| ==> SameAt(now, disk, items[j].path)
    ensures Forward(io, now, items, i, None).Completed?
    decreases |items| - i
  {
    if i < |items| {
      assert items[i].before == BeforeOf(io, disk, items[i].path);
      NothingThrows(io, disk, Done(io, now, items[i]), items, i + 1);
    }
  }

  /** What a successful run over distinct files leaves, file by file. */
  lemma CompletedEach(io: Io, disk: Disk, items: seq<Item>, fault: Option<Fault>)
    requires Snapshot(io, disk, items) && DistinctFiles(items) && Forward(io, disk, items, 0, fault).Completed?
    ensures var after := Forward(io, disk, items, 0, fault).disk;
            && (forall j :: 0 <= j < |items| ==> Reached(io, after, items[j]))
            && (forall p :: Hits(items, p) || SameAt(after, disk, p))
            && (forall j :: 0 <= j < |items| ==> !items[j].action.Unsupported?)
  {
    CompletedIsExecuted(io, disk, items, 0, fault);
    EachDone(io, disk, items, |items|);
    assert items[0..] == items && items[..|items|] == items;
  }

  /**
   The answer of a promotion, told by the changes alone. It is refused exactly if a path is
   refused or its file unreadable; else in conflict exactly if some file is no longer what
   its change was made from, in existence or in text; else it is tried.
   */
  lemma PromotionAnswer(io: Io, disk: Disk, changes: seq<Change>, fault: Option<Fault>)
    ensures var outcome := Promote(io, disk, changes, fault).0;
            var refused := exists j :: 0 <= j < |changes| && !Accessible(io, disk, PromotedFile(io.walk, changes[j].path));
            var agreed := forall j :: 0 <= j < |changes| ==> StillThere(io, disk, changes[j]);
            && (outcome == Refused <==> refused)
            && (outcome == InConflict <==> !refused && !agreed)
            && (outcome == Applied || outcome == RolledBack <==> !refused && agreed)
  {
    CheckChangesAnswer(io, disk, changes, 0, [], false);
    hide PromotedFile, CheckChanges, Forward, Rollback, StillThere;
  }

  /**
   A promotion of changes to distinct files that is tried goes through unless a step fails,
   and then has set every file to its new text or removed it, and nothing else.
   */
  lemma PromotionEffect(io: Io, disk: Disk, changes: seq<Change>, fault: Option<Fault>)
    requires DistinctTargets(io, changes)
    ensures var (outcome, after) := Promote(io, disk, changes, fault);
            && (outcome == RolledBack ==> fault.Some?)
            && (outcome == Applied ==>
                  && (forall j :: 0 <= j < |changes| ==> HoldsAt(after, PromotedFile(io.walk, changes[j].path), EncodedAfter(io, changes[j])))
                  && (forall p :: Targeted(io, changes, p) || SameAt(after, disk, p)))
  {
    CheckChangesAnswer(io, disk, changes, 0, [], false);
    var r := CheckChanges(io, disk, changes, 0, [], false);
    hide PromotedFile, CheckChanges, Forward, Rollback, StillThere, Executed, SameAt, Hits;
    if r.Ready? {
      ChangesBecomeItems(io, disk, changes, 0, [], false);
      hide Snapshot, Accessible;
      DistinctItems(io, changes, r.items);
      if fault.None? {
        NothingThrows(io, disk, disk, r.items, 0);
      }
      if Forward(io, disk, r.items, 0, fault).Completed? {
        CompletedEach(io, disk, r.items, fault);
        PromotionSeen(io, changes, r.items, disk, Forward(io, disk, r.items, 0, fault).disk);
      }
    }
  }

  lemma DistinctItems(io: Io, changes: seq<Change>, items: seq<Item>)
    requires |items| == |changes| && DistinctTargets(io, changes)
    requires forall j :: 0 <= j < |changes| ==> PromotedFile(io.walk, changes[j].path) == Some(items[j].path)
    ensures DistinctFiles(items)
  {
    hide PromotedFile;
  }

  lemma PromotionSeen(io: Io, changes: seq<Change>, items: seq<Item>, disk: Disk, after: Disk)
    requires |items| == |changes|
    requires forall j :: 0 <= j < |changes| ==> PromotedFile(io.walk, changes[j].path) == Some(items[j].path)
    requires forall j :: 0 <= j < |changes| ==> items[j].action == ActionOf(changes[j]) && Reached(io, after, items[j])
    requires forall p :: Hits(items, p) || SameAt(after, disk, p)
    ensures forall j :: 0 <= j < |changes| ==> HoldsAt(after, PromotedFile(io.walk, changes[j].path), EncodedAfter(io, changes[j]))
    ensures forall p :: Targeted(io, changes, p) || SameAt(after, disk, p)
  {
    hide PromotedFile, SameAt;
    forall p | Hits(items, p) ensures Targeted(io, changes, p) {
      var j :| 0 <= j < |items| && items[j].path == p;
      assert PromotedFile(io.walk, changes[j].path) == Some(p);
    }
  }

  predicate HoldsAt(disk: Disk, file: Option<string>, content: Option<Bytes>) {
    file.Some? && if content == None then file.value !in disk else file.value in disk && disk[file.value] == content.value
  }

  ghost predicate Targeted(io: Io, changes: seq<Change>, file: string) {
    exists j :: 0 <= j < |changes| && PromotedFile(io.walk, changes[j].path) == Some(file)
  }

  /** The changes reach files of their own. */
  ghost predicate DistinctTargets(io: Io, changes: seq<Change>) {
    forall i, j :: 0 <= i < j < |changes| ==> PromotedFile(io.walk, changes[i].path) != PromotedFile(io.walk, changes[j].path)
  }

  function EncodedAfter(io: Io, change: Change): Option<Bytes> {
    if change.after == None then None else Some(io.encode(change.after.value))
  }

  /**
   The answer of a change plan, told by the operations alone: refused exactly if it is empty
   or a path is refused or its file unreadable; else in conflict exactly if some operation
   clashes; else it is tried.
   */
  lemma PlanAnswer(io: Io, disk: Disk, tabs: Tabs, ops: seq<Operation>, fault: Option<Fault>)
    ensures var outcome := ApplyPlan(io, disk, tabs, ops, fault).0;
            var refused := ops == [] || exists j :: 0 <= j < |ops| && !Accessible(io, disk, FileOf(io, ops[j].path));
            var clash := exists j :: 0 <= j < |ops| && Clashes(io, disk, tabs, ops[j]);
            && (outcome == Refused <==> refused)
            && (outcome == InConflict <==> !refused && clash)
            && (outcome == Applied || outcome == RolledBack <==> !refused && !clash)
  {
    CheckAnswer(io, disk, tabs, ops, 0, [], []);
    NoLostConflict(io, disk, tabs, ops);
    hide FileOf, Check, Forward, Rollback, Clashes, ConflictsOf;
  }

  /** Conflicts are answered only if there is one. */
  lemma NoLostConflict(io: Io, disk: Disk, tabs: Tabs, ops: seq<Operation>)
    ensures var r := Check(io, disk, tabs, ops, 0, [], []);
            r.Conflicted? ==> exists j :: 0 <= j < |ops| && Clashes(io, disk, tabs, ops[j])
  {
    CheckAnswer(io, disk, tabs, ops, 0, [], []);
    hide FileOf, Check, Clashes;
  }

  /**
   A plan of known operations on distinct files that is tried goes through unless a step
   fails, and then has set or removed exactly the files named.
   */
  lemma PlanEffect(io: Io, disk: Disk, tabs: Tabs, ops: seq<Operation>, fault: Option<Fault>)
    requires DistinctPlan(io, ops)
    ensures var (outcome, after) := ApplyPlan(io, disk, tabs, ops, fault);
            && (outcome == RolledBack ==> fault.Some? || exists j :: 0 <= j < |ops| && ops[j].action.Unsupported?)
            && (outcome == Applied ==>
                  && (forall j :: 0 <= j < |ops| ==> HoldsAt(after, FileOf(io, ops[j].path), EncodedAction(io, ops[j].action)))
                  && (forall p :: Named(io, ops, p) || SameAt(after, disk, p)))
  {
    var r := Check(io, disk, tabs, ops, 0, [], []);
    hide FileOf, Check, Forward, Rollback, SameAt, Named, Snapshot, DistinctPlan, DistinctFiles, HoldsAt;
    if ops != [] && r.Ready? {
      PlanItems(io, disk, tabs, ops);
      PlanRuns(io, disk, ops, r.items, fault);
    }
  }

  lemma PlanRuns(io: Io, disk: Disk, ops: seq<Operation>, items: seq<Item>, fault: Option<Fault>)
    requires |items| == |ops| && Snapshot(io, disk, items) && DistinctFiles(items)
    requires forall j :: 0 <= j < |ops| ==> FileOf(io, ops[j].path) == Some(items[j].path) && items[j].action == ops[j].action
    ensures var r := Forward(io, disk, items, 0, fault);
            && (r.Failed? ==> fault.Some? || exists j :: 0 <= j < |ops| && ops[j].action.Unsupported?)
            && (r.Completed? ==>
                  && (forall j :: 0 <= j < |ops| ==> HoldsAt(r.disk, FileOf(io, ops[j].path), EncodedAction(io, ops[j].action)))
                  && (forall p :: Named(io, ops, p) || SameAt(r.disk, disk, p)))
  {
    hide FileOf, Forward, SameAt, Hits, Snapshot, DistinctFiles, Reached, HoldsAt;
    if fault.None? && forall j :: 0 <= j < |ops| ==> !ops[j].action.Unsupported? {
      assert forall j :: 0 <= j < |items| ==> !items[j].action.Unsupported?;
      NothingThrows(io, disk, disk, items, 0) by {
        forall p ensures SameAt(disk, disk, p) {
          SameItself(disk, p);
        }
      }
    }
    if Forward(io, disk, items, 0, fault).Completed? {
      CompletedEach(io, disk, items, fault);
      PlanSeen(io, ops, items, disk, Forward(io, disk, items, 0, fault).disk);
    }
  }

  lemma SameItself(disk: Disk, p: string)
    ensures SameAt(disk, disk, p)
  {
  }

  lemma PlanItems(io: Io, disk: Disk, tabs: Tabs, ops: seq<Operation>)
    requires DistinctPlan(io, ops) && Check(io, disk, tabs, ops, 0, [], []).Ready?
    ensures var items := Check(io, disk, tabs, ops, 0, [], []).items;
            && |items| == |ops| && Snapshot(io, disk, items) && DistinctFiles(items)
            && forall j :: 0 <= j < |ops| ==> FileOf(io, ops[j].path) == Some(items[j].path) && items[j].action == ops[j].action
  {
    hide FileOf, Check, ConflictsOf;
    ReadyMeans(io, disk, tabs, ops);
    var items := Check(io, disk, tabs, ops, 0, [], []).items;
    assert forall j :: 0 <= j < |ops| ==> Clean(io, disk, tabs, ops[j], items[j]);
  }

  lemma PlanSeen(io: Io, ops: seq<Operation>, items: seq<Item>, disk: Disk, after: Disk)
    requires |items| == |ops|
    requires forall j :: 0 <= j < |ops| ==> FileOf(io, ops[j].path) == Some(items[j].path)
    requires forall j :: 0 <= j < |ops| ==> items[j].action == ops[j].action && Reached(io, after, items[j])
    requires forall p :: Hits(items, p) || SameAt(after, disk, p)
    ensures forall j :: 0 <= j < |ops| ==> HoldsAt(after, FileOf(io, ops[j].path), EncodedAction(io, ops[j].action))
    ensures forall p :: Named(io, ops, p) || SameAt(after, disk, p)
  {
    hide FileOf, SameAt;
    forall p | Hits(items, p) ensures Named(io, ops, p) {
      var j :| 0 <= j < |items| && items[j].path == p;
      assert FileOf(io, ops[j].path) == Some(p);
    }
  }

  ghost predicate Named(io: Io, ops: seq<Operation>, file: string) {
    exists j :: 0 <= j < |ops| && FileOf(io, ops[j].path) == Some(file)
  }

  /** The operations reach files of their own. */
  ghost predicate DistinctPlan(io: Io, ops: seq<Operation>) {
    forall i, j :: 0 <= i < j < |ops| ==> FileOf(io, ops[i].path) != FileOf(io, ops[j].path)
  }

  function EncodedAction(io: Io, action: Action): Option<Bytes> {
    match action
    case Put(text) => Some(io.encode(text))
    case _ => None
  }
}
