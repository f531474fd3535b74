/**
 The in-memory file tree of a portable workspace and the persistent records it is kept
 in step with.
 */
module VirtualStore {
  import opened Paths
  import opened PathTree

  /** A stored file: its bytes, media type and time. */
  datatype File = File(bytes: seq<nat>, mediaType: string, modified: nat)

  datatype Store = Store(files: map<string, File>, directories: set<string>, records: map<string, File>)

  datatype Outcome = Done | NotFound | NotEmpty

  const EMPTY := Store(map[], {""}, map[])

  // ---------------------------------------------------------- the operations

  ghost function Seed(s: Store, path: string, file: File): Store {
    var key := Normalize(path);
    if key == "" then s
    else s.(files := s.files[key := file], directories := s.directories + Ancestors(key))
  }

  /** The path is normalised once for the record and once more inside `seed`. */
  ghost function Write(s: Store, path: string, file: File): Store {
    var key := Normalize(path);
    Seed(s, key, file).(records := s.records[key := file])
  }

  ghost function EnsureDirectory(s: Store, path: string): Store {
    var key := Normalize(path);
    if key == "" then s else s.(directories := s.directories + Ancestors(key) + {key})
  }

  /** The members of `paths` that start with `key` and a slash. */
  function Below(paths: set<string>, key: string): set<string> {
    set p | p in paths && key + "/" <= p
  }

  function RemoveOutcome(s: Store, path: string, recursive: bool): Outcome {
    var key := Normalize(path);
    if key in s.files then Done
    else if key !in s.directories then NotFound
    else if !recursive && (Below(s.files.Keys, key) != {} || Below(s.directories, key) != {}) then NotEmpty
    else Done
  }

  function Remove(s: Store, path: string, recursive: bool): Store {
    var key := Normalize(path);
    if RemoveOutcome(s, path, recursive) != Done then s
    else if key in s.files then s.(files := s.files - {key}, records := s.records - {key})
    else
      var gone := Below(s.files.Keys, key);
      s.(files := s.files - gone, records := s.records - gone,
         directories := s.directories - Below(s.directories, key) - {key})
  }

  datatype Operation =
    | Seeding(path: string, file: File)
    | Writing(path: string, file: File)
    | Making(path: string)
    | Removing(path: string, recursive: bool)

  ghost function Apply(s: Store, op: Operation): Store {
    match op
    case Seeding(path, file) => Seed(s, path, file)
    case Writing(path, file) => Write(s, path, file)
    case Making(path) => EnsureDirectory(s, path)
    case Removing(path, recursive) => Remove(s, path, recursive)
  }

  ghost function Run(s: Store, ops: seq<Operation>): Store
    decreases |ops|
  {
    if ops == [] then s else Run(Apply(s, ops[0]), ops[1..])
  }

  // ---------------------------------------------------------- every ancestor is a directory

  ghost predicate ClosedKey(s: Store, path: string) {
    Canonical(path) && Ancestors(path) <= s.directories
  }

  /** The root is there, and so is every directory that a file or a directory lies in. */
  ghost predicate Closed(s: Store) {
    && "" in s.directories
    && (forall p :: p in s.files ==> ClosedKey(s, p))
    && (forall d :: d in s.directories && d != "" ==> ClosedKey(s, d))
  }

  /** The ancestors of an ancestor are ancestors. */
  lemma AncestorsNested(path: string, d: string)
    requires Canonical(path) && d in Ancestors(path)
    ensures Canonical(d) && Ancestors(d) <= Ancestors(path)
  {
    AncestorsCanonical(path, d);
    forall a | a in Ancestors(d) ensures a in Ancestors(path) {
      AncestorsCanonical(d, a);
      AncestorIff(path, a);
    }
  }

  lemma AddKeepsClosed(s: Store, key: string, t: Store)
    requires Closed(s) && Canonical(key)
    requires s.directories + Ancestors(key) <= t.directories <= s.directories + Ancestors(key) + {key}
    requires forall p :: p in t.files ==> p in s.files || p == key
    ensures Closed(t)
  {
    forall d | d in t.directories && d != "" ensures ClosedKey(t, d) {
      if d in s.directories {
        assert ClosedKey(s, d);
      } else if d != key {
        AncestorsNested(key, d);
      }
    }
    forall p | p in t.files ensures ClosedKey(t, p) {
      assert p in s.files ==> ClosedKey(s, p);
    }
  }

  lemma SeedKeepsClosed(s: Store, path: string, file: File)
    requires Closed(s)
    ensures Closed(Seed(s, path, file))
  {
    NormalizeCanonical(path);
    if Normalize(path) != "" {
      AddKeepsClosed(s, Normalize(path), Seed(s, path, file));
    }
  }

  /** Removing a directory takes everything below it along, so nothing is orphaned. */
  lemma RemoveKeepsClosed(s: Store, path: string, recursive: bool)
    requires Closed(s) && Normalize(path) != ""
    ensures Closed(Remove(s, path, recursive))
  {
    NormalizeCanonical(path);
    var key, t := Normalize(path), Remove(s, path, recursive);
    hide Normalize;
    forall p | p in t.files || (p in t.directories && p != "") ensures ClosedKey(t, p) {
      assert ClosedKey(s, p);
      forall a | a in Ancestors(p) ensures a in t.directories {
        AncestorsCanonical(p, a);
        assert a != "" && ClosedKey(s, a);
        if a !in t.directories {
          BelowAncestor(key, a, p);
          assert false;
        }
      }
    }
  }

  /** What lies below something at or below `key` lies below `key`. */
  lemma BelowAncestor(key: string, a: string, p: string)
    requires Canonical(key) && Canonical(a) && Canonical(p) && Segments(a) < Segments(p)
    requires a == key || key + "/" <= a
    ensures key + "/" <= p
  {
    BelowIff(key, p);
    if a != key {
      BelowIff(key, a);
    }
  }

  /**
   Removing keeps the ancestors closed except for one call: a path that normalises to the
   empty one names the root, whose own entry is deleted.
   */
  lemma RemoveKeepsClosedIff(s: Store, path: string, recursive: bool)
    requires Closed(s)
    ensures Closed(Remove(s, path, recursive)) <==> Normalize(path) != ""
  {
    if Normalize(path) != "" {
      RemoveKeepsClosed(s, path, recursive);
    } else {
      forall p | p in s.files || (p in s.directories && p != "") ensures !("/" <= p) {
        assert ClosedKey(s, p);
        CanonicalSegments(p);
        JoinStartsWithSegment(Segments(p));
      }
      assert "" !in s.files by {
        assert "" in s.files ==> ClosedKey(s, "");
      }
      assert "" + "/" == "/";
      assert Below(s.files.Keys, "") == {} && Below(s.directories, "") == {};
    }
  }

  /** Removing the empty path from a fresh store succeeds and leaves it without its root. */
  lemma RootRemoved()
    ensures Closed(EMPTY) && RemoveOutcome(EMPTY, "", false) == Done
    ensures Remove(EMPTY, "", false).directories == {} && !Closed(Remove(EMPTY, "", false))
  {
    RootSegments();
    RemoveKeepsClosedIff(EMPTY, "", false);
    assert Below({}, "") == {} && Below({""}, "") == {};
  }

  // ---------------------------------------------------------- keys that normalise to themselves

  /** A key that every handle made for it finds again. */
  ghost predicate Faithful(path: string) {
    Canonical(path) && Normalize(path) == path
  }

  ghost predicate AllFaithful(s: Store) {
    && (forall p :: p in s.files ==> Faithful(p))
    && (forall d :: d in s.directories && d != "" ==> Faithful(d))
  }

  lemma FaithfulIff(value: string)
    requires Normalize(value) != ""
    ensures Faithful(Normalize(value)) <==> !("./" <= Normalize(value))
  {
    NormalizeCanonical(value);
    NormalizeAgain(value);
  }

  lemma AncestorsFaithful(path: string, d: string)
    requires Faithful(path) && d in Ancestors(path)
    ensures Faithful(d)
  {
    AncestorsCanonical(path, d);
    BelowIff(d, path);
    NormalizeCanonical(path);
    SlashesFacts(d);
    assert d <= path && '\\' !in d;
    NormalizeAgain(path);
    NormalizeIsJoin(d);
  }

  /** Adding a path keeps the keys faithful exactly when its key does not start with "./". */
  lemma SeedFaithfulIff(s: Store, path: string, file: File)
    requires AllFaithful(s) && Normalize(path) != ""
    ensures AllFaithful(Seed(s, path, file)) <==> !("./" <= Normalize(path))
  {
    var key, t := Normalize(path), Seed(s, path, file);
    FaithfulIff(path);
    assert key in t.files;
    hide Normalize;
    if Faithful(key) {
      forall d | d in t.directories && d != "" ensures Faithful(d) {
        if d in Ancestors(key) {
          AncestorsFaithful(key, d);
        }
      }
    }
  }

  // ---------------------------------------------------------- in step with the records

  /** A reload would show the same files. A record under the empty path is never shown. */
  ghost predicate InStep(s: Store) {
    s.files == s.records - {""}
  }

  /** A write keeps the records in step exactly when its key does not start with "./". */
  lemma WriteInStepIff(s: Store, path: string, file: File)
    requires InStep(s) && AllFaithful(s)
    ensures InStep(Write(s, path, file)) <==> !("./" <= Normalize(path))
  {
    var key, t := Normalize(path), Write(s, path, file);
    NormalizeAgain(path);
    NormalizeCanonical(path);
    RootSegments();
    hide Normalize;
    if key == "" {
      assert t.records - {""} == s.records - {""};
    } else if !("./" <= key) {
      assert t.files == s.files[key := file];
      assert s.records[key := file] - {""} == (s.records - {""})[key := file];
    } else {
      var inner := Normalize(key);
      assert t.files.Keys <= s.files.Keys + {inner};
      assert key in t.records - {""};
      assert key in s.files ==> Faithful(key);
    }
  }

  /** "././a" is kept in memory as "a" and on disk as "./a". */
  lemma WriteUnderDots(s: Store, file: File)
    requires InStep(s) && AllFaithful(s)
    ensures var t := Write(s, "././a", file);
            "a" in t.files && "./a" in t.records && "./a" !in t.files && !InStep(t)
  {
    DotPaths();
    WriteInStepIff(s, "././a", file);
    assert "./a" in s.files ==> Faithful("./a");
  }

  lemma DotPaths()
    ensures Normalize("././a") == "./a" && Normalize("./a") == "a"
  {
    assert Slashes("./a") == "./a";
    assert Slashes("././a") == "././a" by {
      SlashesFacts("././a");
    }
    assert StripDot("././a") == "./a" && StripDot("./a") == "a";
    assert Collapse("./a") == "./a" && Collapse("a") == "a";
    assert TrimRight("./a") == "./a" && TrimRight("a") == "a";
  }

  /** What a caller must not do to keep the store sound: remove the root, or name a path under "./". */
  predicate Sound(op: Operation) {
    match op
    case Seeding(_, _) => false
    case Writing(path, _) => !("./" <= Normalize(path))
    case Making(path) => !("./" <= Normalize(path))
    case Removing(path, _) => Normalize(path) != ""
  }

  ghost predicate Inv(s: Store) {
    Closed(s) && AllFaithful(s) && InStep(s)
  }

  lemma MakeKeepsInv(s: Store, path: string)
    requires Inv(s) && !("./" <= Normalize(path))
    ensures Inv(EnsureDirectory(s, path))
  {
    var key, t := Normalize(path), EnsureDirectory(s, path);
    NormalizeCanonical(path);
    if key != "" {
      FaithfulIff(path);
      AddKeepsClosed(s, key, t);
      hide Normalize, Closed;
      forall d | d in t.directories && d != "" ensures Faithful(d) {
        if d in Ancestors(key) {
          AncestorsFaithful(key, d);
        }
      }
    }
  }

  lemma WriteKeepsInv(s: Store, path: string, file: File)
    requires Inv(s) && !("./" <= Normalize(path))
    ensures Inv(Write(s, path, file))
  {
    var key := Normalize(path);
    NormalizeAgain(path);
    SeedKeepsClosed(s, key, file);
    WriteInStepIff(s, path, file);
    assert Closed(Seed(s, key, file)) == Closed(Write(s, path, file));
    if key != "" {
      SeedFaithfulIff(s, key, file);
      assert AllFaithful(Seed(s, key, file)) == AllFaithful(Write(s, path, file));
    } else {
      RootSegments();
      assert AllFaithful(s) == AllFaithful(Write(s, path, file));
    }
  }

  lemma RemoveKeepsInv(s: Store, path: string, recursive: bool)
    requires Inv(s) && Normalize(path) != ""
    ensures Inv(Remove(s, path, recursive))
  {
    RemoveKeepsClosed(s, path, recursive);
    RemoveInStep(s, path, recursive);
    hide Normalize, Closed, InStep, RemoveOutcome, Below, Faithful;
    assert AllFaithful(Remove(s, path, recursive));
  }

  lemma RemoveInStep(s: Store, path: string, recursive: bool)
    requires InStep(s)
    ensures InStep(Remove(s, path, recursive))
  {
    var key := Normalize(path);
    hide Normalize, RemoveOutcome;
    if RemoveOutcome(s, path, recursive) == Done {
      WithoutCommutes(s.records, {""}, if key in s.files then {key} else Below(s.files.Keys, key));
    }
  }

  lemma WithoutCommutes(records: map<string, File>, a: set<string>, b: set<string>)
    ensures records - a - b == records - b - a
  {
  }

  /** Over every run of sound operations: ancestors are there, keys are faithful, records are in step. */
  lemma {:induction false} RunKeepsInv(s: Store, ops: seq<Operation>)
    requires Inv(s) && forall i :: 0 <= i < |ops| ==> Sound(ops[i])
    ensures Inv(Run(s, ops))
    decreases |ops|
  {
    hide Inv, Seed, EnsureDirectory, Write, Remove, Normalize;
    if ops != [] {
      match ops[0] {
        case Writing(path, file) => WriteKeepsInv(s, path, file);
        case Making(path) => MakeKeepsInv(s, path);
        case Removing(path, recursive) => RemoveKeepsInv(s, path, recursive);
      }
      RunKeepsInv(Apply(s, ops[0]), ops[1..]);
    }
  }

  /** Over every run that never removes the root, all ancestors stay, whatever the paths. */
  lemma {:induction false} RunKeepsClosed(s: Store, ops: seq<Operation>)
    requires Closed(s)
    requires forall i :: 0 <= i < |ops| ==> (ops[i].Removing? ==> Normalize(ops[i].path) != "")
    ensures Closed(Run(s, ops))
    decreases |ops|
  {
    hide Closed, Seed, EnsureDirectory, Remove, Normalize;
    if ops != [] {
      match ops[0] {
        case Seeding(path, file) => SeedKeepsClosed(s, path, file);
        case Writing(path, file) =>
          SeedKeepsClosed(s, Normalize(path), file);
          SameTree(Seed(s, Normalize(path), file), Write(s, path, file));
        case Making(path) => MakeKeepsClosed(s, path);
        case Removing(path, recursive) => RemoveKeepsClosed(s, path, recursive);
      }
      RunKeepsClosed(Apply(s, ops[0]), ops[1..]);
    }
  }

  lemma SameTree(s: Store, t: Store)
    requires s.files == t.files && s.directories == t.directories
    ensures Closed(s) == Closed(t)
  {
  }

  lemma MakeKeepsClosed(s: Store, path: string)
    requires Closed(s)
    ensures Closed(EnsureDirectory(s, path))
  {
    NormalizeCanonical(path);
    if Normalize(path) != "" {
      AddKeepsClosed(s, Normalize(path), EnsureDirectory(s, path));
    }
  }

  // ---------------------------------------------------------- reloading

  datatype Record = Record(path: string, file: File)

  /** The constructor: seed every stored record. */
  ghost function Load(s: Store, listed: seq<Record>): Store
    decreases |listed|
  {
    if listed == [] then s else Load(Seed(s, listed[0].path, listed[0].file), listed[1..])
  }

  /** The list holds each record once. */
  ghost predicate Lists(listed: seq<Record>, records: map<string, File>) {
    && (forall i, j :: 0 <= i < j < |listed| ==> listed[i].path != listed[j].path)
    && (forall i :: 0 <= i < |listed| ==> listed[i].path in records && records[listed[i].path] == listed[i].file)
    && (forall p :: p in records ==> exists i :: 0 <= i < |listed| && listed[i].path == p)
  }

  /** Every directory is the root or an ancestor of some file. */
  ghost predicate Needed(s: Store, d: string) {
    d == "" || exists p :: p in s.files && d in Ancestors(p)
  }

  ghost predicate NoSpare(s: Store) {
    forall d :: d in s.directories ==> Needed(s, d)
  }

  lemma SeedLoads(s: Store, path: string, file: File)
    requires NoSpare(s) && (path == "" || Faithful(path))
    ensures NoSpare(Seed(s, path, file))
    ensures path == "" ==> Seed(s, path, file) == s
    ensures path != "" ==> Seed(s, path, file).files == s.files[path := file]
  {
    RootSegments();
    var t := Seed(s, path, file);
    hide Normalize, Ancestors;
    forall d | d in t.directories ensures Needed(t, d) {
      if path != "" && d in Ancestors(path) {
        assert path in t.files;
      } else {
        assert Needed(s, d);
      }
    }
  }

  lemma {:induction false} LoadFiles(s: Store, listed: seq<Record>)
    requires Closed(s) && NoSpare(s)
    requires forall i :: 0 <= i < |listed| ==> listed[i].path == "" || Faithful(listed[i].path)
    requires forall i, j :: 0 <= i < j < |listed| ==> listed[i].path != listed[j].path
    ensures var t := Load(s, listed);
            && Closed(t) && NoSpare(t)
            && (forall p :: p in t.files <==> p in s.files || (p != "" && exists i :: 0 <= i < |listed| && listed[i].path == p))
            && (forall i :: 0 <= i < |listed| && listed[i].path != "" ==> t.files[listed[i].path] == listed[i].file)
            && (forall p :: p in s.files && (forall i :: 0 <= i < |listed| ==> listed[i].path != p) ==> t.files[p] == s.files[p])
    decreases |listed|
  {
    hide Closed, NoSpare, Faithful, Seed;
    if listed != [] {
      var first, rest := listed[0], listed[1..];
      var u := Seed(s, first.path, first.file);
      SeedKeepsClosed(s, first.path, first.file);
      SeedLoads(s, first.path, first.file);
      LoadFiles(u, rest);
      assert forall i :: 0 < i < |listed| ==> listed[i] == rest[i - 1];
      forall p | (forall i :: 0 <= i < |listed| ==> listed[i].path != p) && p in s.files
        ensures p in u.files && u.files[p] == s.files[p]
      {
        assert listed[0].path != p;
      }
    }
  }

  /** A freshly loaded tree shows exactly the stored records, in whatever order they come. */
  lemma LoadedFiles(listed: seq<Record>, records: map<string, File>)
    requires Lists(listed, records) && forall p :: p in records ==> p == "" || Faithful(p)
    ensures var t := Load(EMPTY, listed);
            t.files == records - {""} && Closed(t) && NoSpare(t)
  {
    var t := Load(EMPTY, listed);
    assert Closed(EMPTY) && NoSpare(EMPTY);
    hide Normalize, Ancestors, Faithful, Closed, NoSpare;
    LoadFiles(EMPTY, listed);
    forall p | p in t.files ensures p in records && t.files[p] == records[p] {
      var i :| 0 <= i < |listed| && listed[i].path == p;
    }
    assert forall p :: p in records && p != "" ==> p in t.files;
  }

  /** A directory that only exists for a file exists wherever that file does. */
  lemma NeededDirectories(t: Store, s: Store)
    requires NoSpare(t) && Closed(s) && t.files == s.files
    ensures t.directories <= s.directories
  {
    hide Ancestors, Canonical;
    forall d | d in t.directories ensures d in s.directories {
      assert Needed(t, d);
      if d != "" {
        var p :| p in t.files && d in Ancestors(p);
        assert ClosedKey(s, p);
      }
    }
  }

  /**
   Reloading a store that is in step shows the same files; only directories that hold no
   file are lost.
   */
  lemma ReloadShowsSameFiles(s: Store, listed: seq<Record>)
    requires Inv(s) && Lists(listed, s.records)
    ensures var t := Load(EMPTY, listed);
            t.files == s.files && t.directories <= s.directories && Closed(t) && NoSpare(t)
  {
    hide Load, Lists, Faithful, Closed, NoSpare;
    assert forall p :: p in s.records && p != "" ==> p in s.files;
    LoadedFiles(listed, s.records);
    NeededDirectories(Load(EMPTY, listed), s);
  }

  /** A workspace loaded from records with faithful paths is sound, so every sound run keeps it so. */
  lemma LoadedIsSound(listed: seq<Record>, records: map<string, File>, ops: seq<Operation>)
    requires Lists(listed, records) && forall p :: p in records ==> p == "" || Faithful(p)
    requires forall i :: 0 <= i < |ops| ==> Sound(ops[i])
    ensures Inv(Run(Load(EMPTY, listed).(records := records), ops))
  {
    LoadedFiles(listed, records);
    var t := Load(EMPTY, listed).(records := records);
    SameTree(Load(EMPTY, listed), t);
    hide Load, Lists, Closed, Run, Sound, Normalize, Canonical;
    forall d | d in t.directories && d != "" ensures Faithful(d) {
      assert Needed(Load(EMPTY, listed), d);
      var p :| p in t.files && d in Ancestors(p);
      AncestorsFaithful(p, d);
    }
    assert AllFaithful(t);
    RunKeepsInv(t, ops);
  }
}
