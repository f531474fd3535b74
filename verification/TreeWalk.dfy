/**
 Listing a directory of the store and the recursive walk that builds the file tree of
 the IDE: every stored file outside ignored directories is visited exactly once.
 */
module TreeWalk {
  import opened Text
  import opened Paths
  import opened PathTree
  import opened VirtualStore
  import opened VirtualWorkspace

  const MAX_TREE_FILES := 5000

  const IGNORED_DIRECTORIES: set<string> := {
    ".git", "node_modules", "dist", "build", "target", "vendor", ".next", ".nuxt", ".cache", "coverage", ".gradle",
    ".terraform", ".idea", "__pycache__", ".pytest_cache", ".mypy_cache", ".venv", "venv"
  }

  ghost predicate Distinct<T>(s: seq<T>) {
    forall i, j :: 0 <= i < j < |s| ==> s[i] != s[j]
  }

  // ---------------------------------------------------------- one directory

  predicate ChildName(name: string) {
    name != "" && '/' !in name
  }

  /** The names of the members of `keys` that lie directly in `d`. */
  ghost function ChildNames(keys: set<string>, d: string): set<string> {
    set p | p in keys && ChildPrefix(d) <= p && p != d && ChildName(p[|ChildPrefix(d)|..]) :: p[|ChildPrefix(d)|..]
  }

  lemma ChildNamesIff(keys: set<string>, d: string, name: string)
    ensures name in ChildNames(keys, d) <==> ChildName(name) && ChildPrefix(d) + name in keys
  {
    var p := ChildPrefix(d) + name;
    assert p[|ChildPrefix(d)|..] == name;
    assert p != d || name == "";
    if name in ChildNames(keys, d) {
      var q :| q in keys && ChildPrefix(d) <= q && q[|ChildPrefix(d)|..] == name;
      assert q == p;
    }
  }

  /** Collect the children of `d` among `keys`, each once, in no particular order. */
  method Children(keys: set<string>, d: string) returns (names: seq<string>)
    ensures Distinct(names)
    ensures forall name :: name in names <==> name in ChildNames(keys, d)
  {
    var prefix := ChildPrefix(d);
    var left := keys;
    names := [];
    while left != {}
      invariant left <= keys && Distinct(names)
      invariant forall name :: name in names <==> name in ChildNames(keys - left, d)
      decreases left
    {
      var key :| key in left;
      ghost var seen := keys - left;
      left := left - {key};
      assert keys - left == seen + {key};
      var added := key != d && prefix <= key && ChildName(key[|prefix|..]);
      if added {
        var name := key[|prefix|..];
        assert key == prefix + name;
        ChildNamesIff(seen, d, name);
        names := names + [name];
      }
      assert forall name :: name in ChildNames(seen + {key}, d)
                            <==> name in ChildNames(seen, d) || (added && name == key[|prefix|..]);
    }
    assert keys - left == keys;
  }

  /** The path a handle keeps for the entry `name` of `d`. */
  function HandlePath(d: string, name: string): string {
    Normalize(ChildPrefix(d) + name)
  }

  /** Every handle that `entries` can produce points at the key it was listed for. */
  ghost predicate HandlesFaithful(s: Store) {
    forall d, name :: d in s.directories && name in ChildNames(s.directories + s.files.Keys, d)
                      ==> HandlePath(d, name) == ChildPrefix(d) + name
  }

  /** The directory a key lies in, and its name there. */
  lemma ParentOf(s: Store, p: string) returns (d: string, name: string)
    requires Closed(s) && p in s.directories + s.files.Keys && p != ""
    ensures d in s.directories && Directory(d) && ChildName(name) && p == ChildPrefix(d) + name
    ensures Segments(p) == Segments(d) + [name]
  {
    assert ClosedKey(s, p);
    CanonicalSegments(p);
    var segments := Segments(p);
    var n := |segments| - 1;
    name := segments[n];
    assert segments == segments[..n] + [name];
    if n == 0 {
      d := "";
      RootSegments();
      assert segments == [name];
    } else {
      d := Join(segments[..n], '/');
      JoinCanonical(segments[..n]);
      assert d in Ancestors(p);
    }
    ChildKey(d, name);
    SegmentsInjective(p, ChildPrefix(d) + name);
  }

  /** Handles find what they were listed for exactly when every stored key normalises to itself. */
  lemma HandlesFaithfulIff(s: Store)
    requires Closed(s)
    ensures HandlesFaithful(s) <==> AllFaithful(s)
  {
    var keys := s.directories + s.files.Keys;
    hide Normalize, Ancestors;
    if AllFaithful(s) {
      forall d, name | d in s.directories && name in ChildNames(keys, d)
        ensures HandlePath(d, name) == ChildPrefix(d) + name
      {
        ChildNamesIff(keys, d, name);
        assert ChildPrefix(d) + name != "";
      }
    }
    if HandlesFaithful(s) {
      forall p | p in keys && p != "" ensures Faithful(p) {
        assert ClosedKey(s, p);
        var d, name := ParentOf(s, p);
        ChildNamesIff(keys, d, name);
      }
    }
  }

  /** A stored "././x" makes the handle of "." its own child. */
  lemma DotIsItsOwnChild(file: File)
    ensures var s := Seed(EMPTY, "./././x", file);
            "." in s.directories && "." in ChildNames(s.directories, ".") && HandlePath(".", ".") == "."
  {
    var s := Seed(EMPTY, "./././x", file);
    var key := "././x";
    assert Normalize("./././x") == key by {
      SlashesFacts("./././x");
      NormalizeIsJoin("./././x");
      DotDotX();
    }
    DotDotX();
    assert Segments(key)[..1] == ["."] && Segments(key)[..2] == [".", "."];
    assert Join(Segments(key)[..1], '/') in Ancestors(key) && Join(Segments(key)[..2], '/') in Ancestors(key);
    ChildNamesIff(s.directories, ".", ".");
    assert ChildPrefix(".") + "." == "./.";
    NormalizeIsJoin("./.");
    SlashesFacts("./.");
    NameIsSegment(".");
  }

  lemma DotDotX()
    ensures Segments("././x") == [".", ".", "x"] && Join([".", ".", "x"], '/') == "././x" && Join([".", "."], '/') == "./."
  {
    JoinConcat(["."], ["."]);
    JoinConcat([".", "."], ["x"]);
    assert [".", "."] + ["x"] == [".", ".", "x"] && ["."] + ["."] == [".", "."];
    assert Join(["."], '/') == "." && Join(["x"], '/') == "x";
    hide Join, Split, NonEmpty;
    assert "." + "/" + "." == "./." && "./." + "/" + "x" == "././x";
    SegmentsOfJoin([".", ".", "x"]);
  }

  // ---------------------------------------------------------- what the walk must visit

  /** The segment of `p` right below `d`. */
  ghost function Turn(d: string, p: string): string
    requires Segments(d) < Segments(p)
  {
    Segments(p)[|Segments(d)|]
  }

  /** A stored file below `d` with no ignored directory between. */
  ghost predicate Visible(s: Store, d: string, p: string) {
    && p in s.files
    && Segments(d) < Segments(p)
    && forall i :: |Segments(d)| <= i < |Segments(p)| - 1 ==> Segments(p)[i] !in IGNORED_DIRECTORIES
  }

  ghost predicate Deep(d: string, p: string) {
    |Segments(p)| >= |Segments(d)| + 2
  }

  /** `p` is visible from `d` through one of the directories `dirs`, or is one of the files `names` of `d`. */
  ghost predicate Reached(s: Store, d: string, p: string, dirs: seq<string>, names: seq<string>) {
    Visible(s, d, p) && Turn(d, p) in (if Deep(d, p) then dirs else names)
  }

  ghost function DirectoriesBelow(s: Store, d: string): set<string> {
    set c | c in s.directories && Segments(d) < Segments(c)
  }

  /** Seen from a child directory the visible files are those that turn into it. */
  lemma VisibleFromChild(s: Store, d: string, name: string, p: string)
    requires Directory(d) && ChildName(name)
    ensures var c := ChildPrefix(d) + name;
            && (Visible(s, c, p) && name !in IGNORED_DIRECTORIES <==> Visible(s, d, p) && Deep(d, p) && Turn(d, p) == name)
  {
    var c := ChildPrefix(d) + name;
    ChildKey(d, name);
    hide Segments, Canonical;
    var segments := Segments(p);
    var n := |Segments(d)|;
    if Visible(s, c, p) && name !in IGNORED_DIRECTORIES {
      assert segments[n] == name;
      assert forall i :: n <= i < |segments| - 1 ==> segments[i] !in IGNORED_DIRECTORIES;
    }
    if Visible(s, d, p) && Deep(d, p) && Turn(d, p) == name {
      assert segments[..n + 1] == Segments(d) + [name];
    }
  }

  /** The child of `d` that a file below it turns into is a key of its own. */
  lemma TurnIsChild(s: Store, d: string, p: string)
    requires Closed(s) && Directory(d) && Visible(s, d, p)
    ensures ChildName(Turn(d, p)) && Canonical(p)
    ensures Segments(ChildPrefix(d) + Turn(d, p)) == Segments(p)[..|Segments(d)| + 1]
    ensures Canonical(ChildPrefix(d) + Turn(d, p))
  {
    assert ClosedKey(s, p);
    CanonicalSegments(p);
    hide Segments;
    ChildKey(d, Turn(d, p));
    assert Segments(p)[..|Segments(d)| + 1] == Segments(d) + [Turn(d, p)];
  }

  lemma DeepTurnIsListed(s: Store, d: string, p: string)
    requires Closed(s) && Directory(d) && Visible(s, d, p) && Deep(d, p)
    ensures Turn(d, p) in ChildNames(s.directories, d)
  {
    var c := ChildPrefix(d) + Turn(d, p);
    TurnIsChild(s, d, p);
    assert ClosedKey(s, p);
    hide Segments, ChildNames, Canonical;
    AncestorIff(p, c);
    ChildNamesIff(s.directories, d, Turn(d, p));
  }

  lemma ShallowTurnIsListed(s: Store, d: string, p: string)
    requires Closed(s) && Directory(d) && Visible(s, d, p) && !Deep(d, p)
    ensures Turn(d, p) in ChildNames(s.files.Keys, d) && p == ChildPrefix(d) + Turn(d, p)
  {
    var c := ChildPrefix(d) + Turn(d, p);
    TurnIsChild(s, d, p);
    hide Closed, ChildNames, Canonical;
    assert Segments(p)[..|Segments(d)| + 1] == Segments(p);
    hide Segments;
    SegmentsInjective(p, c);
    ChildNamesIff(s.files.Keys, d, Turn(d, p));
  }

  /** A visible file lies in `d` or in one of its listed directories. */
  lemma TurnIsListed(s: Store, d: string, p: string)
    requires Closed(s) && Directory(d) && Visible(s, d, p)
    ensures Deep(d, p) ==> Turn(d, p) in ChildNames(s.directories, d)
    ensures !Deep(d, p) ==> Turn(d, p) in ChildNames(s.files.Keys, d) && p == ChildPrefix(d) + Turn(d, p)
  {
    hide Closed, ChildNames, Visible;
    if Deep(d, p) {
      DeepTurnIsListed(s, d, p);
    } else {
      ShallowTurnIsListed(s, d, p);
    }
  }

  // ---------------------------------------------------------- the walk

  datatype Node = FileNode(name: string, path: string) | DirectoryNode(name: string, path: string, children: seq<Node>)

  /** The files of a tree, in the order they were found. */
  function FilesOf(nodes: seq<Node>): seq<string> {
    if nodes == [] then [] else FilesOfNode(nodes[0]) + FilesOf(nodes[1..])
  }

  function FilesOfNode(node: Node): seq<string> {
    match node
    case FileNode(_, path) => [path]
    case DirectoryNode(_, _, children) => FilesOf(children)
  }

  lemma {:induction false} FilesOfAppended(nodes: seq<Node>, node: Node)
    ensures FilesOf(nodes + [node]) == FilesOf(nodes) + FilesOfNode(node)
    decreases |nodes|
  {
    hide FilesOfNode;
    var longer := nodes + [node];
    if nodes == [] {
      assert longer == [node];
      assert FilesOf(longer[1..]) == [];
    } else {
      FilesOfAppended(nodes[1..], node);
      assert longer[0] == nodes[0] && longer[1..] == nodes[1..] + [node];
      Associative(FilesOfNode(nodes[0]), FilesOf(nodes[1..]), FilesOfNode(node));
    }
  }

  lemma FileAppended(nodes: seq<Node>, name: string, path: string)
    ensures FilesOf(nodes + [FileNode(name, path)]) == FilesOf(nodes) + [path]
  {
    FilesOfAppended(nodes, FileNode(name, path));
  }

  lemma DirectoryAppended(nodes: seq<Node>, name: string, path: string, children: seq<Node>)
    ensures FilesOf(nodes + [DirectoryNode(name, path, children)]) == FilesOf(nodes) + FilesOf(children)
  {
    FilesOfAppended(nodes, DirectoryNode(name, path, children));
  }

  /** `found` is what the directories `dirs` and the files `names` of `d` lead to, or part of it once the cap is met. */
  ghost predicate Covers(s: Store, d: string, found: seq<string>, dirs: seq<string>, names: seq<string>, capped: bool) {
    && Distinct(found)
    && (forall p :: p in found ==> Reached(s, d, p, dirs, names))
    && (!capped ==> forall p :: Reached(s, d, p, dirs, names) ==> p in found)
  }

  /** `found` lists the visible files below `d`, each once: all of them unless the cap is met. */
  ghost predicate ListsVisible(s: Store, d: string, found: seq<string>, capped: bool) {
    && Distinct(found)
    && (forall p :: p in found ==> Visible(s, d, p))
    && (!capped ==> forall p :: Visible(s, d, p) ==> p in found)
  }

  lemma DistinctConcat<T>(a: seq<T>, b: seq<T>)
    requires Distinct(a) && Distinct(b) && forall x :: x in b ==> x !in a
    ensures Distinct(a + b)
  {
    forall i, j | 0 <= i < j < |a + b| ensures (a + b)[i] != (a + b)[j] {
      if i < |a| <= j {
        assert b[j - |a|] in b && a[i] in a;
      }
    }
  }

  lemma CoverNothing(s: Store, d: string)
    ensures Covers(s, d, [], [], [], false)
  {
  }

  lemma CoverDirectory(s: Store, d: string, name: string, found: seq<string>, sub: seq<string>, dirs: seq<string>,
                       before: bool, capped: bool)
    requires Directory(d) && ChildName(name) && name !in dirs && name !in IGNORED_DIRECTORIES
    requires Covers(s, d, found, dirs, [], before) && ListsVisible(s, ChildPrefix(d) + name, sub, capped)
    requires before ==> capped
    ensures Covers(s, d, found + sub, dirs + [name], [], capped)
  {
    hide Visible, Deep, Turn;
    forall p ensures Reached(s, d, p, dirs + [name], []) <==>
                     Reached(s, d, p, dirs, []) || Visible(s, ChildPrefix(d) + name, p)
    {
      VisibleFromChild(s, d, name, p);
      BelowDirectory(s, d, p);
    }
    forall p | p in sub ensures p !in found {
      VisibleFromChild(s, d, name, p);
      BelowDirectory(s, d, p);
    }
    DistinctConcat(found, sub);
  }

  lemma BelowDirectory(s: Store, d: string, p: string)
    ensures Visible(s, d, p) ==> Segments(d) < Segments(p)
  {
  }

  lemma CoverIgnored(s: Store, d: string, name: string, found: seq<string>, dirs: seq<string>, capped: bool)
    requires Directory(d) && ChildName(name) && name in IGNORED_DIRECTORIES
    requires Covers(s, d, found, dirs, [], capped)
    ensures Covers(s, d, found, dirs + [name], [], capped)
  {
    hide Visible, Deep, Turn;
    forall p ensures Reached(s, d, p, dirs + [name], []) <==> Reached(s, d, p, dirs, []) {
      VisibleFromChild(s, d, name, p);
      BelowDirectory(s, d, p);
    }
  }

  lemma CoverFile(s: Store, d: string, name: string, found: seq<string>, dirs: seq<string>, names: seq<string>)
    requires Directory(d) && ChildName(name) && name !in names && ChildPrefix(d) + name in s.files
    requires Covers(s, d, found, dirs, names, false) && Closed(s)
    ensures Covers(s, d, found + [ChildPrefix(d) + name], dirs, names + [name], false)
  {
    var q := ChildPrefix(d) + name;
    ChildKey(d, name);
    hide Segments, Canonical, Closed;
    assert Visible(s, d, q) && !Deep(d, q) && Turn(d, q) == name;
    forall p ensures Reached(s, d, p, dirs, names + [name]) <==> Reached(s, d, p, dirs, names) || p == q {
      if Visible(s, d, p) && !Deep(d, p) {
        TurnIsListed(s, d, p);
      }
    }
    hide Visible, Deep, Turn;
    DistinctConcat(found, [q]);
  }

  lemma CoverSkipped(s: Store, d: string, name: string, found: seq<string>, dirs: seq<string>, names: seq<string>)
    requires Covers(s, d, found, dirs, names, true)
    ensures Covers(s, d, found, dirs, names + [name], true)
  {
    hide Visible, Deep, Turn;
    forall p | Reached(s, d, p, dirs, names) ensures Reached(s, d, p, dirs, names + [name]) {
      BelowDirectory(s, d, p);
    }
  }

  lemma CoverAll(s: Store, d: string, found: seq<string>, dirs: seq<string>, names: seq<string>, capped: bool)
    requires Closed(s) && Directory(d) && Covers(s, d, found, dirs, names, capped)
    requires forall name :: name in ChildNames(s.directories, d) ==> name in dirs
    requires forall name :: name in ChildNames(s.files.Keys, d) ==> name in names
    ensures ListsVisible(s, d, found, capped)
  {
    hide Deep, Turn, Closed;
    forall p | Visible(s, d, p) ensures Reached(s, d, p, dirs, names) {
      TurnIsListed(s, d, p);
    }
  }

  lemma SmallerBelow(s: Store, d: string, name: string)
    requires Directory(d) && ChildName(name) && ChildPrefix(d) + name in s.directories
    ensures DirectoriesBelow(s, ChildPrefix(d) + name) < DirectoriesBelow(s, d)
  {
    ChildKey(d, name);
    assert ChildPrefix(d) + name in DirectoriesBelow(s, d);
  }

  /** The stored files outside ignored directories. */
  ghost function VisibleFiles(s: Store): set<string> {
    set p | p in s.files && Visible(s, "", p)
  }

  ghost function Elements(found: seq<string>): set<string> {
    set p | p in found
  }

  lemma {:induction false} DistinctSize(found: seq<string>)
    requires Distinct(found)
    ensures |Elements(found)| == |found|
  {
    if found != [] {
      var n := |found| - 1;
      DistinctSize(found[..n]);
      assert found == found[..n] + [found[n]];
      assert Elements(found) == Elements(found[..n]) + {found[n]};
      assert found[n] !in found[..n];
    }
  }

  lemma SubsetSize(a: set<string>, b: set<string>)
    requires a <= b
    ensures |a| <= |b| && (|a| == |b| ==> a == b)
  {
    assert b == a + (b - a);
    assert |b| == |a| + |b - a|;
  }

  /** Up to the cap the list holds every visible file; past it, as many as the cap allows. */
  lemma ListedUpToCap(s: Store, found: seq<string>)
    requires |found| <= MAX_TREE_FILES && ListsVisible(s, "", found, |found| >= MAX_TREE_FILES)
    ensures |found| == if |VisibleFiles(s)| < MAX_TREE_FILES then |VisibleFiles(s)| else MAX_TREE_FILES
    ensures Elements(found) <= VisibleFiles(s)
    ensures |VisibleFiles(s)| <= MAX_TREE_FILES ==> Elements(found) == VisibleFiles(s)
  {
    hide Segments;
    assert Elements(found) <= VisibleFiles(s);
    assert |found| < MAX_TREE_FILES ==> Elements(found) == VisibleFiles(s);
    DistinctSize(found);
    SubsetSize(Elements(found), VisibleFiles(s));
  }

  class Scan {
    var count: nat
    var paths: seq<string>

    constructor ()
      ensures count == 0 && paths == []
    {
      count, paths := 0, [];
    }

    /** Visit the directory behind a handle; `prefix` is the path it was reached by. */
    method Walk(tree: VirtualWorkspaceStore, handle: string, prefix: string) returns (entries: seq<Node>)
      requires Closed(tree.View()) && AllFaithful(tree.View())
      requires handle == prefix && handle in tree.directories
      requires count == |paths| <= MAX_TREE_FILES
      modifies this
      ensures count == |paths| <= MAX_TREE_FILES && old(paths) <= paths
      ensures ListsVisible(tree.View(), handle, paths[|old(paths)|..], count >= MAX_TREE_FILES)
      ensures FilesOf(entries) == paths[|old(paths)|..]
      decreases DirectoriesBelow(tree.View(), handle)
    {
      hide Covers, ListsVisible, Visible, DirectoriesBelow, Closed, AllFaithful, Ancestors, Normalize, FilesOf, FilesOfNode, ChildNames,
           Distinct, HandlesFaithful, Segments, Canonical, Directory;
      ghost var s, d, start := tree.View(), handle, |paths|;
      RootOrKey(s, d);
      var dirs := Children(tree.directories, handle);
      var files := Children(tree.files.Keys, handle);
      entries := [];
      CoverNothing(s, d);
      CoverMore(s, d, [], [], []);
      NoFiles();
      assert paths[start..] == [] && dirs[..0] == [] && files[..0] == [];
      for i := 0 to |dirs|
        invariant count == |paths| <= MAX_TREE_FILES && old(paths) <= paths
        invariant Covers(s, d, paths[start..], dirs[..i], [], count >= MAX_TREE_FILES)
        invariant FilesOf(entries) == paths[start..]
      {
        ghost var found, before := paths[start..], count >= MAX_TREE_FILES;
        var name := dirs[i];
        ChildNamesIff(s.directories, d, name);
        assert dirs[..i + 1] == dirs[..i] + [name];
        if name in IGNORED_DIRECTORIES {
          CoverIgnored(s, d, name, found, dirs[..i], before);
          continue;
        }
        ChildHandle(s, d, name);
        SmallerBelow(s, d, name);
        var path := Normalize(ChildPrefix(prefix) + name);
        label Inner:
        var children := Walk(tree, HandlePath(handle, name), path);
        ghost var sub := paths[|old@Inner(paths)|..];
        assert paths[start..] == found + sub;
        CoverDirectory(s, d, name, found, sub, dirs[..i], before, count >= MAX_TREE_FILES);
        if children != [] {
          DirectoryAppended(entries, name, path, children);
          entries := entries + [DirectoryNode(name, path, children)];
        } else {
          NoFiles();
        }
      }
      assert dirs[..|dirs|] == dirs;
      for i := 0 to |files|
        invariant count == |paths| <= MAX_TREE_FILES && old(paths) <= paths
        invariant Covers(s, d, paths[start..], dirs, files[..i], count >= MAX_TREE_FILES)
        invariant FilesOf(entries) == paths[start..]
      {
        ghost var found := paths[start..];
        var name := files[i];
        ChildNamesIff(s.files.Keys, d, name);
        assert files[..i + 1] == files[..i] + [name];
        if count >= MAX_TREE_FILES {
          CoverSkipped(s, d, name, found, dirs, files[..i]);
          continue;
        }
        ChildHandle(s, d, name);
        var path := Normalize(ChildPrefix(prefix) + name);
        CoverFile(s, d, name, found, dirs, files[..i]);
        CoverMore(s, d, found + [path], dirs, files[..i + 1]);
        FileAppended(entries, name, path);
        count := count + 1;
        paths := paths + [path];
        entries := entries + [FileNode(name, path)];
        assert paths[start..] == found + [path];
      }
      assert files[..|files|] == files;
      CoverAll(s, d, paths[start..], dirs, files, count >= MAX_TREE_FILES);
    }
  }

  /** Scan a whole workspace from its root handle. */
  method ScanWorkspace(tree: VirtualWorkspaceStore) returns (paths: seq<string>, nodes: seq<Node>)
    requires Closed(tree.View()) && AllFaithful(tree.View())
    ensures Distinct(paths) && FilesOf(nodes) == paths
    ensures var all := VisibleFiles(tree.View());
            && Elements(paths) <= all
            && (|all| <= MAX_TREE_FILES ==> Elements(paths) == all)
            && |paths| == if |all| < MAX_TREE_FILES then |all| else MAX_TREE_FILES
  {
    hide Visible, FilesOf, VisibleFiles, Elements;
    var scan := new Scan();
    nodes := scan.Walk(tree, "", "");
    paths := scan.paths;
    assert paths[0..] == paths;
    ListedUpToCap(tree.View(), paths);
  }

  lemma CoverMore(s: Store, d: string, found: seq<string>, dirs: seq<string>, names: seq<string>)
    requires Covers(s, d, found, dirs, names, false)
    ensures forall capped: bool :: Covers(s, d, found, dirs, names, capped)
  {
  }

  lemma NoFiles()
    ensures FilesOf([]) == []
  {
  }

  lemma RootOrKey(s: Store, d: string)
    requires Closed(s) && d in s.directories
    ensures Directory(d)
  {
    assert d != "" ==> ClosedKey(s, d);
  }

  lemma ChildHandle(s: Store, d: string, name: string)
    requires AllFaithful(s) && ChildName(name) && ChildPrefix(d) + name in s.directories + s.files.Keys
    ensures HandlePath(d, name) == ChildPrefix(d) + name
  {
    assert ChildPrefix(d) + name != "";
  }
}
