/**
 When the recursive walk ends: a handle is a normalised path, so it need not lead where
 its entry is, and one handle can lead back to itself.
 */
module WalkEnds {
  import opened Text
  import opened Paths
  import opened PathTree
  import opened VirtualStore
  import opened TreeWalk

  /** The walk goes into the directory `name` that it lists in `d`. */
  ghost predicate Entered(s: Store, d: string, name: string) {
    name in ChildNames(s.directories, d) && name !in IGNORED_DIRECTORIES
  }

  /** The walk from the handle of `d` opens directories `depth` levels down. */
  ghost predicate Descends(s: Store, d: string, depth: nat)
    decreases depth
  {
    depth > 0 ==> exists name :: Entered(s, d, name) && Descends(s, HandlePath(d, name), depth - 1)
  }

  /** The recursion is bounded. */
  ghost predicate Ends(s: Store) {
    exists depth: nat :: !Descends(s, "", depth)
  }

  // ---------------------------------------------------------- handles

  /** Keys of reachable stores hold no backslash. */
  ghost predicate Forward(s: Store) {
    forall d :: d in s.directories ==> '\\' !in d
  }

  /** A directory path that normalises to itself and does not start with a dot segment. */
  ghost predicate Straight(d: string) {
    Canonical(d) && Segments(d)[0] != "." && '\\' !in d
  }

  lemma StraightNormalizes(d: string)
    requires Canonical(d) && '\\' !in d && !("./" <= d)
    ensures Normalize(d) == d
  {
    SlashesFacts(d);
    NormalizeIsJoin(d);
  }

  lemma DotPrefix(d: string)
    requires Canonical(d) && "./" <= d
    ensures Segments(d)[0] == "."
  {
    hide Join, Split, NonEmpty;
    assert d == "." + "/" + d[2..];
    SegmentsConcat(".", d[2..]);
    NameIsSegment(".");
  }

  /** Below a straight directory a handle is the path of its entry. */
  lemma HandleBelow(d: string, name: string)
    requires Straight(d) && ChildName(name) && '\\' !in name
    ensures HandlePath(d, name) == ChildPrefix(d) + name && Straight(HandlePath(d, name))
    ensures |Segments(HandlePath(d, name))| == |Segments(d)| + 1
  {
    var c := ChildPrefix(d) + name;
    CanonicalSegments(d);
    ChildKey(d, name);
    assert Segments(c)[0] == Segments(d)[0];
    if "./" <= c {
      DotPrefix(c);
    }
    StraightNormalizes(c);
  }

  /** At the top, and in ".", a handle is the name alone. */
  lemma HandleAtTop(name: string)
    requires ChildName(name) && '\\' !in name
    ensures HandlePath("", name) == name && HandlePath(".", name) == name
    ensures Canonical(name) && (name != "." ==> Straight(name))
  {
    NameIsSegment(name);
    SlashesFacts(name);
    NormalizeIsJoin(name);
    assert ChildPrefix("") + name == name;
    var dotted := ChildPrefix(".") + name;
    assert dotted == "./" + name && '\\' !in dotted;
    SlashesFacts(dotted);
    NormalizeIsJoin(dotted);
    assert dotted[2..] == name;
  }

  lemma EnteredFacts(s: Store, d: string, name: string)
    requires Forward(s) && Entered(s, d, name)
    ensures ChildName(name) && ChildPrefix(d) + name in s.directories && '\\' !in name
  {
    ChildNamesIff(s.directories, d, name);
    var c := ChildPrefix(d) + name;
    assert forall i :: 0 <= i < |name| ==> name[i] == c[|ChildPrefix(d)| + i];
  }

  // ---------------------------------------------------------- a bound on the depth

  ghost predicate Bounded(s: Store, bound: nat) {
    forall d :: d in s.directories ==> |Segments(d)| <= bound
  }

  lemma {:induction false} SomeBound(keys: set<string>) returns (bound: nat)
    ensures forall d :: d in keys ==> |Segments(d)| <= bound
  {
    if keys == {} {
      bound := 0;
    } else {
      var d :| d in keys;
      var rest := SomeBound(keys - {d});
      bound := if rest < |Segments(d)| then |Segments(d)| else rest;
    }
  }

  lemma {:induction false} StraightDescent(s: Store, d: string, depth: nat, bound: nat)
    requires Forward(s) && Bounded(s, bound) && Straight(d) && depth > 0 && Descends(s, d, depth)
    ensures |Segments(d)| + depth <= bound
    decreases depth
  {
    hide Entered, HandlePath, Straight;
    var name :| Entered(s, d, name) && Descends(s, HandlePath(d, name), depth - 1);
    EnteredFacts(s, d, name);
    HandleBelow(d, name);
    if depth > 1 {
      StraightDescent(s, HandlePath(d, name), depth - 1, bound);
    }
  }

  /** From "." the walk turns straight, unless it finds "." there again. */
  lemma DotDescent(s: Store, depth: nat, bound: nat)
    requires Forward(s) && Bounded(s, bound) && "./." !in s.directories && depth > bound + 1
    ensures !Descends(s, ".", depth)
  {
    hide Entered, HandlePath, Straight;
    if Descends(s, ".", depth) {
      var name :| Entered(s, ".", name) && Descends(s, HandlePath(".", name), depth - 1);
      EnteredFacts(s, ".", name);
      HandleAtTop(name);
      assert ChildPrefix(".") + "." == "./.";
      StraightDescent(s, name, depth - 1, bound);
    }
  }

  lemma TopDescent(s: Store, depth: nat, bound: nat)
    requires Forward(s) && Bounded(s, bound) && "./." !in s.directories && depth > bound + 2
    ensures !Descends(s, "", depth)
  {
    hide Entered, HandlePath, Straight;
    if Descends(s, "", depth) {
      var name :| Entered(s, "", name) && Descends(s, HandlePath("", name), depth - 1);
      EnteredFacts(s, "", name);
      HandleAtTop(name);
      if name == "." {
        DotDescent(s, depth - 1, bound);
      } else {
        StraightDescent(s, name, depth - 1, bound);
      }
    }
  }

  // ---------------------------------------------------------- a way down without end

  lemma DotIsEntered(s: Store)
    requires Closed(s) && "./." in s.directories
    ensures Entered(s, "", ".") && Entered(s, ".", ".")
  {
    ChildNamesIff(s.directories, ".", ".");
    ChildNamesIff(s.directories, "", ".");
    assert ChildPrefix(".") + "." == "./." && ChildPrefix("") + "." == ".";
    assert ClosedKey(s, "./.");
    hide ChildNames, Closed, Canonical, Normalize;
    NameIsSegment(".");
    ChildKey(".", ".");
    AncestorIff("./.", ".");
    assert "." !in IGNORED_DIRECTORIES;
  }

  lemma {:induction false} DotDescends(s: Store, depth: nat)
    requires Closed(s) && "./." in s.directories
    ensures Descends(s, ".", depth) && Descends(s, "", depth)
  {
    DotIsEntered(s);
    HandleAtTop(".");
    hide Closed, Entered, HandlePath;
    if depth > 0 {
      DotDescends(s, depth - 1);
      assert Entered(s, ".", ".") && Descends(s, HandlePath(".", "."), depth - 1);
      assert Entered(s, "", ".") && Descends(s, HandlePath("", "."), depth - 1);
    }
  }

  // ---------------------------------------------------------- exactly when

  lemma EndsIff(s: Store)
    requires Closed(s) && Forward(s)
    ensures Ends(s) <==> "./." !in s.directories
  {
    if "./." in s.directories {
      forall depth: nat ensures Descends(s, "", depth) {
        DotDescends(s, depth);
      }
    } else {
      var bound := SomeBound(s.directories);
      TopDescent(s, bound + 3, bound);
    }
  }

  lemma AncestorsForward(path: string, d: string)
    requires Canonical(path) && '\\' !in path && d in Ancestors(path)
    ensures '\\' !in d
  {
    AncestorsCanonical(path, d);
    BelowIff(d, path);
    assert d <= path;
  }

  lemma ApplyForward(s: Store, op: Operation)
    requires Forward(s)
    ensures Forward(Apply(s, op))
  {
    NormalizeCanonical(op.path);
    NormalizeCanonical(Normalize(op.path));
    hide Normalize, Canonical, Ancestors;
    forall d | d in Apply(s, op).directories && d !in s.directories ensures '\\' !in d {
      var key := Normalize(op.path);
      if d in Ancestors(key) && key != "" {
        AncestorsForward(key, d);
      } else if op.Writing? {
        AncestorsForward(Normalize(key), d);
      }
    }
  }

  lemma {:induction false} RunForward(s: Store, ops: seq<Operation>)
    requires Forward(s)
    ensures Forward(Run(s, ops))
    decreases |ops|
  {
    hide Forward, Apply;
    if ops != [] {
      ApplyForward(s, ops[0]);
      RunForward(Apply(s, ops[0]), ops[1..]);
    }
  }

  /**
   After any operations that spare the root, the walk of the whole workspace goes only so
   deep exactly if no directory is stored under the key "./.": that one is its own child.
   */
  lemma WalkEndsIff(ops: seq<Operation>)
    requires forall i :: 0 <= i < |ops| ==> (ops[i].Removing? ==> Normalize(ops[i].path) != "")
    ensures Ends(Run(EMPTY, ops)) <==> "./." !in Run(EMPTY, ops).directories
  {
    assert Closed(EMPTY) && Forward(EMPTY);
    hide Closed, Forward, Normalize, Run, Ends;
    RunKeepsClosed(EMPTY, ops);
    RunForward(EMPTY, ops);
    EndsIff(Run(EMPTY, ops));
  }

  /** One file at "./././x" is enough. */
  lemma DotFileNeverEnds(file: File)
    ensures !Ends(Seed(EMPTY, "./././x", file))
  {
    var s := Seed(EMPTY, "./././x", file);
    DotIsItsOwnChild(file);
    ChildNamesIff(s.directories, ".", ".");
    assert ChildPrefix(".") + "." == "./.";
    hide Seed, ChildNames;
    WalkEndsIff([Seeding("./././x", file)]);
    assert Run(EMPTY, [Seeding("./././x", file)]) == s by {
      OneOperation(Seeding("./././x", file));
    }
  }

  lemma OneOperation(op: Operation)
    ensures Run(EMPTY, [op]) == Apply(EMPTY, op)
  {
    assert [op][1..] == [];
  }
}
