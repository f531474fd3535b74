/**
 From the path of an operation to the file it reaches: the checks and normalisations that
 the accesses of a workspace repeat, and the walk through its directories.
 */
module FilePaths {
  import opened Text
  import opened Paths
  import opened PathTree
  import TreeWalk

  /** `safeRelativePath`: normalised once to be returned and once more to be checked. */
  function SafePath(value: string): Option<string> {
    var normalized := Normalize(value);
    var again := Normalize(normalized);
    if normalized == "" || "../" <= normalized || Contains(normalized, "/../")
       || again == "" || "../" <= again || Contains(again, "/../") || '\0' in again
       || (exists segment | segment in Split(again, '/') :: segment in TreeWalk.IGNORED_DIRECTORIES)
    then None
    else Some(normalized)
  }

  /** `parentPath` */
  function ParentPath(path: string): string {
    var parts := Split(Normalize(path), '/');
    Join(parts[..|parts| - 1], '/')
  }

  /** `basename` */
  function BaseName(path: string): string {
    var parts := Split(Normalize(path), '/');
    parts[|parts| - 1]
  }

  /** The names `getFileHandle` asks the directories for, one after the other, and the file last. */
  function Walked(path: string): seq<string> {
    Segments(Normalize(ParentPath(path))) + [BaseName(path)]
  }

  /** A file system as far as paths go: the file that a walk through its directories ends at, if it allows the names. */
  type FileSystem = seq<string> -> Option<string>

  /**
   Ordinary names lead to the file they spell; a name "." in front leads nowhere else, if
   it is allowed at all, and no file is itself spelled that way.
   */
  ghost predicate Lawful(walk: FileSystem) {
    forall names :: Proper(names) && names != [] ==>
      && ("." !in names && ".." !in names ==> walk(names) == Some(Join(names, '/')))
      && (|names| > 1 && names[0] == "." && walk(names).Some? ==> walk(names[1..]) == walk(names))
      && (walk(names).Some? ==> !("./" <= walk(names).value))
  }

  // ---------------------------------------------------------- the accesses

  /** The file of `getFileHandle`, which reads go through. */
  function ReadFile(walk: FileSystem, path: string): Option<string> {
    match SafePath(path)
    case None => None
    case Some(normalized) => walk(Walked(normalized))
  }

  /** `removePath` walks to the same directory and asks it for the same name. */
  function RemovedFile(walk: FileSystem, path: string): Option<string> {
    match SafePath(path)
    case None => None
    case Some(normalized) => walk(Segments(Normalize(ParentPath(normalized))) + [BaseName(normalized)])
  }

  /** `writePath` normalises once more before it asks for the handle. */
  function WrittenFile(walk: FileSystem, path: string): Option<string> {
    match SafePath(path)
    case None => None
    case Some(normalized) => ReadFile(walk, normalized)
  }

  /** The accesses of a promotion walk the normalised path itself. */
  function PromotedFile(walk: FileSystem, path: string): Option<string> {
    match SafePath(path)
    case None => None
    case Some(normalized) => walk(Segments(normalized))
  }

  // ---------------------------------------------------------- paths by their segments

  /** A normalised path: canonical, with forward slashes only. */
  ghost predicate Keyed(path: string) {
    Canonical(path) && '\\' !in path
  }

  /** What one more normalisation does to the segments. */
  function Strip(segments: seq<string>): seq<string> {
    if |segments| > 1 && segments[0] == "." then segments[1..] else segments
  }

  function WalkOf(segments: seq<string>): seq<string>
    requires segments != []
  {
    var m := Strip(segments);
    Strip(m[..|m| - 1]) + [m[|m| - 1]]
  }

  lemma DottedStart(path: string)
    requires Canonical(path)
    ensures "./" <= path <==> |Segments(path)| > 1 && Segments(path)[0] == "."
    ensures "./" <= path ==> Segments(path[2..]) == Segments(path)[1..]
  {
    CanonicalSegments(path);
    var segments := Segments(path);
    hide Join, Split, NonEmpty;
    if "./" <= path {
      var rest := path[2..];
      assert path == "." + "/" + rest;
      SegmentsConcat(".", rest);
      NameIsSegment(".");
      assert segments == ["."] + Segments(rest);
      OneSegment(path);
      assert Segments(rest) == [] ==> segments == ["."];
    }
    if |segments| > 1 && segments[0] == "." {
      assert segments == [segments[0]] + segments[1..];
      JoinConcat([segments[0]], segments[1..]);
      OneJoined(".");
      assert path == "." + "/" + Join(segments[1..], '/');
    }
  }

  lemma OneSegment(path: string)
    requires Canonical(path)
    ensures Segments(path) == ["."] ==> path == "."
  {
  }

  lemma OneJoined(name: string)
    ensures Join([name], '/') == name
  {
  }

  /** One more normalisation of a normalised path drops a leading "." that something follows. */
  lemma NormalizeStrips(path: string)
    requires Keyed(path)
    ensures Keyed(Normalize(path)) && Segments(Normalize(path)) == Strip(Segments(path))
  {
    NormalizeCanonical(path);
    NormalizeIsJoin(path);
    SlashesFacts(path);
    DottedStart(path);
    CanonicalSegments(path);
    hide Segments, Join, Split, Normalize;
    var stripped := Strip(Segments(path));
    assert Proper(stripped) && stripped != [];
    JoinCanonical(stripped);
    assert Normalize(path) == Join(stripped, '/');
  }

  lemma CanonicalSplit(path: string)
    requires Canonical(path)
    ensures Split(path, '/') == Segments(path)
  {
    CanonicalSegments(path);
    SplitOfJoin(Segments(path), '/');
  }

  lemma ParentSegments(path: string)
    requires Keyed(path)
    ensures var m := Strip(Segments(path));
            && m != [] && BaseName(path) == m[|m| - 1]
            && Segments(Normalize(ParentPath(path))) == Strip(m[..|m| - 1])
  {
    var normalized := Normalize(path);
    NormalizeStrips(path);
    CanonicalSplit(normalized);
    CanonicalSegments(normalized);
    var m := Segments(normalized);
    var init := m[..|m| - 1];
    hide Normalize, Segments, Canonical, Split;
    RootSegments();
    if init == [] {
      NothingJoined();
    } else {
      JoinCanonical(init);
      JoinedChars(normalized, m, init);
      NormalizeStrips(Join(init, '/'));
    }
  }

  lemma NothingJoined()
    ensures Join([], '/') == ""
  {
  }

  lemma JoinedChars(path: string, segments: seq<string>, init: seq<string>)
    requires '\\' !in path && segments == Segments(path) && init <= segments
    ensures '\\' !in Join(init, '/')
  {
    SegmentsChars(path, '\\');
    hide Segments;
    JoinChars(init, '/', '\\');
  }

  /** Every access of a normalised path walks its segments, stripped at both ends. */
  lemma WalkedStrips(path: string)
    requires Keyed(path)
    ensures Segments(path) != [] && Walked(path) == WalkOf(Segments(path)) && Proper(Walked(path)) && Walked(path) != []
  {
    hide Normalize, BaseName, ParentPath;
    ParentSegments(path);
    CanonicalSegments(path);
    hide Segments;
  }

  // ---------------------------------------------------------- writes reach what reads reach

  lemma {:induction false} ContainsTail(s: string, n: nat, part: string)
    requires n <= |s|
    ensures Contains(s[n..], part) ==> Contains(s, part)
    decreases n
  {
    if n == 0 {
      assert s[0..] == s;
    } else {
      assert s[1..][n - 1..] == s[n..];
      ContainsTail(s[1..], n - 1, part);
    }
  }

  /** Dropping a leading "./" brings nothing unsafe into the text. */
  lemma DroppedIsSafe(path: string, rest: string)
    requires path == "./" + rest && !Contains(path, "/../")
    ensures !("../" <= rest) && !Contains(rest, "/../") && forall c :: c in rest ==> c in path
  {
    var tail := path[1..];
    assert tail == "/" + rest && path[2..] == rest;
    assert "../" <= rest ==> "/../" <= tail;
    ContainsTail(path, 1, "/../");
    ContainsTail(path, 2, "/../");
  }

  lemma StrippedParts(path: string)
    requires Keyed(path)
    ensures forall segment :: segment in Split(Normalize(path), '/') ==> segment in Split(path, '/')
  {
    NormalizeStrips(path);
    CanonicalSplit(path);
    CanonicalSplit(Normalize(path));
  }

  /** A path that passes the checks passes them again. */
  lemma SafeAgain(path: string)
    requires SafePath(path).Some?
    ensures Keyed(SafePath(path).value) && SafePath(SafePath(path).value) == Some(Normalize(SafePath(path).value))
  {
    hide Normalize, Segments, Split, Canonical, Contains;
    var q := Normalize(path);
    var r := Normalize(q);
    NormalizeCanonical(path);
    NormalizeCanonical(q);
    NormalizeCanonical(r);
    assert Keyed(q) && Keyed(r);
    StrippedParts(r);
    if Normalize(r) != r {
      StrippedText(r);
      DroppedIsSafe(r, Normalize(r));
      NormalizeStrips(r);
      KeyedNotEmpty(Normalize(r));
    }
  }

  lemma KeyedNotEmpty(path: string)
    requires Keyed(path)
    ensures path != ""
  {
  }

  lemma StrippedText(path: string)
    requires Keyed(path) && Normalize(path) != path
    ensures path == "./" + Normalize(path)
  {
    var normalized := Normalize(path);
    NormalizeStrips(path);
    CanonicalSegments(path);
    hide Normalize, Split, NonEmpty;
    var segments := Segments(path);
    if Segments(normalized) == segments {
      SegmentsInjective(path, normalized);
    } else {
      assert segments == ["."] + segments[1..];
      hide Segments;
      JoinConcat(["."], segments[1..]);
      OneJoined(".");
    }
  }

  /** Stripping once more before the walk walks the same names, or leaves out a leading ".". */
  lemma StripWalk(segments: seq<string>)
    requires segments != []
    ensures var w, v := WalkOf(segments), WalkOf(Strip(segments));
            v == w || (|w| > 1 && w[0] == "." && v == w[1..])
  {
    var m := Strip(segments);
    var k := Strip(m);
    if k != m {
      assert m == ["."] + k;
      var init := m[..|m| - 1];
      assert init == ["."] + k[..|k| - 1];
      if |k| == 1 {
        assert init == ["."] && k[..0] == [];
        assert WalkOf(segments) == [".", k[0]] && WalkOf(m) == [k[0]];
      } else {
        assert Strip(init) == k[..|k| - 1];
        assert WalkOf(segments) == k[..|k| - 1] + [k[|k| - 1]] == k;
        var rest := k[..|k| - 1];
        if |rest| > 1 && rest[0] == "." {
          assert WalkOf(m) == rest[1..] + [k[|k| - 1]] == k[1..];
        } else {
          assert WalkOf(m) == k;
        }
      }
    }
  }

  /** Reading, writing and removing reach one file: the extra normalisation of a write makes no difference. */
  lemma OneFile(walk: FileSystem, path: string)
    requires Lawful(walk) && ReadFile(walk, path).Some?
    ensures WrittenFile(walk, path) == ReadFile(walk, path) == RemovedFile(walk, path)
  {
    SafeAgain(path);
    var q := SafePath(path).value;
    var r := Normalize(q);
    hide SafePath, Normalize, Segments, Canonical;
    assert RemovedFile(walk, path) == ReadFile(walk, path);
    WalkedStrips(q);
    NormalizeStrips(q);
    WalkedStrips(r);
    StripWalk(Segments(q));
  }

  // ---------------------------------------------------------- a path and its file

  /** Free of dot segments, as every path of a listed file is. */
  ghost predicate Dotless(path: string) {
    Keyed(path) && "." !in Segments(path) && ".." !in Segments(path)
  }

  lemma DotlessStrip(segments: seq<string>)
    requires segments != [] && "." !in segments
    ensures WalkOf(segments) == segments
  {
    assert segments[..|segments| - 1] + [segments[|segments| - 1]] == segments;
  }

  /** An ordinary path names its own file. */
  lemma OwnFile(walk: FileSystem, path: string)
    requires Lawful(walk) && Dotless(path) && SafePath(path).Some?
    ensures SafePath(path) == Some(path) && ReadFile(walk, path) == Some(path) && PromotedFile(walk, path) == Some(path)
  {
    NormalizeStrips(path);
    CanonicalSegments(path);
    hide SafePath, Segments;
    DotlessStrip(Segments(path));
    SameKey(path, Normalize(path));
    SafeIsNormalized(path);
    hide Normalize;
    WalkedStrips(path);
  }

  lemma SameKey(p: string, q: string)
    requires Keyed(p) && Keyed(q) && Segments(p) == Segments(q)
    ensures p == q
  {
    SegmentsInjective(p, q);
  }

  lemma SafeIsNormalized(path: string)
    requires SafePath(path).Some?
    ensures SafePath(path).value == Normalize(path)
  {
  }

  /** A path that still starts with "./" never names its own file. */
  lemma OtherFile(walk: FileSystem, path: string)
    requires Lawful(walk) && "./" <= path && ReadFile(walk, path).Some?
    ensures ReadFile(walk, path) != Some(path)
  {
    SafeAgain(path);
    var q := SafePath(path).value;
    hide SafePath, Normalize, Segments, Canonical;
    WalkedStrips(q);
  }

  /** "././a" passes as "./a" and reaches "a". */
  lemma DottedFile(walk: FileSystem)
    requires Lawful(walk)
    ensures SafePath("././a") == Some("./a") && ReadFile(walk, "./a") == Some("a")
    ensures SafePath("a") == Some("a") && ReadFile(walk, "a") == Some("a")
  {
    hide *;
    DottedNormal();
    HarmlessText();
    SafeText("././a", "./a");
    SafeText("./a", "a");
    SafeText("a", "a");
    WalkToA(walk);
    ReadsAt(walk, "./a", "a");
    ReadsAt(walk, "a", "a");
  }

  lemma ReadsAt(walk: FileSystem, path: string, normalized: string)
    requires SafePath(path) == Some(normalized)
    ensures ReadFile(walk, path) == walk(Walked(normalized))
  {
    hide SafePath, Walked;
  }

  lemma WalkToA(walk: FileSystem)
    requires Lawful(walk)
    ensures walk(Walked("a")) == Some("a")
  {
    DottedSegments();
    hide Segments, Walked, Split, Canonical;
    WalkedStrips("a");
    OneJoined("a");
    assert Proper(["a"]);
  }

  lemma DottedNormal()
    ensures Normalize("././a") == "./a" && Normalize("./a") == "a" && Normalize("a") == "a"
  {
    DottedSegments();
    hide Normalize, Segments, Split, Join, Canonical;
    NormalizeStrips("././a");
    NormalizeStrips("./a");
    NormalizeStrips("a");
    SameKey(Normalize("././a"), "./a");
    SameKey(Normalize("./a"), "a");
    SameKey(Normalize("a"), "a");
  }

  lemma SafeText(value: string, path: string)
    requires Normalize(value) == path && Normalize(path) == "a" && path != ""
    requires !("../" <= path) && !Contains(path, "/../") && !Contains("a", "/../")
    ensures SafePath(value) == Some(path)
  {
    hide Normalize, Contains, Split;
    SplitA();
    assert "a" !in TreeWalk.IGNORED_DIRECTORIES;
  }

  lemma SplitA()
    ensures Split("a", '/') == ["a"]
  {
    DottedSegments();
    hide Segments, Split, Canonical;
    CanonicalSplit("a");
  }

  lemma DottedSegments()
    ensures Keyed("././a") && Segments("././a") == [".", ".", "a"]
    ensures Keyed("./a") && Segments("./a") == [".", "a"]
    ensures Keyed("a") && Segments("a") == ["a"]
  {
    NameIsSegment("a");
    ChildKey(".", "a");
    NameIsSegment(".");
    ChildKey(".", ".");
    ChildKey("./.", "a");
    assert ChildPrefix(".") + "a" == "./a" && ChildPrefix(".") + "." == "./." && ChildPrefix("./.") + "a" == "././a";
  }

  lemma HarmlessText()
    ensures !Contains("./a", "/../") && !Contains("a", "/../") && !("../" <= "./a") && !("../" <= "a")
  {
    assert "../"[1] != "./a"[1];
    assert "./a"[1..] == "/a" && "/a"[1..] == "a" && "a"[1..] == "";
  }

  // ---------------------------------------------------------- the file systems in use

  /** A folder opened in the browser allows no dot names. */
  function NativeWalk(names: seq<string>): Option<string> {
    if "." in names || ".." in names then None else Some(Join(names, '/'))
  }

  function DropDots(names: seq<string>): seq<string> {
    if names == [] then []
    else if names[0] == "." then DropDots(names[1..])
    else [names[0]] + DropDots(names[1..])
  }

  /** The local runtime resolves the path: dots lead nowhere. Names ".." are refused. */
  function RuntimeWalk(names: seq<string>): Option<string> {
    if ".." in names || DropDots(names) == [] then None else Some(Join(DropDots(names), '/'))
  }

  lemma InnerSegments()
    ensures Keyed("a/./b") && Segments("a/./b") == ["a", ".", "b"]
  {
    NameIsSegment("a");
    ChildKey("a", ".");
    ChildKey("a/.", "b");
    assert ChildPrefix("a") + "." == "a/." && ChildPrefix("a/.") + "b" == "a/./b";
  }

  lemma InnerText()
    ensures !Contains("a/./b", "/../") && !("../" <= "a/./b")
  {
    assert "a/./b"[1..] == "/./b" && "/./b"[1..] == "./b" && "./b"[1..] == "/b" && "/b"[1..] == "b" && "b"[1..] == "";
    assert "/../"[2] != "/./b"[2];
    assert "../"[0] != "a/./b"[0];
  }

  /** So through the local runtime an inner dot segment also makes a path another name of its file. */
  lemma InnerDots()
    ensures SafePath("a/./b") == Some("a/./b") && ReadFile(RuntimeWalk, "a/./b") == Some("a/b")
  {
    hide SafePath, Normalize, Segments, Split, Join, Canonical, Contains, Walked, RuntimeWalk, TreeWalk.IGNORED_DIRECTORIES;
    InnerSegments();
    InnerText();
    NormalizeStrips("a/./b");
    SameKey(Normalize("a/./b"), "a/./b");
    CanonicalSplit("a/./b");
    InnerIsSafe();
    WalkedStrips("a/./b");
    ReadsAt(RuntimeWalk, "a/./b", "a/./b");
    InnerWalk();
  }

  lemma InnerIsSafe()
    requires Normalize("a/./b") == "a/./b" && !Contains("a/./b", "/../") && !("../" <= "a/./b") && Split("a/./b", '/') == ["a", ".", "b"]
    ensures SafePath("a/./b") == Some("a/./b")
  {
    hide Normalize, Contains, Split;
    assert "a" !in TreeWalk.IGNORED_DIRECTORIES && "." !in TreeWalk.IGNORED_DIRECTORIES && "b" !in TreeWalk.IGNORED_DIRECTORIES;
  }

  lemma InnerWalk()
    ensures WalkOf(["a", ".", "b"]) == ["a", ".", "b"] && RuntimeWalk(["a", ".", "b"]) == Some("a/b")
  {
    assert ["a", ".", "b"][1..] == [".", "b"] && [".", "b"][1..] == ["b"] && ["b"][1..] == [];
    assert DropDots(["b"]) == ["b"] && DropDots([".", "b"]) == ["b"] && DropDots(["a", ".", "b"]) == ["a", "b"];
    assert ["a", "b"][1..] == ["b"];
    assert Join(["a", "b"], '/') == "a" + ['/'] + "b" == "a/b";
  }

  lemma JoinedStart(names: seq<string>)
    requires Proper(names) && names != [] && names[0] != "."
    ensures !("./" <= Join(names, '/'))
  {
    JoinCanonical(names);
    DottedStart(Join(names, '/'));
  }

  lemma NativeIsLawful()
    ensures Lawful(NativeWalk)
  {
    forall names | Proper(names) && names != [] && NativeWalk(names).Some? ensures !("./" <= NativeWalk(names).value) {
      assert names[0] in names;
      JoinedStart(names);
    }
    forall names | Proper(names) && names != [] && |names| > 1 && names[0] == "." ensures NativeWalk(names).None? {
      assert names[0] in names;
    }
  }

  lemma {:induction false} DropDotsFacts(names: seq<string>)
    ensures Proper(names) ==> Proper(DropDots(names))
    ensures "." !in DropDots(names) && ("." !in names ==> DropDots(names) == names)
  {
    if names != [] {
      DropDotsFacts(names[1..]);
      assert names == [names[0]] + names[1..];
    }
  }

  lemma RuntimeIsLawful()
    ensures Lawful(RuntimeWalk)
  {
    forall names | Proper(names) && names != []
      ensures "." !in names && ".." !in names ==> RuntimeWalk(names) == Some(Join(names, '/'))
      ensures |names| > 1 && names[0] == "." && RuntimeWalk(names).Some? ==> RuntimeWalk(names[1..]) == RuntimeWalk(names)
      ensures RuntimeWalk(names).Some? ==> !("./" <= RuntimeWalk(names).value)
    {
      DropDotsFacts(names);
      if RuntimeWalk(names).Some? {
        assert DropDots(names)[0] in DropDots(names);
        JoinedStart(DropDots(names));
      }
    }
  }
}
