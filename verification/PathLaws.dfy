/**
 Which paths the checks let through, told by their segments: the checks test texts for
 prefixes and parts, and what they mean is which names a path is made of.
 */
module PathLaws {
  import opened Text
  import opened Paths
  import opened PathTree
  import FilePaths
  import Zip
  import ZipImport

  // ---------------------------------------------------------- parts of a text

  lemma {:induction false} ContainsMeans(s: string, part: string) returns (before: string, after: string)
    requires Contains(s, part)
    ensures s == before + part + after
  {
    if part <= s {
      before, after := "", s[|part|..];
    } else {
      before, after := ContainsMeans(s[1..], part);
      before := [s[0]] + before;
      assert s == [s[0]] + s[1..];
    }
  }

  lemma {:induction false} ContainsInside(before: string, part: string, after: string)
    ensures Contains(before + part + after, part)
  {
    var s := before + part + after;
    if before == "" {
      assert part <= s;
    } else {
      ContainsInside(before[1..], part, after);
      assert s[1..] == before[1..] + part + after;
    }
  }

  // ---------------------------------------------------------- names inside a path

  /** Some name but the last is "..". */
  ghost predicate GoesUp(segments: seq<string>) {
    exists i :: 0 <= i < |segments| - 1 && segments[i] == ".."
  }

  lemma DotsSegments()
    ensures Segments("..") == [".."] && Segments(".") == ["."]
  {
    NameIsSegment("..");
    NameIsSegment(".");
  }

  lemma UpwardText(path: string)
    requires Canonical(path) && ("../" <= path || Contains(path, "/../"))
    ensures GoesUp(Segments(path))
  {
    hide Join, Split, NonEmpty, Segments;
    DotsSegments();
    CanonicalSegments(path);
    if "../" <= path {
      var rest := path[3..];
      assert path == ".." + "/" + rest;
      SegmentsConcat("..", rest);
      SomethingFollows(path, "..", rest);
      assert Segments(path)[0] == "..";
    } else {
      var before, after := ContainsMeans(path, "/../");
      assert before + "/../" + after == (before + "/" + "..") + "/" + after;
      SegmentsConcat(before + "/" + "..", after);
      SegmentsConcat(before, "..");
      SomethingFollows(path, before + "/" + "..", after);
      assert Segments(path)[|Segments(before)|] == "..";
    }
  }

  /** A key does not end on a slash. */
  lemma SomethingFollows(path: string, front: string, rest: string)
    requires Canonical(path) && path == front + "/" + rest
    ensures Segments(rest) != []
  {
    SegmentsConcat(front, rest);
    if Segments(rest) == [] {
      assert Segments(path) == Segments(front);
      CanonicalSegments(path);
      EndsOnName(Segments(path));
      EmptyRest(rest);
    }
  }

  lemma {:induction false} EndsOnName(segments: seq<string>)
    requires Proper(segments) && segments != []
    ensures var path := Join(segments, '/'); path != "" && path[|path| - 1] != '/'
  {
    if |segments| > 1 {
      EndsOnName(segments[1..]);
    } else {
      assert segments[0][|segments[0]| - 1] in segments[0];
    }
  }

  /** Without a name there are only slashes. */
  lemma {:induction false} EmptyRest(rest: string)
    requires Segments(rest) == []
    ensures rest == "" || rest[|rest| - 1] == '/'
  {
    if rest != "" {
      SegmentsStep(rest);
      assert rest[0] == '/';
      EmptyRest(rest[1..]);
    }
  }

  lemma UpwardSegments(path: string, i: nat)
    requires Canonical(path) && i + 1 < |Segments(path)| && Segments(path)[i] == ".."
    ensures "../" <= path || Contains(path, "/../")
  {
    CanonicalSegments(path);
    var segments := Segments(path);
    hide Join, Split, NonEmpty, Segments;
    var tail := Join(segments[i + 1..], '/');
    assert segments[i..] == [".."] + segments[i + 1..];
    JoinConcat([".."], segments[i + 1..]);
    FilePaths.OneJoined("..");
    assert Join(segments[i..], '/') == ".." + "/" + tail;
    if i == 0 {
      assert segments[0..] == segments;
    } else {
      assert segments == segments[..i] + segments[i..];
      JoinConcat(segments[..i], segments[i..]);
      var before := Join(segments[..i], '/');
      assert path == before + "/../" + tail;
      ContainsInside(before, "/../", tail);
    }
  }

  /** The two tests for a parent directory find every ".." that a name follows, and nothing else. */
  lemma UpwardIff(path: string)
    requires Canonical(path)
    ensures "../" <= path || Contains(path, "/../") <==> GoesUp(Segments(path))
  {
    if "../" <= path || Contains(path, "/../") {
      UpwardText(path);
    }
    if GoesUp(Segments(path)) {
      var i :| 0 <= i < |Segments(path)| - 1 && Segments(path)[i] == "..";
      UpwardSegments(path, i);
    }
  }

  // ---------------------------------------------------------- the checks of a workspace

  /** Directories a workspace does not look into. */
  ghost predicate Hidden(name: string) {
    name in {".git", "node_modules", "dist", "build", "target", "vendor", ".next", ".nuxt", ".cache", "coverage", ".gradle",
             ".terraform", ".idea", "__pycache__", ".pytest_cache", ".mypy_cache", ".venv", "venv"}
  }

  ghost predicate NoneHidden(segments: seq<string>) {
    forall i :: 0 <= i < |segments| ==> !Hidden(segments[i])
  }

  /**
   A path passes the checks exactly if it names something, goes up nowhere but at its end,
   holds no NUL and leads through none of the directories a workspace ignores.
   */
  lemma SafePathIff(value: string)
    ensures var path := Normalize(value);
            FilePaths.SafePath(value) ==
              if path != "" && !GoesUp(Segments(path)) && '\0' !in path && NoneHidden(Segments(path)) then Some(path) else None
  {
    var path := Normalize(value);
    var again := Normalize(path);
    NormalizeCanonical(value);
    hide Normalize, Segments, Canonical, Contains, Split;
    if path != "" {
      assert FilePaths.Keyed(path);
      FilePaths.NormalizeStrips(path);
      UpwardIff(path);
      UpwardIff(again);
      StrippedSame(path, again);
      FilePaths.CanonicalSplit(again);
      FilePaths.KeyedNotEmpty(again);
      assert FilePaths.SafePath(value).Some? <==>
               !GoesUp(Segments(path)) && !GoesUp(Segments(again)) && '\0' !in again && NoneHidden(Segments(again)) by {
        HiddenSegments(Segments(again));
      }
    }
  }

  lemma HiddenSegments(segments: seq<string>)
    ensures NoneHidden(segments) <==> !exists segment | segment in segments :: segment in FilePaths.TreeWalk.IGNORED_DIRECTORIES
  {
  }

  /** Dropping a leading "." changes none of the answers. */
  lemma StrippedSame(path: string, again: string)
    requires FilePaths.Keyed(path) && again == Normalize(path)
    requires Segments(again) == FilePaths.Strip(Segments(path))
    ensures GoesUp(Segments(again)) ==> GoesUp(Segments(path))
    ensures NoneHidden(Segments(again)) <==> NoneHidden(Segments(path))
    ensures '\0' in again <==> '\0' in path
  {
    hide Normalize, Segments;
    var p, q := Segments(path), Segments(again);
    if again != path {
      FilePaths.StrippedText(path);
      if q != p {
        assert p == ["."] + q;
        assert forall i :: 0 <= i < |q| ==> q[i] == p[i + 1];
        assert !Hidden(".");
      }
    }
  }

  // ---------------------------------------------------------- what an import takes

  /** Git files that an import takes: those that tell the branches apart. */
  ghost predicate GitKept(segments: seq<string>) {
    || segments in {[".git"], [".git", "refs"], [".git", "refs", "heads"],
                    [".git", "HEAD"], [".git", "packed-refs"], [".git", "config"]}
    || (|segments| > 3 && segments[0] == ".git" && segments[1] == "refs" && segments[2] == "heads")
  }

  lemma LiteralSegments(segments: seq<string>, path: string)
    requires Proper(segments) && segments != [] && path == Join(segments, '/')
    ensures Canonical(path) && Segments(path) == segments
  {
    JoinCanonical(segments);
  }

  lemma OneName(a: string)
    requires a != "" && '/' !in a
    ensures Canonical(a) && Segments(a) == [a]
  {
    NameIsSegment(a);
  }

  lemma MoreNames(path: string, name: string)
    requires Canonical(path) && name != "" && '/' !in name
    ensures Canonical(path + "/" + name) && Segments(path + "/" + name) == Segments(path) + [name]
  {
    assert ChildPrefix(path) + name == path + "/" + name;
    ChildKey(path, name);
  }

  lemma GitPaths()
    ensures Canonical(".git") && Segments(".git") == [".git"]
    ensures Canonical(".git/refs") && Segments(".git/refs") == [".git", "refs"]
    ensures Canonical(".git/refs/heads") && Segments(".git/refs/heads") == [".git", "refs", "heads"]
    ensures Canonical(".git/HEAD") && Segments(".git/HEAD") == [".git", "HEAD"]
    ensures Canonical(".git/packed-refs") && Segments(".git/packed-refs") == [".git", "packed-refs"]
    ensures Canonical(".git/config") && Segments(".git/config") == [".git", "config"]
  {
    hide Canonical, Segments;
    OneName(".git");
    MoreNames(".git", "refs");
    assert ".git" + "/" + "refs" == ".git/refs";
    MoreNames(".git/refs", "heads");
    MoreNames(".git", "HEAD");
    MoreNames(".git", "packed-refs");
    MoreNames(".git", "config");
    assert ".git/refs" + "/" + "heads" == ".git/refs/heads";
    assert ".git" + "/" + "HEAD" == ".git/HEAD" && ".git" + "/" + "packed-refs" == ".git/packed-refs";
    assert ".git" + "/" + "config" == ".git/config";
  }

  lemma SameNames(p: string, q: string)
    requires Canonical(p) && Canonical(q)
    ensures p == q <==> Segments(p) == Segments(q)
  {
    if Segments(p) == Segments(q) {
      SegmentsInjective(p, q);
    }
  }

  lemma GitKeptIff(path: string)
    requires Canonical(path) && Normalize(path) == path
    ensures ZipImport.IsAllowedGitMetadata(path) <==> Segments(path)[..1] == [".git"] ==> GitKept(Segments(path))
  {
    GitPaths();
    hide Canonical, Segments, Normalize;
    CanonicalSegments(path);
    SameNames(path, ".git");
    SameNames(path, ".git/refs");
    SameNames(path, ".git/refs/heads");
    SameNames(path, ".git/HEAD");
    SameNames(path, ".git/packed-refs");
    SameNames(path, ".git/config");
    BelowIff(".git", path);
    BelowIff(".git/refs/heads", path);
    assert ".git" + "/" == ".git/" && ".git/refs/heads" + "/" == ".git/refs/heads/";
    var segments := Segments(path);
    assert segments[..1] == [".git"] <==> segments[0] == ".git";
    assert [".git"] < segments <==> segments[0] == ".git" && |segments| > 1;
    assert [".git", "refs", "heads"] < segments
      <==> |segments| > 3 && segments[0] == ".git" && segments[1] == "refs" && segments[2] == "heads";
  }

  /**
   An entry of an accepted archive is imported exactly if it is a file, below the common
   root leads through none of the ignored directories, and is kept if it belongs to Git.
   */
  lemma UsefulIff(root: string, entry: Zip.Entry)
    requires Zip.SafeName(entry.name, false) && (root != "" ==> ZipImport.Below(root, entry))
    ensures var rest := ZipImport.Rest(root, entry.name);
            ZipImport.Useful(root, entry) <==>
              && !entry.directory && '\0' !in Join(rest, '/')
              && (forall i :: 0 <= i < |rest| ==> rest[i] != ".git" ==> !Hidden(rest[i]))
              && (rest[..1] == [".git"] ==> GitKept(rest))
  {
    var rest := ZipImport.Rest(root, entry.name);
    var path := ZipImport.PathOf(root, entry);
    ZipImport.PathIsRest(root, entry);
    ZipImport.NormalizeSafe(rest, path);
    assert Canonical(path) by { LiteralSegments(rest, path); }
    hide ZipImport.Rest, ZipImport.PathOf, Normalize, Segments, Canonical, Contains, Split, Zip.SafeName, ZipImport.Below;
    UpwardIff(path);
    FilePaths.CanonicalSplit(path);
    GitKeptIff(path);
    FilePaths.KeyedNotEmpty(path);
    IgnoredNames(rest);
    hide ZipImport.IsAllowedGitMetadata, GitKept;
  }

  lemma IgnoredNames(segments: seq<string>)
    ensures (exists segment | segment in segments :: segment in ZipImport.IGNORED_DIRECTORIES)
       <==> !forall i :: 0 <= i < |segments| ==> segments[i] != ".git" ==> !Hidden(segments[i])
  {
  }
}
