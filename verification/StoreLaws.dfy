/**
 What the operations of the store do to what it shows, told by the segments of paths: which
 files and directories there are afterwards, and that nothing else has changed.
 */
module StoreLaws {
  import opened Text
  import opened Paths
  import opened PathTree
  import opened VirtualStore

  // ---------------------------------------------------------- paths

  lemma {:induction false} SlashesSpelled(s: string)
    ensures |Slashes(s)| == |s|
    ensures forall i :: 0 <= i < |s| ==> Slashes(s)[i] == if s[i] == '\\' then '/' else s[i]
  {
    if s != "" {
      SlashesSpelled(s[1..]);
    }
  }

  lemma SameText(a: string, b: string)
    requires |a| == |b| && forall i :: 0 <= i < |a| ==> a[i] == b[i]
    ensures a == b
  {
  }

  /** Segments joined by either kind of slash, after "./" or not, are the path with forward slashes. */
  lemma AnySpelling(segments: seq<string>, value: string)
    requires Proper(segments) && segments != [] && segments[0] != "."
    requires var path := Join(segments, '/');
             |value| == |path| && '\\' !in path
             && forall i :: 0 <= i < |path| ==> value[i] == path[i] || (path[i] == '/' && value[i] == '\\')
    ensures Normalize(value) == Join(segments, '/')
    ensures Normalize("./" + value) == Join(segments, '/')
  {
    var path := Join(segments, '/');
    SlashesSpelled(value);
    SlashesSpelled("./" + value);
    SameText(Slashes(value), path);
    SameText(Slashes("./" + value), "./" + path);
    assert ("./" + path)[2..] == path;
    NormalizeIsJoin(value);
    NormalizeIsJoin("./" + value);
    SegmentsOfJoin(segments);
    NoDotFirst(segments);
    hide Join, Segments, Slashes;
  }

  lemma NoDotFirst(segments: seq<string>)
    requires Proper(segments) && segments != [] && segments[0] != "."
    ensures var path := Join(segments, '/'); !(|path| >= 2 && path[0] == '.' && path[1] == '/')
  {
    var path, first := Join(segments, '/'), segments[0];
    JoinStartsWithSegment(segments);
    if |first| >= 2 {
      assert first[1] == path[1] && first[1] in first;
    } else {
      assert first == [path[0]];
    }
  }

  // ---------------------------------------------------------- what the store shows

  /** The directories that come with an entry under `key`. */
  lemma AncestorMeans(key: string, d: string)
    requires Canonical(key)
    ensures d in Ancestors(key) <==> Canonical(d) && Segments(d) < Segments(key)
  {
    if d in Ancestors(key) {
      AncestorsCanonical(key, d);
    }
    if Canonical(d) {
      AncestorIff(key, d);
    }
  }

  /** A file that is written is there with its contents, the directories above it are there, and nothing else has changed. */
  lemma WritesExactly(s: Store, path: string, file: File, q: string)
    requires Normalize(path) != "" && !("./" <= Normalize(path))
    ensures var t, key := Write(s, path, file), Normalize(path);
            && key in t.files && t.files[key] == file && key in t.records && t.records[key] == file
            && (q != key ==>
                  && (q in t.files <==> q in s.files) && (q in s.files ==> t.files[q] == s.files[q])
                  && (q in t.records <==> q in s.records) && (q in s.records ==> t.records[q] == s.records[q]))
            && (q in t.directories <==> q in s.directories || (Canonical(q) && Segments(q) < Segments(key)))
  {
    NormalizeCanonical(path);
    NormalizeAgain(path);
    AncestorMeans(Normalize(path), q);
    hide Normalize, Ancestors, Canonical, Segments;
  }

  /** A directory that is made is there with those above it, and nothing else has changed. */
  lemma MakesExactly(s: Store, path: string, q: string)
    requires Normalize(path) != ""
    ensures var t, key := EnsureDirectory(s, path), Normalize(path);
            && t.files == s.files && t.records == s.records
            && (q in t.directories <==> q in s.directories || (Canonical(q) && Segments(q) <= Segments(key)))
  {
    var key := Normalize(path);
    NormalizeCanonical(path);
    AncestorMeans(key, q);
    if Canonical(q) && Segments(q) <= Segments(key) && !(Segments(q) < Segments(key)) {
      assert Segments(q) == Segments(key);
      SegmentsInjective(q, key);
    }
    hide Normalize, Ancestors, Canonical, Segments;
  }

  /** Something lies in this directory. */
  ghost predicate Holds(s: Store, key: string) {
    || (exists q :: q in s.files && Segments(key) < Segments(q))
    || (exists d :: d in s.directories && d != "" && Segments(key) < Segments(d))
  }

  lemma HoldsIff(s: Store, key: string)
    requires Closed(s) && Canonical(key)
    ensures Holds(s, key) <==> Below(s.files.Keys, key) != {} || Below(s.directories, key) != {}
  {
    forall q | q in s.files ensures q in Below(s.files.Keys, key) <==> Segments(key) < Segments(q) {
      assert ClosedKey(s, q);
      BelowIff(key, q);
    }
    forall d | d in s.directories ensures d in Below(s.directories, key) <==> d != "" && Segments(key) < Segments(d) {
      if d != "" {
        assert ClosedKey(s, d);
        BelowIff(key, d);
      }
    }
    hide Below, Segments, Canonical, Closed;
    assert Below(s.files.Keys, key) != {} ==> exists q :: q in Below(s.files.Keys, key);
    assert Below(s.directories, key) != {} ==> exists d :: d in Below(s.directories, key);
    BelowInside(s.files.Keys, key);
    BelowInside(s.directories, key);
  }

  lemma BelowInside(paths: set<string>, key: string)
    ensures Below(paths, key) <= paths
  {
  }

  /** Removal fails for what is not there, and for a directory that holds something unless all of it may go. */
  lemma RemovesIff(s: Store, path: string, recursive: bool)
    requires Closed(s) && Normalize(path) != ""
    ensures var key := Normalize(path);
            RemoveOutcome(s, path, recursive) ==
              if key in s.files then Done
              else if key !in s.directories then NotFound
              else if Holds(s, key) && !recursive then NotEmpty
              else Done
  {
    NormalizeCanonical(path);
    HoldsIff(s, Normalize(path));
    hide Normalize, Holds, Closed, Canonical;
  }

  /** A removed file is gone; a removed directory is gone with everything in it; everything else is as it was. */
  lemma RemovesExactly(s: Store, path: string, recursive: bool, q: string)
    requires Closed(s) && Normalize(path) != ""
    ensures var t, key := Remove(s, path, recursive), Normalize(path);
            if RemoveOutcome(s, path, recursive) != Done then t == s
            else if key in s.files then t == s.(files := s.files - {key}, records := s.records - {key})
            else
              && (q in t.files <==> q in s.files && !(Segments(key) < Segments(q)))
              && (q in t.files ==> t.files[q] == s.files[q])
              && (q in t.records <==> q in s.records && !(q in s.files && Segments(key) < Segments(q)))
              && (q in t.records ==> t.records[q] == s.records[q])
              && (q in t.directories <==> q in s.directories && (q == "" || !(Segments(key) <= Segments(q))))
  {
    var key := Normalize(path);
    NormalizeCanonical(path);
    if q in s.files {
      assert ClosedKey(s, q);
      BelowIff(key, q);
    }
    if q in s.directories && q != "" {
      assert ClosedKey(s, q);
      BelowIff(key, q);
      if Segments(key) <= Segments(q) && !(Segments(key) < Segments(q)) {
        assert Segments(key) == Segments(q);
        SegmentsInjective(key, q);
      }
    }
    hide Normalize, Canonical, Segments, Closed, RemoveOutcome;
  }
}
