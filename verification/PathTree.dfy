/**
 Stored paths as lists of segments: which strings are keys of the file store, what lies
 below a directory, and when normalising a key again changes it.
 */
module PathTree {
  import opened Text
  import opened Paths

  // ---------------------------------------------------------- splitting and joining

  lemma SplitStep(s: string)
    requires s != ""
    ensures var rest := Split(s[1..], '/');
            Split(s, '/') == if s[0] == '/' then [""] + rest else [[s[0]] + rest[0]] + rest[1..]
  {
  }

  lemma {:induction false} SplitConcat(a: string, b: string)
    ensures Split(a + "/" + b, '/') == Split(a, '/') + Split(b, '/')
  {
    hide *;
    if a == "" {
      SplitNothing(a, b);
    } else {
      SplitConcat(a[1..], b);
      var whole, rest, tail := a + "/" + b, Split(a[1..], '/'), Split(b, '/');
      assert whole[0] == a[0] && whole[1..] == a[1..] + "/" + b;
      SplitStep(whole);
      SplitStep(a);
      FirstOfBoth(a[0], rest, tail);
    }
  }

  lemma SplitNothing(a: string, b: string)
    requires a == ""
    ensures Split(a + "/" + b, '/') == Split(a, '/') + Split(b, '/')
  {
    assert a + "/" + b == ['/'] + b;
    assert (['/'] + b)[1..] == b;
    assert Split(a, '/') == [""];
  }

  /** A character put in front goes into the first part, or in front of it. */
  lemma FirstOfBoth(c: char, rest: seq<string>, tail: seq<string>)
    requires rest != []
    ensures var both := rest + tail;
            && [""] + both == [""] + rest + tail
            && [[c] + both[0]] + both[1..] == [[c] + rest[0]] + rest[1..] + tail
  {
    assert (rest + tail)[0] == rest[0] && (rest + tail)[1..] == rest[1..] + tail;
    Associative([""], rest, tail);
    Associative([[c] + rest[0]], rest[1..], tail);
  }

  lemma NonEmptyStep(parts: seq<string>)
    requires parts != []
    ensures NonEmpty(parts) == if parts[0] == "" then NonEmpty(parts[1..]) else [parts[0]] + NonEmpty(parts[1..])
  {
  }

  lemma {:induction false} NonEmptyConcat(a: seq<string>, b: seq<string>)
    ensures NonEmpty(a + b) == NonEmpty(a) + NonEmpty(b)
  {
    if a == [] {
      assert a + b == b;
    } else {
      NonEmptyConcat(a[1..], b);
      var whole := a + b;
      assert whole[0] == a[0] && whole[1..] == a[1..] + b;
      NonEmptyStep(whole);
      NonEmptyStep(a);
      hide NonEmpty;
      Associative([a[0]], NonEmpty(a[1..]), NonEmpty(b));
    }
  }

  lemma SegmentsConcat(a: string, b: string)
    ensures Segments(a + "/" + b) == Segments(a) + Segments(b)
  {
    SplitConcat(a, b);
    NonEmptyConcat(Split(a, '/'), Split(b, '/'));
  }

  lemma {:induction false} JoinConcat(a: seq<string>, b: seq<string>)
    requires a != [] && b != []
    ensures Join(a + b, '/') == Join(a, '/') + "/" + Join(b, '/')
  {
    if |a| == 1 {
      assert (a + b)[1..] == b;
      assert a[0] + ['/'] + Join(b, '/') == Join(a, '/') + "/" + Join(b, '/');
    } else {
      JoinConcat(a[1..], b);
      assert (a + b)[1..] == a[1..] + b;
      var tail := Join(a[1..], '/');
      assert a[0] + ['/'] + (tail + "/" + Join(b, '/')) == a[0] + ['/'] + tail + "/" + Join(b, '/');
    }
  }

  // ---------------------------------------------------------- keys

  /** A key of the store: its segments joined by single slashes, and at least one of them. */
  ghost predicate Canonical(path: string) {
    path != "" && path == Join(Segments(path), '/')
  }

  lemma CanonicalSegments(path: string)
    requires Canonical(path)
    ensures Proper(Segments(path)) && Segments(path) != []
  {
    SegmentsProper(path);
  }

  lemma JoinCanonical(segments: seq<string>)
    requires Proper(segments) && segments != []
    ensures Canonical(Join(segments, '/')) && Segments(Join(segments, '/')) == segments
  {
    SegmentsOfJoin(segments);
    JoinStartsWithSegment(segments);
  }

  /** Two keys with the same segments are the same key. */
  lemma SegmentsInjective(p: string, q: string)
    requires Canonical(p) && Canonical(q) && Segments(p) == Segments(q)
    ensures p == q
  {
  }

  lemma SegmentsChars(s: string, c: char)
    requires c !in s
    ensures forall i :: 0 <= i < |Segments(s)| ==> c !in Segments(s)[i]
  {
    var parts := Split(s, '/');
    SplitParts(s, '/');
    NonEmptyProper(parts);
    SplitChars(s, '/');
    forall i | 0 <= i < |Segments(s)| ensures c !in Segments(s)[i] {
      assert Segments(s)[i] in parts;
    }
  }

  /** Normalising gives the empty path or a key. */
  lemma NormalizeCanonical(value: string)
    ensures Normalize(value) == "" || Canonical(Normalize(value))
    ensures '\\' !in Normalize(value)
  {
    var s := StripDot(Slashes(value));
    NormalizeIsJoin(value);
    SegmentsProper(s);
    SlashesFacts(value);
    assert '\\' !in s;
    SegmentsChars(s, '\\');
    JoinChars(Segments(s), '/', '\\');
    if Segments(s) != [] {
      JoinCanonical(Segments(s));
    }
  }

  lemma RootSegments()
    ensures Segments("") == [] && Normalize("") == ""
  {
  }

  lemma DotSegments(path: string)
    requires Canonical(path) && "./" <= path
    ensures Join(Segments(path[2..]), '/') != path
  {
    hide Join, Split, NonEmpty;
    var rest := path[2..];
    assert path == "." + "/" + rest;
    SegmentsConcat(".", rest);
    NameIsSegment(".");
    assert ["."] + [] == ["."];
    if Segments(rest) != [] {
      JoinConcat(["."], Segments(rest));
    }
  }

  /** Normalising a second time changes a path exactly when it still starts with "./". */
  lemma NormalizeAgain(value: string)
    ensures Normalize(Normalize(value)) == Normalize(value) <==> !("./" <= Normalize(value))
  {
    var path := Normalize(value);
    NormalizeCanonical(value);
    SlashesFacts(path);
    NormalizeIsJoin(path);
    RootSegments();
    if "./" <= path {
      DotSegments(path);
    }
  }

  /** A key below a directory starts with the directory and a slash; that is what the store tests. */
  lemma BelowIff(d: string, q: string)
    requires Canonical(d) && Canonical(q)
    ensures d + "/" <= q <==> Segments(d) < Segments(q)
  {
    if d + "/" <= q {
      var rest := q[|d| + 1..];
      assert q == d + "/" + rest;
      SegmentsConcat(d, rest);
      assert Segments(rest) == [] ==> Segments(q) == Segments(d);
    }
    if Segments(d) < Segments(q) {
      var more := Segments(q)[|Segments(d)|..];
      assert Segments(q) == Segments(d) + more;
      CanonicalSegments(d);
      JoinConcat(Segments(d), more);
    }
  }

  /** The prefix under which `entries` looks for children. */
  function ChildPrefix(d: string): string {
    if d == "" then "" else d + "/"
  }

  /** The segments of a directory, none for the root. */
  ghost predicate Directory(d: string) {
    d == "" || Canonical(d)
  }

  lemma NameIsSegment(name: string)
    requires name != "" && '/' !in name
    ensures Canonical(name) && Segments(name) == [name]
  {
    assert Proper([name]);
    JoinCanonical([name]);
  }

  /** A child of `d` is one segment longer than `d`. */
  lemma ChildKey(d: string, name: string)
    requires Directory(d) && name != "" && '/' !in name
    ensures Canonical(ChildPrefix(d) + name) && Segments(ChildPrefix(d) + name) == Segments(d) + [name]
  {
    NameIsSegment(name);
    if d == "" {
      assert ChildPrefix(d) + name == name;
      assert Segments(d) + [name] == [name];
    } else {
      CanonicalSegments(d);
      JoinConcat(Segments(d), [name]);
      SegmentsConcat(d, name);
    }
  }

  /** The string test of `entries` finds exactly the keys one segment below `d`. */
  lemma ChildIff(d: string, q: string, name: string)
    requires Directory(d) && Canonical(q)
    ensures ChildPrefix(d) <= q && q[|ChildPrefix(d)|..] == name && name != "" && '/' !in name
            <==> Segments(q) == Segments(d) + [name]
  {
    var prefix := ChildPrefix(d);
    CanonicalSegments(q);
    if prefix <= q && q[|prefix|..] == name && name != "" && '/' !in name {
      assert q == prefix + name;
      ChildKey(d, name);
    }
    if Segments(q) == Segments(d) + [name] {
      assert Segments(q)[|Segments(d)|] == name;
      ChildKey(d, name);
      SegmentsInjective(q, prefix + name);
      assert (prefix + name)[|prefix|..] == name;
    }
  }

  // ---------------------------------------------------------- ancestors

  /** The directories a key lies in, the root excluded. */
  ghost function Ancestors(path: string): set<string> {
    set k | 1 <= k < |Segments(path)| :: Join(Segments(path)[..k], '/')
  }

  lemma AncestorsCanonical(path: string, d: string)
    requires Canonical(path) && d in Ancestors(path)
    ensures Canonical(d) && Segments(d) < Segments(path)
  {
    CanonicalSegments(path);
    var k :| 1 <= k < |Segments(path)| && d == Join(Segments(path)[..k], '/');
    JoinCanonical(Segments(path)[..k]);
  }

  /** The ancestors of a key are the keys whose segments are a proper prefix of its own. */
  lemma AncestorIff(path: string, d: string)
    requires Canonical(path) && Canonical(d)
    ensures d in Ancestors(path) <==> Segments(d) < Segments(path)
  {
    if d in Ancestors(path) {
      AncestorsCanonical(path, d);
    }
    if Segments(d) < Segments(path) {
      CanonicalSegments(d);
      var k := |Segments(d)|;
      assert Segments(path)[..k] == Segments(d);
      assert d == Join(Segments(path)[..k], '/');
    }
  }
}
