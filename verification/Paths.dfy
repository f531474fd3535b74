/** Workspace paths: the normalisation every store and importer runs them through. */
module Paths {
  import opened Text

  /** `replace(/\\/g, "/")` */
  function Slashes(s: string): string {
    if s == "" then "" else [if s[0] == '\\' then '/' else s[0]] + Slashes(s[1..])
  }

  /** `replace(/^\.\//, "")`: only once, only at the front. */
  function StripDot(s: string): string {
    if |s| >= 2 && s[0] == '.' && s[1] == '/' then s[2..] else s
  }

  /** `replace(/\/{2,}/g, "/")` */
  function Collapse(s: string): string {
    if |s| < 2 then s
    else if s[0] == '/' && s[1] == '/' then Collapse(s[1..])
    else [s[0]] + Collapse(s[1..])
  }

  function TrimLeft(s: string): string {
    if s != "" && s[0] == '/' then TrimLeft(s[1..]) else s
  }

  function TrimRight(s: string): string {
    if s == "" then ""
    else
      var rest := TrimRight(s[1..]);
      if rest == "" && s[0] == '/' then "" else [s[0]] + rest
  }

  /** `replace(/^\/+|\/+$/g, "")` */
  function Trim(s: string): string {
    TrimLeft(TrimRight(s))
  }

  function Normalize(value: string): string {
    Trim(Collapse(StripDot(Slashes(value))))
  }

  // ---------------------------------------------------------- segments

  /** `filter(Boolean)` on a list of strings. */
  function NonEmpty(parts: seq<string>): seq<string> {
    if parts == [] then []
    else if parts[0] == "" then NonEmpty(parts[1..])
    else [parts[0]] + NonEmpty(parts[1..])
  }

  function Segments(s: string): seq<string> {
    NonEmpty(Split(s, '/'))
  }

  /** Segments that can be joined and split again. */
  ghost predicate Proper(segments: seq<string>) {
    forall i :: 0 <= i < |segments| ==> segments[i] != "" && '/' !in segments[i]
  }

  lemma {:induction false} NonEmptyProper(parts: seq<string>)
    requires forall i :: 0 <= i < |parts| ==> '/' !in parts[i]
    ensures Proper(NonEmpty(parts))
    ensures forall x :: x in NonEmpty(parts) ==> x in parts
  {
    if parts != [] {
      NonEmptyProper(parts[1..]);
    }
  }

  lemma SegmentsProper(s: string)
    ensures Proper(Segments(s))
  {
    SplitParts(s, '/');
    NonEmptyProper(Split(s, '/'));
  }

  lemma {:induction false} NonEmptyIdentity(parts: seq<string>)
    requires forall i :: 0 <= i < |parts| ==> parts[i] != ""
    ensures NonEmpty(parts) == parts
  {
    if parts != [] {
      NonEmptyIdentity(parts[1..]);
    }
  }

  /** Joining proper segments loses nothing. */
  lemma SegmentsOfJoin(segments: seq<string>)
    requires Proper(segments)
    ensures Segments(Join(segments, '/')) == segments
  {
    if segments != [] {
      SplitOfJoin(segments, '/');
      NonEmptyIdentity(segments);
    }
  }

  /** What the slash steps leave: a leading slash if there was one before a segment, then the segments. */
  function Lead(s: string): string {
    if s != "" && s[0] == '/' && Segments(s) != [] then "/" else ""
  }

  lemma {:induction false} TrimRightCollapse(s: string)
    ensures TrimRight(Collapse(s)) == Lead(s) + Join(Segments(s), '/')
  {
    if s != "" {
      var rest := s[1..];
      TrimRightCollapse(rest);
      SegmentsStep(s);
      if s[0] == '/' {
        if rest == "" {
          assert s == "/";
          assert TrimRight(rest) == "";
        } else if rest[0] == '/' {
          assert Collapse(s) == Collapse(rest);
        } else {
          assert Collapse(s) == ['/'] + Collapse(rest);
          assert Collapse(s)[1..] == Collapse(rest);
        }
      } else {
        CollapseStep(s);
        assert Collapse(s)[1..] == Collapse(rest);
        var tail := Lead(rest) + Join(Segments(rest), '/');
        assert TrimRight(Collapse(s)) == [s[0]] + tail;
      }
    }
  }

  lemma CollapseStep(s: string)
    requires s != "" && s[0] != '/'
    ensures Collapse(s) == [s[0]] + Collapse(s[1..])
  {
    if |s| == 1 {
      assert s == [s[0]];
    }
  }

  /** How the segments grow by one character at the front. */
  lemma SegmentsStep(s: string)
    requires s != ""
    ensures s[0] == '/' ==> Segments(s) == Segments(s[1..])
    ensures s[0] != '/' ==> Segments(s) != []
    ensures s[0] != '/' ==>
              Join(Segments(s), '/') == [s[0]] + (Lead(s[1..]) + Join(Segments(s[1..]), '/'))
  {
    var rest := s[1..];
    var parts := Split(rest, '/');
    if s[0] == '/' {
      assert Split(s, '/')[1..] == parts;
    } else {
      var first := [s[0]] + parts[0];
      assert Split(s, '/') == [first] + parts[1..];
      assert Split(s, '/')[1..] == parts[1..];
      assert Segments(s) == [first] + NonEmpty(parts[1..]);
      assert Segments(s)[1..] == NonEmpty(parts[1..]);
      if rest == "" {
        assert parts == [""];
      } else if rest[0] == '/' {
        assert parts[0] == "";
        assert Segments(rest) == NonEmpty(parts[1..]);
      } else {
        assert parts[0] != "";
        assert Segments(rest) == [parts[0]] + NonEmpty(parts[1..]);
        assert Segments(rest)[1..] == NonEmpty(parts[1..]);
      }
    }
  }

  lemma {:induction false} JoinStartsWithSegment(segments: seq<string>)
    requires Proper(segments) && segments != []
    ensures segments[0] <= Join(segments, '/')
    ensures Join(segments, '/') != "" && Join(segments, '/')[0] != '/'
    ensures Join(segments, '/')[0] == segments[0][0]
  {
    var first := segments[0];
    assert first[0] in first;
  }

  /** Normalising is: turn the slashes, strip one leading dot, rejoin the segments. */
  lemma NormalizeIsJoin(value: string)
    ensures Normalize(value) == Join(Segments(StripDot(Slashes(value))), '/')
  {
    var s := StripDot(Slashes(value));
    TrimRightCollapse(s);
    SegmentsProper(s);
    if Segments(s) != [] {
      JoinStartsWithSegment(Segments(s));
    }
    var joined := Join(Segments(s), '/');
    assert TrimLeft(joined) == joined;
    if Lead(s) == "/" {
      assert (Lead(s) + joined)[1..] == joined;
    } else {
      assert Lead(s) + joined == joined;
    }
  }

  lemma {:induction false} SlashesFacts(s: string)
    ensures |Slashes(s)| == |s|
    ensures '\\' !in Slashes(s)
    ensures '\\' !in s ==> Slashes(s) == s
  {
    if s != "" {
      SlashesFacts(s[1..]);
      assert s == [s[0]] + s[1..];
    }
  }
}
