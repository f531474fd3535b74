/**
 A block comment written out again line by line, indented and trimmed: its visible text
 stays, and it closes where it did.
 */
module Reindent {
  import opened Text
  import opened WhiteSpace
  import opened Comments
  import opened Tokens

  function Spaces(n: nat): string {
    seq(n, i => ' ')
  }

  lemma SpacesAreSpace(n: nat)
    ensures AllSpace(Spaces(n)) && AllSpace(" ") && AllSpace("\n") && AllSpace("")
  {
  }

  lemma TrimmedOrSpaced(line: string)
    ensures IsSpaced(line) ==> TrimEnd(line) != line
    ensures |TrimEnd(line)| <= |line|
  {
    TrimEndSplits(line);
  }

  lemma TrimEndBlank(line: string)
    ensures AllSpace(line) ==> TrimEnd(line) == ""
  {
    TrimEndSplits(line);
  }

  lemma TrimEndOfNothing()
    ensures TrimEnd("") == ""
  {
  }

  lemma TrimEndTwice(line: string)
    ensures TrimEnd(TrimEnd(line)) == TrimEnd(line)
  {
    TrimEndSplits(line);
  }

  /** The lines of a block comment, stripped, are the comment stripped. */
  function StripAll(parts: seq<string>): string {
    if parts == [] then "" else StripWs(parts[0]) + StripAll(parts[1..])
  }

  lemma {:induction false} StripJoin(parts: seq<string>)
    ensures StripWs(Join(parts, '\n')) == StripAll(parts)
  {
    hide StripWs;
    SpacesAreSpace(0);
    StripSpace("");
    if parts == [] {
    } else if |parts| == 1 {
      assert StripAll(parts[1..]) == "";
      assert StripWs(parts[0]) + "" == StripWs(parts[0]);
    } else {
      StripJoin(parts[1..]);
      StripSpace("\n");
      StripConcat(parts[0], ['\n']);
      StripConcat(parts[0] + ['\n'], Join(parts[1..], '\n'));
      assert StripWs(parts[0]) + "" == StripWs(parts[0]);
    }
  }

  lemma {:induction false} StripAllMore(parts: seq<string>, part: string)
    ensures StripAll(parts + [part]) == StripAll(parts) + StripWs(part)
  {
    hide StripWs;
    var longer := parts + [part];
    if parts == [] {
      assert longer == [part] && StripAll(longer[1..]) == "";
      assert StripWs(part) + "" == "" + StripWs(part);
    } else {
      StripAllMore(parts[1..], part);
      assert longer[0] == parts[0] && longer[1..] == parts[1..] + [part];
      Associative(StripWs(parts[0]), StripAll(parts[1..]), StripWs(part));
    }
  }

  // ---------------------------------------------------------- the lines

  /** What a line of a block comment becomes. */
  lemma PartValue(n: nat, part: string)
    ensures var body := TrimEnd(part); TrimEnd(Spaces(n) + body) == if body == "" then "" else Spaces(n) + body
  {
    var body := TrimEnd(part);
    TrimEndTwice(part);
    SpacesAreSpace(n);
    TrimEndSplits(body);
    TrimEndSplits(Spaces(n));
    hide TrimEnd;
    if body == "" {
      assert Spaces(n) + body == Spaces(n);
    } else {
      TrimEndConcat(Spaces(n), body);
    }
  }

  lemma VisibleIndent(n: nat, body: string)
    requires body != ""
    ensures Spaces(n) + body != ""
  {
  }

  /** What becomes of one line of a block comment. */
  function Reline(part: string, n: nat): string {
    var value := TrimEnd(Spaces(n) + TrimEnd(part));
    if value == "" then "" else value + "\n"
  }

  function Reflow(parts: seq<string>, n: nat): string {
    if parts == [] then "" else Reline(parts[0], n) + Reflow(parts[1..], n)
  }

  lemma {:induction false} ReflowMore(parts: seq<string>, part: string, n: nat)
    ensures Reflow(parts + [part], n) == Reflow(parts, n) + Reline(part, n)
  {
    hide Reline;
    var longer := parts + [part];
    if parts == [] {
      assert longer == [part] && Reflow(longer[1..], n) == "";
      assert Reline(part, n) + "" == "" + Reline(part, n);
    } else {
      ReflowMore(parts[1..], part, n);
      assert longer[0] == parts[0] && longer[1..] == parts[1..] + [part];
      Associative(Reline(parts[0], n), Reflow(parts[1..], n), Reline(part, n));
    }
  }

  lemma RelineIs(part: string, n: nat)
    ensures Reline(part, n) == if TrimEnd(part) == "" then "" else Spaces(n) + TrimEnd(part) + "\n"
  {
    PartValue(n, part);
    hide TrimEnd;
    if TrimEnd(part) != "" {
      VisibleIndent(n, TrimEnd(part));
    }
  }

  lemma {:induction false} StripReflow(parts: seq<string>, n: nat)
    ensures StripWs(Reflow(parts, n)) == StripAll(parts)
  {
    if parts == [] {
      SpacesAreSpace(0);
      StripSpace("");
    } else {
      StripReflow(parts[1..], n);
      StripReline(parts[0], n);
      hide Reline, StripWs;
      StripConcat(Reline(parts[0], n), Reflow(parts[1..], n));
    }
  }

  lemma StripReline(part: string, n: nat)
    ensures StripWs(Reline(part, n)) == StripWs(part)
  {
    RelineIs(part, n);
    TrimEndSplits(part);
    SpacesAreSpace(n);
    var body := TrimEnd(part);
    hide TrimEnd, Reline, StripWs, Spaces;
    StripSpace("");
    StripSpace("\n");
    StripSpace(Spaces(n));
    StripConcat(Spaces(n) + body, "\n");
    StripConcat(Spaces(n), body);
    assert "" + StripWs(body) == StripWs(body) == StripWs(body) + "";
  }

  /** The first line of a comment, without its indentation, opens it. */
  lemma FirstLine(part: string, n: nat)
    requires IsOpened(part)
    ensures Reline(part, n) == Spaces(n) + ("/*" + (TrimEnd(part[2..]) + "\n"))
  {
    RelineIs(part, n);
    var rest := part[2..];
    assert part == "/*" + rest;
    TrimEndSplits(rest);
    NotSpace();
    assert TrimEnd("/*") == "/*";
    hide Reline;
    TrimEndOpened(rest);
    assert Spaces(n) + ("/*" + TrimEnd(rest)) + "\n" == Spaces(n) + ("/*" + (TrimEnd(rest) + "\n"));
  }

  lemma TrimEndOpened(rest: string)
    ensures TrimEnd("/*" + rest) == "/*" + TrimEnd(rest)
  {
    if TrimEnd(rest) == "" {
      TrimEndSplits(rest);
      NotSpace();
      OpenedSpace(rest);
    } else {
      TrimEndBlank(rest);
      TrimEndConcat("/*", rest);
    }
  }

  lemma {:induction false} OpenedSpace(ws: string)
    requires AllSpace(ws)
    ensures TrimEnd("/*" + ws) == "/*"
  {
    NotSpace();
    if ws == "" {
      assert "/*" + ws == "/*";
    } else {
      var s := "/*" + ws;
      assert s[..|s| - 1] == "/*" + ws[..|ws| - 1];
      OpenedSpace(ws[..|ws| - 1]);
    }
  }

  // ---------------------------------------------------------- where a text closes a comment

  /** Nothing closes a comment in this text. */
  ghost predicate CloseFree(s: string) {
    forall i :: !ClosePair(s, i)
  }

  /** The text closes a comment `n` characters before its end, and nowhere before. */
  ghost predicate CloseLast(s: string, n: nat) {
    ClosePair(s, |s| - 2 - n) && forall i :: i < |s| - 2 - n ==> !ClosePair(s, i)
  }

  lemma PairsConcat(a: string, b: string)
    requires a != "" && b != "" ==> a[|a| - 1] != '*' || b[0] != '/'
    ensures forall i :: ClosePair(a + b, i) <==> ClosePair(a, i) || ClosePair(b, i - |a|)
  {
  }

  lemma CloseConcat(a: string, b: string, n: nat)
    requires a != "" && b != "" ==> a[|a| - 1] != '*' || b[0] != '/'
    ensures CloseFree(a) && CloseFree(b) <==> CloseFree(a + b)
    ensures CloseFree(a) && CloseLast(b, n) ==> CloseLast(a + b, n)
    ensures CloseLast(a + b, n) && n + 2 <= |b| ==> CloseFree(a) && CloseLast(b, n)
    ensures CloseLast(a, n) && CloseFree(b) ==> CloseLast(a + b, n + |b|)
  {
    PairsConcat(a, b);
    var s := a + b;
    hide ClosePair;
    if CloseFree(a + b) {
      forall i: int ensures !ClosePair(b, i) {
        assert !ClosePair(s, i + |a|);
      }
    }
    if CloseLast(a + b, n) && n + 2 <= |b| {
      PairInside(a);
      forall i: int | i < |b| - 2 - n ensures !ClosePair(b, i) {
        assert !ClosePair(s, i + |a|);
      }
      PairInside(b);
      assert ClosePair(s, |s| - 2 - n);
      forall i: int ensures !ClosePair(a, i) {
        assert !ClosePair(s, i) || i >= |s| - 2 - n;
      }
    }
    if CloseLast(a, n) && CloseFree(b) {
      PairInside(b);
    }
    if CloseFree(a) && CloseLast(b, n) {
      PairInside(b);
    }
  }

  lemma PairInside(s: string)
    ensures forall i :: ClosePair(s, i) ==> 0 <= i <= |s| - 2
  {
  }

  lemma SpaceIsFree(s: string)
    requires AllSpace(s)
    ensures CloseFree(s)
  {
    NotSpace();
  }

  lemma LineClose(lead: string, part: string)
    requires AllSpace(lead)
    ensures CloseFree(part) ==> CloseFree(lead + TrimEnd(part) + "\n")
    ensures CloseLast(part, 0) ==> CloseLast(lead + TrimEnd(part) + "\n", 1)
  {
    TrimEndSplits(part);
    var body := TrimEnd(part);
    var ws := part[|body|..];
    assert part == body + ws;
    NoSpaceLast(part, body, ws);
    SpacesAreSpace(0);
    SpaceIsFree(lead);
    SpaceIsFree(ws);
    SpaceIsFree("\n");
    SpaceStarts(lead, ws);
    hide TrimEnd, CloseFree, CloseLast, IsSpace;
    CloseConcat(body, ws, 0);
    CloseConcat(lead, body, 0);
    CloseConcat(lead + body, "\n", 0);
    if CloseLast(part, 0) {
      assert body + "" == body;
    }
  }

  lemma SpaceStarts(lead: string, ws: string)
    requires AllSpace(lead) && AllSpace(ws)
    ensures (ws != "" ==> ws[0] != '/') && (lead != "" ==> lead[|lead| - 1] != '*')
  {
    NotSpace();
  }

  /** What ends on a closing does not end on white space. */
  lemma NoSpaceLast(s: string, body: string, ws: string)
    requires s == body + ws && AllSpace(ws)
    ensures CloseLast(s, 0) ==> ws == "" && body == s
  {
    NotSpace();
    if ws != "" {
      assert s[|s| - 1] == ws[|ws| - 1];
    }
  }

  lemma RelineCloses(part: string, n: nat)
    ensures CloseFree(part) ==> CloseFree(Reline(part, n))
    ensures CloseLast(part, 0) ==> CloseLast(Reline(part, n), 1)
    ensures Reline(part, n) != "" ==> Reline(part, n)[|Reline(part, n)| - 1] == '\n'
  {
    RelineIs(part, n);
    SpacesAreSpace(n);
    LineClose(Spaces(n), part);
    TrimEndSplits(part);
    NoSpaceLast(part, TrimEnd(part), part[|TrimEnd(part)|..]);
    hide TrimEnd, Reline, Spaces;
    SpaceIsFree("");
  }

  /** A line and those behind it close what the text they make up closes. */
  lemma LinesClose(first: string, rest: string)
    ensures CloseFree(first + ['\n'] + rest) ==> CloseFree(first) && CloseFree(rest)
    ensures CloseLast(first + ['\n'] + rest, 0) ==> CloseFree(first) && CloseLast(rest, 0)
  {
    var s, tail := first + ['\n'] + rest, ['\n'] + rest;
    assert s == first + tail;
    assert tail != "" && tail[0] == '\n';
    EndsInRest(first, rest);
    hide CloseFree, CloseLast;
    CloseConcat(first, tail, 0);
    CloseConcat(['\n'], rest, 0);
  }

  lemma EndsInRest(first: string, rest: string)
    ensures CloseLast(first + ['\n'] + rest, 0) ==> |rest| >= 2
  {
    var s := first + ['\n'] + rest;
    assert s[|first|] == '\n';
  }

  /** The lines of a comment close it where the comment does. */
  lemma {:induction false} ReflowCloses(parts: seq<string>, n: nat)
    requires parts != []
    ensures CloseFree(Join(parts, '\n')) ==> CloseFree(Reflow(parts, n))
    ensures CloseLast(Join(parts, '\n'), 0) ==> CloseLast(Reflow(parts, n), 1)
  {
    RelineCloses(parts[0], n);
    hide Reline, CloseFree, CloseLast;
    var line := Reline(parts[0], n);
    if |parts| == 1 {
      assert Reflow(parts[1..], n) == "";
      assert line + "" == line;
    } else {
      ReflowCloses(parts[1..], n);
      LinesClose(parts[0], Join(parts[1..], '\n'));
      CloseConcat(line, Reflow(parts[1..], n), 1);
    }
  }

  /** The same with the first line neither indented nor left out. */
  lemma TailCloses(inner: seq<string>, n: nat)
    requires inner != []
    ensures var tail := TrimEnd(inner[0]) + "\n" + Reflow(inner[1..], n);
            && (CloseFree(Join(inner, '\n')) ==> CloseFree(tail))
            && (CloseLast(Join(inner, '\n'), 0) ==> CloseLast(tail, 1))
  {
    SpacesAreSpace(0);
    LineClose("", inner[0]);
    var first, rest := TrimEnd(inner[0]) + "\n", Reflow(inner[1..], n);
    assert "" + TrimEnd(inner[0]) == TrimEnd(inner[0]) && first[|first| - 1] == '\n';
    if |inner| == 1 {
      assert rest == "" && first + "" == first;
    } else {
      hide TrimEnd, CloseFree, CloseLast, Reflow;
      ReflowCloses(inner[1..], n);
      LinesClose(inner[0], Join(inner[1..], '\n'));
      CloseConcat(first, rest, 1);
    }
  }

  // ---------------------------------------------------------- the comment

  /** Behind its opening, a comment closes nowhere or where it ends. */
  lemma BlockRest(value: string, rest: string)
    requires IsBlock(value) && value == "/*" + rest
    ensures (CloseFree(rest) && forall k :: !ClosesAt(value, k)) || (CloseLast(rest, 0) && exists k :: ClosesAt(value, k))
  {
    PairsShift(value, rest);
    PairInside(rest);
    hide ClosePair;
    if !CloseFree(rest) {
      var j := FirstPair(rest);
      assert ClosesAt(value, j + 2);
    }
  }

  /** From the third character on, the pairs are those of the rest. */
  lemma PairsShift(s: string, rest: string)
    requires s == "/*" + rest
    ensures forall i :: i >= 2 ==> (ClosePair(s, i) <==> ClosePair(rest, i - 2))
    ensures forall i :: ClosePair(rest, i) ==> ClosePair(s, i + 2)
  {
  }

  lemma FirstPair(s: string) returns (j: nat)
    requires !CloseFree(s)
    ensures ClosePair(s, j) && forall i :: i < j ==> !ClosePair(s, i)
  {
    PairInside(s);
    hide ClosePair;
    var some :| ClosePair(s, some);
    j := 0;
    while !ClosePair(s, j)
      invariant j <= some && forall i :: i < j ==> !ClosePair(s, i)
      decreases some - j
    {
      j := j + 1;
    }
  }

  /** A text that opens like the comment and closes like it has only the line feed behind. */
  lemma ShownCloses(s: string, rest: string)
    requires s == "/*" + rest
    ensures CloseFree(rest) ==> forall k :: !ClosesAt(s, k)
    ensures CloseLast(rest, 1) && rest[|rest| - 1] == '\n' ==>
              (exists k :: ClosesAt(s, k)) && forall k :: ClosesAt(s, k) ==> AllSpace(s[k + 2..])
  {
    PairsShift(s, rest);
    PairInside(rest);
    if CloseLast(rest, 1) && rest[|rest| - 1] == '\n' {
      SpacesAreSpace(0);
      assert ClosesAt(s, |s| - 3);
      assert s[|s| - 3 + 2..] == "\n";
      forall k | ClosesAt(s, k) ensures k == |s| - 3 {
        assert ClosePair(s, k);
      }
    }
  }

  lemma FirstSplit(rest: string)
    ensures Split("/*" + rest, '\n') == ["/*" + Split(rest, '\n')[0]] + Split(rest, '\n')[1..]
  {
    SplitPrefix("/*", rest, '\n');
  }

  lemma {:induction false} ReflowEnds(parts: seq<string>, n: nat)
    ensures Reflow(parts, n) != "" ==> Reflow(parts, n)[|Reflow(parts, n)| - 1] == '\n'
  {
    hide Reline;
    if parts != [] {
      RelineCloses(parts[0], n);
      ReflowEnds(parts[1..], n);
    }
  }

  /** The comment, laid out behind its indentation. */
  function Shown(value: string, n: nat): string
    requires IsOpened(value)
  {
    var inner := Split(value[2..], '\n');
    "/*" + (TrimEnd(inner[0]) + "\n" + Reflow(inner[1..], n))
  }

  lemma ReflowIs(value: string, n: nat)
    requires IsOpened(value)
    ensures Reflow(Split(value, '\n'), n) == Spaces(n) + Shown(value, n)
  {
    var rest := value[2..];
    var inner := Split(rest, '\n');
    assert value == "/*" + rest;
    FirstSplit(rest);
    var parts := Split(value, '\n');
    hide Split;
    var first, lines := TrimEnd(inner[0]) + "\n", Reflow(inner[1..], n);
    FirstLine("/*" + inner[0], n);
    assert parts[0] == "/*" + inner[0] && parts[0][2..] == inner[0] && parts[1..] == inner[1..];
    assert Reflow(parts, n) == Reline(parts[0], n) + lines;
    hide Reline, TrimEnd, Reflow, Spaces;
    assert Spaces(n) + ("/*" + first) + lines == Spaces(n) + ("/*" + (first + lines));
  }

  lemma StripShown(value: string, n: nat)
    requires IsOpened(value)
    ensures StripWs(Shown(value, n)) == StripWs(value)
  {
    ReflowIs(value, n);
    JoinOfSplit(value, '\n');
    StripJoin(Split(value, '\n'));
    StripReflow(Split(value, '\n'), n);
    SpacesAreSpace(n);
    hide StripWs, Shown, Split, Join;
    StripSpace(Spaces(n));
    StripConcat(Spaces(n), Shown(value, n));
    assert "" + StripWs(Shown(value, n)) == StripWs(Shown(value, n));
  }

  lemma ShownReindents(value: string, n: nat)
    requires IsBlock(value)
    ensures Reindents(Shown(value, n), value)
  {
    var rest := value[2..];
    assert value == "/*" + rest;
    var inner := Split(rest, '\n');
    var tail := TrimEnd(inner[0]) + "\n" + Reflow(inner[1..], n);
    ReflowEnds(inner[1..], n);
    assert tail[|tail| - 1] == '\n';
    JoinOfSplit(rest, '\n');
    TailCloses(inner, n);
    BlockRest(value, rest);
    assert Shown(value, n) == "/*" + tail;
    ShownCloses("/*" + tail, tail);
    StripShown(value, n);
    hide StripWs, Split, Join, Reflow, TrimEnd, Shown, CloseFree, CloseLast, ClosesAt;
  }

  /** A comment laid out line by line is the comment, indented. */
  lemma BlockReflows(value: string, n: nat)
    requires IsBlock(value)
    ensures var text := Reflow(Split(value, '\n'), n);
            |text| >= n && text[..n] == Spaces(n) && Reindents(text[n..], value)
  {
    ReflowIs(value, n);
    ShownReindents(value, n);
    var text := Reflow(Split(value, '\n'), n);
    hide Reflow, Split, Shown, Reindents;
    assert text[..n] == Spaces(n) && text[n..] == Shown(value, n);
  }
}
