/**
 The layout engine of the code formatter: it rearranges the white space between tokens
 and changes nothing else.
 */
module Formatter {
  import opened Text
  import opened WhiteSpace
  import opened Comments
  import opened Tokens
  import opened TokenLaws
  import opened Reindent
  import opened Rescan

  const STRUCTURED_LANGUAGES: set<string> := {"Java", "Kotlin", "C#", "Go", "Rust", "JavaScript", "TypeScript"}

  const CONTROL_WORDS: set<string> := {"if", "for", "while", "switch", "catch", "synchronized", "when", "match"}

  const JOIN_AFTER_BRACE: set<string> := {"else", "catch", "finally", "while"}

  /** Lines, each ended by a line feed. */
  function Ended(lines: seq<string>): string {
    if lines == [] then "" else Ended(lines[..|lines| - 1]) + lines[|lines| - 1] + "\n"
  }

  lemma EndedMore(lines: seq<string>, line: string)
    ensures Ended(lines + [line]) == Ended(lines) + line + "\n"
  {
    assert (lines + [line])[..|lines|] == lines;
  }

  /** `/[\s([{.]$/` */
  predicate EndsOpen(s: string) {
    s != "" && (IsSpace(s[|s| - 1]) || s[|s| - 1] in {'(', '[', '{', '.'})
  }

  predicate IsWordLike(token: Option<Token>) {
    token.Some? && token.value.kind in {Word, Number, Literal}
  }

  predicate HasValue(token: Option<Token>, values: set<string>) {
    token.Some? && token.value.value in values
  }

  function NextOf(tokens: seq<Token>, i: nat): Option<Token> {
    if i + 1 < |tokens| then Some(tokens[i + 1]) else None
  }

  // ---------------------------------------------------------- what a line may become

  /** Ending a line keeps the weave. */
  lemma CommitKeeps(lines: seq<string>, line: string, tokens: seq<Token>)
    requires Weaves(false, Ended(lines) + line, tokens) && AllSane(tokens)
    requires tokens != [] && tokens[|tokens| - 1].kind.LineComment? ==> line == ""
    ensures TrimEnd(line) == "" ==> Weaves(false, Ended(lines), tokens)
    ensures TrimEnd(line) != "" ==> Weaves(false, Ended(lines + [TrimEnd(line)]), tokens)
  {
    hide Weaves, AllSane, AllSpace, TrimEnd;
    TrimKeeps(Ended(lines), line, tokens);
    var value := TrimEnd(line);
    if value == "" {
      assert Ended(lines) + "" == Ended(lines);
    } else {
      SpacesAreSpace(0);
      WeaveSpace(false, Ended(lines) + value, "\n", tokens);
      EndedMore(lines, value);
    }
  }

  lemma TrimKeeps(above: string, line: string, tokens: seq<Token>)
    requires Weaves(false, above + line, tokens) && AllSane(tokens)
    requires tokens != [] && tokens[|tokens| - 1].kind.LineComment? ==> line == ""
    ensures Weaves(false, above + TrimEnd(line), tokens)
  {
    hide Weaves, AllSane;
    TrimEndSplits(line);
    var body, tail := TrimEnd(line), line[|TrimEnd(line)|..];
    hide TrimEnd;
    assert above + line == above + body + tail;
    UnweaveSpace(above + body, tail, tokens);
  }

  lemma SpaceKeeps(above: string, line: string, ws: string, tokens: seq<Token>)
    requires Weaves(false, above + line, tokens) && AllSpace(ws)
    ensures Weaves(false, above + (line + ws), tokens)
  {
    hide Weaves;
    WeaveSpace(false, above + line, ws, tokens);
    assert above + line + ws == above + (line + ws);
  }

  lemma SaneMore(tokens: seq<Token>, token: Token)
    requires AllSane(tokens) && Sane(token)
    ensures AllSane(tokens + [token])
  {
    hide Sane;
  }

  lemma ShowsItself(token: Token)
    requires !token.kind.LineComment? && !token.kind.BlockComment?
    ensures Shows(false, token.value, token)
  {
    TrimEndSplits(token.value);
    hide TrimEnd;
  }

  lemma ShowsComment(token: Token)
    requires token.kind.LineComment?
    ensures Shows(false, TrimEnd(token.value) + "\n", token)
  {
    var body := TrimEnd(token.value);
    hide TrimEnd;
    assert (body + "\n")[|body|..] == "\n";
  }

  /** An ordinary token put at the end of the line. */
  lemma PutKeeps(above: string, line: string, tokens: seq<Token>, token: Token)
    requires Weaves(false, above + line, tokens) && AllSane(tokens) && Sane(token)
    requires !token.kind.LineComment? && !token.kind.BlockComment? && Divides(above + line, tokens + [token])
    ensures Weaves(false, above + (line + token.value), tokens + [token]) && AllSane(tokens + [token])
  {
    hide Weaves, Sane, AllSane, Divides;
    ShowsItself(token);
    SaneMore(tokens, token);
    hide Shows;
    WeaveToken(false, above + line, token.value, tokens, token);
    Associative(above, line, token.value);
  }

  /** A line comment put at the end of a line that is then ended. */
  lemma LineCommentKeeps(lines: seq<string>, line: string, tokens: seq<Token>, token: Token)
    requires Weaves(false, Ended(lines) + line, tokens) && AllSane(tokens) && Sane(token) && token.kind.LineComment?
    requires Divides(Ended(lines) + line, tokens + [token])
    ensures TrimEnd(line + token.value) != ""
    ensures Weaves(false, Ended(lines + [TrimEnd(line + token.value)]), tokens + [token]) && AllSane(tokens + [token])
  {
    hide Weaves, TrimEnd, AllSane, Ended, Divides;
    var body := TrimEnd(token.value);
    TrimEndConcat(line, token.value);
    TrimEndSplits(token.value);
    ShowsComment(token);
    SaneMore(tokens, token);
    hide Shows, Sane;
    WeaveToken(false, Ended(lines) + line, body + "\n", tokens, token);
    EndedMore(lines, line + body);
    assert Ended(lines) + line + (body + "\n") == Ended(lines) + (line + body) + "\n";
  }

  // ---------------------------------------------------------- runs of line feeds

  predicate TripleAt(s: string, i: nat) {
    i + 2 < |s| && s[i] == '\n' && s[i + 1] == '\n' && s[i + 2] == '\n'
  }

  /** No three line feeds in a row. */
  ghost predicate NoTriple(s: string) {
    forall i: nat :: !TripleAt(s, i)
  }

  /** The final pass cannot change what is shown of this token. */
  ghost predicate Calm(token: Token) {
    token.kind.BlockComment? || NoTriple(TrimEnd(token.value))
  }

  ghost predicate AllCalm(tokens: seq<Token>) {
    forall i :: 0 <= i < |tokens| ==> Calm(tokens[i])
  }

  /** Only the last token may be open, and the final pass changes none. */
  ghost predicate Smooth(tokens: seq<Token>) {
    OpenLast(tokens) && AllCalm(tokens)
  }

  lemma SmoothMore(tokens: seq<Token>, token: Token)
    ensures Smooth(tokens + [token]) <==> Smooth(tokens) && LastClosed(tokens) && Calm(token)
    ensures LastClosed(tokens + [token]) <==> Closed(token)
  {
    hide Calm, Closed, OpenLast, LastClosed;
    OpenLastMore(tokens, token);
    AllCalmMore(tokens, token);
  }

  /** Nothing on the current line or above it is a run of three line feeds. */
  ghost predicate CalmText(lines: seq<string>, line: string) {
    NoTriple(Ended(lines)) && NoTriple(line) && (line != "" ==> line[0] != '\n')
  }

  /** A run does not cross into a part that starts with something else. */
  lemma NoTripleConcat(a: string, b: string)
    requires NoTriple(a) && NoTriple(b) && (b != "" ==> b[0] != '\n')
    ensures NoTriple(a + b)
  {
    var s := a + b;
    assert b != "" ==> s[|a|] == b[0];
    forall i: nat ensures !TripleAt(s, i) {
      assert !TripleAt(a, i);
      if i >= |a| {
        assert !TripleAt(b, i - |a|);
      }
    }
  }

  lemma NoTriplePrefix(s: string, n: nat)
    requires NoTriple(s) && n <= |s|
    ensures NoTriple(s[..n])
  {
    forall i: nat ensures !TripleAt(s[..n], i) {
      assert !TripleAt(s, i);
    }
  }

  lemma NoTripleSpaces(n: nat)
    ensures NoTriple(Spaces(n)) && NoTriple(" ") && NoTriple("")
    ensures Spaces(n) != "" ==> Spaces(n)[0] != '\n'
  {
  }

  lemma NoTripleWithout(s: string)
    requires '\n' !in s
    ensures NoTriple(s)
  {
  }

  /** A line that neither starts nor ends on a line feed may be ended. */
  lemma CalmCommit(lines: seq<string>, line: string)
    requires CalmText(lines, line)
    ensures TrimEnd(line) != "" ==> CalmText(lines + [TrimEnd(line)], "")
    ensures TrimEnd(line) == "" ==> CalmText(lines, "")
  {
    TrimEndSplits(line);
    var value := TrimEnd(line);
    hide TrimEnd;
    NoTriplePrefix(line, |value|);
    assert line[..|value|] == value;
    NoTripleSpaces(0);
    if value != "" {
      NoTripleConcat(Ended(lines), value);
      EndedMore(lines, value);
      var whole := Ended(lines) + value;
      forall i: nat ensures !TripleAt(whole + "\n", i) {
        assert !TripleAt(whole, i);
        assert whole[|whole| - 1] == value[|value| - 1];
      }
    }
  }

  lemma CalmAppend(lines: seq<string>, line: string, more: string)
    requires CalmText(lines, line) && NoTriple(more) && (more != "" ==> more[0] != '\n')
    ensures CalmText(lines, line + more)
  {
    hide Ended;
    NoTripleConcat(line, more);
  }

  // ---------------------------------------------------------- between two tokens

  /** The layout ends its line behind `a` if `b` comes next. */
  predicate Breaks(a: Token, b: Token) {
    || IsComment(a)
    || (IsMark(a) && a.value == "{")
    || (IsMark(a) && a.value == "}" && b.value !in {";", ",", ")", "]"} && !(b.kind.Word? && b.value in JOIN_AFTER_BRACE))
  }

  /** The layout ends its line or leaves a space behind `a`. */
  predicate Gapped(a: Token, b: Token) {
    || Breaks(a, b) || IsSpread(a)
    || (IsMark(a) && (a.value in {";", ",", ":"} || (a.value == "}" && b.value !in {";", ",", ")", "]"})))
  }

  /** The line ends as the last token leaves it for the next. */
  ghost predicate Loose(line: string, done: seq<Token>, next: Token) {
    done != [] ==>
      var last := done[|done| - 1];
      && (Breaks(last, next) ==> line == "")
      && (Gapped(last, next) ==> line == "" || IsSpaced(line))
  }

  predicate LastTight(tokens: seq<Token>) {
    tokens != [] && IsTight(tokens[|tokens| - 1])
  }

  /** With a space if `spaced`, the token may follow the line. */
  ghost predicate Ready(line: string, done: seq<Token>, token: Token, spaced: bool) {
    done != [] ==>
      var last := done[|done| - 1];
      && (SetApart(last, token) ==> spaced || line == "" || IsSpaced(line))
      && (SetTight(last, token) ==> !spaced && line != "" && !IsSpaced(line))
  }

  lemma EndedSpaced(lines: seq<string>)
    ensures Ended(lines) == "" || IsSpaced(Ended(lines))
  {
    SpacesAreSpace(0);
  }

  /** A line with room for the token divides it from the last one. */
  lemma RoomDivides(lines: seq<string>, line: string, room: string, spaced: bool, done: seq<Token>, token: Token)
    requires Ready(line, done, token, spaced) && Roomy(line, room, spaced)
    ensures Divides(Ended(lines) + room, done + [token])
  {
    EndedSpaced(lines);
    hide Ended, SetApart, SetTight, IsSpace, AllSpace, TrimEnd;
    if room == "" {
      assert Ended(lines) + room == Ended(lines);
    } else {
      assert (Ended(lines) + room)[|Ended(lines) + room| - 1] == room[|room| - 1];
    }
  }

  /** A line that the last token breaks before this one is empty. */
  ghost predicate Fresh(line: string, done: seq<Token>, token: Token) {
    done != [] && Breaks(done[|done| - 1], token) ==> line == ""
  }

  /** A mark that is set apart from the last token stands on a line of its own or has a space before it. */
  lemma MarkReady(line: string, done: seq<Token>, token: Token, spaced: bool)
    requires IsMark(token) && Fresh(line, done, token)
    requires IsSpread(token) || token.value in {"@", "}"} ==> spaced || TrimEnd(line) == ""
    requires IsTight(token) ==> !spaced && (LastTight(done) ==> line != "" && TrimEnd(line) == line)
    ensures Ready(line, done, token, spaced)
  {
    BlankLine(line);
    hide TrimEnd, IsSpace;
  }

  /** Nothing is due behind such a token. */
  lemma NoGap(line: string, done: seq<Token>, token: Token, next: Token)
    requires !IsComment(token) && !IsSpread(token) && (IsMark(token) ==> token.value !in {"{", "}", ";", ",", ":"})
    ensures Loose(line, done + [token], next)
  {
  }

  lemma GapLeft(line: string, done: seq<Token>, token: Token, next: Token)
    requires line == "" || (IsSpaced(line) && !Breaks(token, next))
    ensures Loose(line, done + [token], next)
  {
  }

  lemma OperatorKinds(token: Token)
    requires token.kind.Operator?
    ensures IsSpread(token) <==>
              token.value in {"->", "=>", "=", "==", "!=", "<=", ">=", "&&", "||", "+=", "-=", "*=", "/=", "%="}
    ensures IsSpread(token) || token.value in {">>", ">>>"} ==> !IsTight(token)
    ensures IsSpread(token) ==> token.value !in GLUED
    ensures token.value in SLASHED && token.value !in GLUED ==> IsSpread(token)
  {
  }

  lemma TightTrimmed(token: Token)
    requires IsTight(token)
    ensures TrimEnd(token.value) == token.value && token.value !in {"{", "}", ";", ",", ":", "@", "(", ")", "[", "]", "<", ">", "."}
  {
    assert token.value != "" && !IsSpace(token.value[|token.value| - 1]);
    EndsVisibly(token.value);
    hide TrimEnd, IsSpace;
  }

  lemma WordReady(line: string, done: seq<Token>, token: Token, previous: Option<Token>)
    requires IsWordy(token) && Loose(line, done, token)
    requires done != [] ==> previous == Some(done[|done| - 1])
    ensures Ready(line, done, token, IsWordLike(previous) || HasValue(previous, {")", "]", ">", ">>", ">>>"}))
  {
  }

  lemma CommentReady(line: string, done: seq<Token>, token: Token)
    requires IsComment(token)
    ensures Ready(line, done, token, TrimEnd(line) != "")
  {
    BlankLine(line);
  }

  /** A blank line is empty or ends on white space, and no other line does once it is trimmed. */
  lemma BlankLine(line: string)
    ensures TrimEnd(line) == "" ==> line == "" || IsSpaced(line)
    ensures TrimEnd(line) == line ==> !IsSpaced(line)
  {
    TrimmedOrSpaced(line);
  }

  // ---------------------------------------------------------- comments in the layout

  /** Operators written without a space before them that open a comment behind a slash. */
  const GLUED: set<string> := {"/", "*", "**", "**="}

  /** A slash and an operator that the layout writes straight behind it, to the effect of a comment. */
  predicate Glued(first: Token, second: Token) {
    IsSlash(first) && second.kind.Operator? && second.value in GLUED
  }

  ghost predicate NoGlue(tokens: seq<Token>) {
    forall i :: 0 <= i < |tokens| - 1 ==> !Glued(tokens[i], tokens[i + 1])
  }

  predicate LastSlash(tokens: seq<Token>) {
    tokens != [] && IsSlash(tokens[|tokens| - 1])
  }

  lemma NoGlueMore(tokens: seq<Token>, token: Token)
    ensures NoGlue(tokens + [token])
            <==> NoGlue(tokens) && !(LastSlash(tokens) && token.kind.Operator? && token.value in GLUED)
  {
    var longer := tokens + [token];
    assert forall i :: 0 <= i < |tokens| ==> longer[i] == tokens[i];
    if NoGlue(longer) {
      forall i | 0 <= i < |tokens| - 1 ensures !Glued(tokens[i], tokens[i + 1]) {
        assert !Glued(longer[i], longer[i + 1]);
      }
      if tokens != [] {
        assert !Glued(longer[|tokens| - 1], longer[|tokens|]);
      }
    }
  }

  /** Some character is marked as comment that should not be. */
  ghost predicate Differ(marks: seq<bool>, expected: seq<bool>) {
    exists k :: 0 <= k < |marks| && k < |expected| && marks[k] && !expected[k]
  }

  lemma DifferKept(p: Paint, s: string, expected: seq<bool>, more: seq<bool>)
    requires Differ(p.marks, expected)
    ensures Differ(Paints(p, s).marks, expected + more)
  {
    var k :| 0 <= k < |p.marks| && k < |expected| && p.marks[k] && !expected[k];
    MarksStay(p, s, k);
    assert !(expected + more)[k];
  }

  function PaintOf(lines: seq<string>, line: string): Paint {
    Paints(BLANK, Ended(lines) + line)
  }

  /**
   As long as no slash is glued, what is laid out has its comments where the tokens done are
   comments, and between tokens nothing is open but a slash; once one is, it has a comment
   too many for good.
   */
  ghost predicate Colored(lines: seq<string>, line: string, done: seq<Token>) {
    Tame(done) ==>
      var p := PaintOf(lines, TrimEnd(line));
      if NoGlue(done) then
        && p.marks == MarksOf(done)
        && (LastFinished(done) ==>
              && PaintOf(lines, "").mode.Code?
              && p.mode == if TrimEnd(line) != "" && LastSlash(done) then Slash else Code)
      else Differ(p.marks, MarksOf(done))
  }

  lemma ColoredStart()
    ensures Colored([], "", [])
  {
    assert Ended([]) + TrimEnd("") == "";
  }

  lemma ColoredTrim(lines: seq<string>, line: string, done: seq<Token>)
    requires Colored(lines, line, done)
    ensures Colored(lines, TrimEnd(line), done)
  {
    TrimEndTwice(line);
    hide TrimEnd;
  }

  lemma ColoredSpace(lines: seq<string>, line: string, done: seq<Token>)
    requires Colored(lines, line, done)
    ensures Colored(lines, line + " ", done)
  {
    TrimEndSpace(line);
    hide TrimEnd;
  }

  lemma ColoredCommit(lines: seq<string>, line: string, done: seq<Token>)
    requires Colored(lines, line, done)
    ensures Colored(if TrimEnd(line) == "" then lines else lines + [TrimEnd(line)], "", done)
  {
    TrimEndOfNothing();
    hide TrimEnd, Ended, MarksOf, Tame, LastFinished, NoGlue, Differ;
    if TrimEnd(line) != "" {
      var longer := lines + [TrimEnd(line)];
      EndedMore(lines, TrimEnd(line));
      PaintsConcat(BLANK, Ended(lines) + TrimEnd(line), "\n");
      assert Ended(longer) + "" == Ended(lines) + TrimEnd(line) + "\n";
      BreakSteadies(PaintOf(lines, TrimEnd(line)));
      BreakPaint(PaintOf(lines, TrimEnd(line)));
    }
  }

  lemma BreakPaint(p: Paint)
    ensures p.mode.Code? || p.mode.Slash? ==> Paints(p, "\n").mode.Code?
  {
    assert AllSpace("\n");
    PaintsSpace(p, "\n");
  }

  /** How the next token must be set apart from a slash before it. */
  ghost predicate Spacing(token: Token, spaced: bool, done: seq<Token>, line: string) {
    Behaves(token) && LastSlash(done) && token.value != "" && IsOpener(token.value[0]) ==>
      if token.value in GLUED then !spaced && line != "" && TrimEnd(line) == line else spaced
  }

  /** `room` is the line with white space added, a space at least if one is due. */
  ghost predicate Roomy(line: string, room: string, spaced: bool) {
    && line <= room && AllSpace(room[|line|..])
    && (spaced && TrimEnd(line) != "" ==> room != TrimEnd(line))
    && (!spaced && line != "" ==> room == line)
    && (spaced || line == "" || IsSpaced(line) ==> room == "" || IsSpaced(room))
  }

  lemma RoomMade(line: string, n: nat, spaced: bool)
    ensures var indented := if line == "" then line + Spaces(n) else line;
            Roomy(line, if spaced && TrimEnd(indented) != "" && !IsSpaced(indented) then indented + " " else indented, spaced)
  {
    var indented := if line == "" then line + Spaces(n) else line;
    TrimmedOrSpaced(line);
    TrimEndOfNothing();
    SpacesAreSpace(n);
    TrimEndBlank(indented);
    BlankLine(indented);
    SpacesSpaced(n);
    assert IsSpaced(indented + " ");
    hide TrimEnd, IsSpaced;
    if line == "" {
      assert indented == Spaces(n) && indented[0..] == indented;
    } else {
      assert line[|line|..] == "" && (line + " ")[|line|..] == " ";
    }
  }

  lemma SpacesSpaced(n: nat)
    ensures Spaces(n) == "" || IsSpaced(Spaces(n))
  {
  }

  lemma RoomSplit(line: string, room: string, spaced: bool)
    requires Roomy(line, room, spaced)
    ensures |TrimEnd(line)| <= |room| && room == TrimEnd(line) + room[|TrimEnd(line)|..]
    ensures AllSpace(room[|TrimEnd(line)|..])
  {
    TrimEndSplits(line);
    var body := TrimEnd(line);
    hide TrimEnd, IsSpace, StripWs;
    assert room[|body|..] == line[|body|..] + room[|line|..];
  }

  /** What white space at the end of the line does to the paint. */
  lemma RoomPaint(lines: seq<string>, line: string, room: string, spaced: bool)
    requires Roomy(line, room, spaced)
    ensures |TrimEnd(line)| <= |room|
    ensures var p := PaintOf(lines, TrimEnd(line));
            PaintOf(lines, room) == Paint(Rest(p.mode, room[|TrimEnd(line)|..]), p.marks)
    ensures room[|TrimEnd(line)|..] == "" <==> room == TrimEnd(line)
  {
    RoomSplit(line, room, spaced);
    hide TrimEnd, Paints, Ended, AllSpace, Roomy;
    var body := TrimEnd(line);
    var ws := room[|body|..];
    Associative(Ended(lines), body, ws);
    PaintsConcat(BLANK, Ended(lines) + body, ws);
    PaintsSpace(PaintOf(lines, body), ws);
  }

  /** A slash before the first character turns into the opening of a comment. */
  lemma OpeningDiffers(p: Paint, s: string, expected: seq<bool>, more: seq<bool>)
    requires p.mode.Slash? && p.marks == expected && expected != [] && !expected[|expected| - 1]
    requires s != "" && IsOpener(s[0])
    ensures Differ(Paints(p, s).marks, expected + more)
  {
    var k := |expected| - 1;
    SlashVisible();
    assert s == [s[0]] + s[1..];
    PaintsOne(p, s[0]);
    assert Stroke(p, s[0]).marks[k];
    assert Differ(Stroke(p, s[0]).marks, expected);
    PaintsConcat(p, [s[0]], s[1..]);
    DifferKept(Stroke(p, s[0]), s[1..], expected, more);
  }

  lemma SlashMarkIsFalse(done: seq<Token>)
    requires LastSlash(done)
    ensures MarksOf(done) != [] && !MarksOf(done)[|MarksOf(done)| - 1]
  {
    SlashPaints();
  }

  /** The visible part of a token is marked like the token. */
  lemma BodyPaint(token: Token)
    requires Sane(token) && Behaves(token)
    ensures var p := Paints(BLANK, TrimEnd(token.value));
            && p.marks == Same(|StripWs(token.value)|, IsComment(token))
            && (!IsComment(token) && Finished(token) ==> p.mode == ModeAfter(token))
            && (token.kind.LineComment? ==> p.mode.Line?)
  {
    TrimEndSplits(token.value);
    var body := TrimEnd(token.value);
    hide TrimEnd, StripWs;
    var ws := token.value[|body|..];
    PaintsConcat(BLANK, body, ws);
    PaintsSpace(Paints(BLANK, body), ws);
    assert token.value == body + ws;
    assert ws == "" ==> body == token.value;
  }

  lemma BodyStart(token: Token)
    requires Sane(token)
    ensures TrimEnd(token.value) != "" && TrimEnd(token.value)[0] == token.value[0]
  {
    TrimEndSplits(token.value);
    var body := TrimEnd(token.value);
    assert token.value[0] == (body + token.value[|body|..])[0];
  }

  /** The visible part of the token follows the line with its room. */
  lemma PutPaint(lines: seq<string>, room: string, token: Token)
    requires Sane(token)
    ensures TrimEnd(room + token.value) == room + TrimEnd(token.value) && TrimEnd(room + token.value) != ""
    ensures PaintOf(lines, TrimEnd(room + token.value)) == Paints(PaintOf(lines, room), TrimEnd(token.value))
  {
    BodyStart(token);
    TrimEndSplits(token.value);
    TrimEndConcat(room, token.value);
    var body := TrimEnd(token.value);
    hide TrimEnd, Ended;
    assert Ended(lines) + (room + body) == Ended(lines) + room + body;
    PaintsConcat(BLANK, Ended(lines) + room, body);
  }

  lemma GluedOpens(token: Token)
    ensures token.value in GLUED ==> token.value != "" && IsOpener(token.value[0])
  {
  }

  /** An ordinary token put at the end of a line with room. */
  lemma ColoredPut(lines: seq<string>, line: string, room: string, spaced: bool, done: seq<Token>, token: Token)
    requires Colored(lines, line, done) && Roomy(line, room, spaced) && Sane(token) && !IsComment(token)
    requires Spacing(token, spaced, done, line)
    ensures Colored(lines, room + token.value, done + [token])
  {
    TameMore(done, token);
    NoGlueMore(done, token);
    MarksOfMore(done, token);
    RoomPaint(lines, line, room, spaced);
    PutPaint(lines, room, token);
    BodyStart(token);
    GluedOpens(token);
    hide TrimEnd, StripWs, Tame, NoGlue, MarksOf, Paints, Ended, Sane, Differ, AllSpace, PaintOf, Same, LastFinished, Finished;
    if Tame(done) && LastFinished(done) && Behaves(token) {
      var body := TrimEnd(token.value);
      var p, q := PaintOf(lines, TrimEnd(line)), PaintOf(lines, room);
      var more := Same(|StripWs(token.value)|, false);
      if !NoGlue(done) {
        DifferKept(q, body, MarksOf(done), more);
      } else if q.mode.Slash? && IsOpener(token.value[0]) {
        assert p.mode.Slash? && room == TrimEnd(line);
        SlashMarkIsFalse(done);
        OpeningDiffers(q, body, MarksOf(done), more);
      } else {
        TokenPaints(q, body);
        BodyPaint(token);
      }
    }
  }

  /** A line comment behind the room ends its line. */
  lemma ColoredLineComment(lines: seq<string>, line: string, room: string, done: seq<Token>, token: Token)
    requires Colored(lines, line, done) && Roomy(line, room, TrimEnd(line) != "") && Sane(token) && token.kind.LineComment?
    ensures Colored(lines + [TrimEnd(room + token.value)], "", done + [token])
  {
    TameMore(done, token);
    NoGlueMore(done, token);
    MarksOfMore(done, token);
    RoomPaint(lines, line, room, TrimEnd(line) != "");
    PutPaint(lines, room, token);
    BodyStart(token);
    TrimEndOfNothing();
    LineAddedPaint(lines, TrimEnd(room + token.value));
    hide TrimEnd, StripWs, Tame, NoGlue, MarksOf, Paints, Ended, Sane, Differ, AllSpace, PaintOf, Same, LastFinished, Finished;
    if Tame(done) && LastFinished(done) && Behaves(token) {
      var body := TrimEnd(token.value);
      var p, q := PaintOf(lines, TrimEnd(line)), PaintOf(lines, room);
      var more := Same(|StripWs(token.value)|, true);
      if !NoGlue(done) {
        DifferKept(q, body, MarksOf(done), more);
      } else {
        assert q.mode.Code?;
        TokenPaints(q, body);
        BodyPaint(token);
      }
    }
  }

  /** Ending a line adds no mark and ends a line comment. */
  lemma LineAddedPaint(lines: seq<string>, value: string)
    ensures var p, q := PaintOf(lines, value), PaintOf(lines + [value], "");
            && q.marks == p.marks
            && (p.mode.Line? || p.mode.Code? || p.mode.Slash? ==> q.mode.Code?)
  {
    EndedMore(lines, value);
    assert Ended(lines + [value]) + "" == Ended(lines) + value + "\n";
    assert AllSpace("\n");
    hide Ended;
    PaintsConcat(BLANK, Ended(lines) + value, "\n");
    PaintsSpace(PaintOf(lines, value), "\n");
  }

  /** White space before the end of a line makes no difference. */
  lemma SpaceBreak(p: Paint, ws: string)
    requires AllSpace(ws)
    ensures Paints(Paints(p, ws), "\n") == Paints(p, "\n")
  {
    assert AllSpace("\n");
    PaintsSpace(p, ws);
    PaintsSpace(Paints(p, ws), "\n");
    PaintsSpace(p, "\n");
  }

  lemma PartBreak(p: Paint, part: string)
    ensures Paints(p, part + "\n") == Paints(Paints(p, TrimEnd(part)), "\n")
  {
    TrimEndSplits(part);
    var body := TrimEnd(part);
    hide TrimEnd, Paints;
    var ws := part[|body|..];
    PaintsConcat(p, part, "\n");
    PaintsConcat(p, body, ws);
    assert part == body + ws;
    SpaceBreak(Paints(p, body), ws);
  }

  lemma IndentedPaint(lines: seq<string>, n: nat, body: string)
    requires Steady(PaintOf(lines, "").mode)
    ensures PaintOf(lines + [Spaces(n) + body], "") == Paints(Paints(PaintOf(lines, ""), body), "\n")
  {
    var p, value := PaintOf(lines, ""), Spaces(n) + body;
    SpacesAreSpace(n);
    EndedMore(lines, value);
    hide Ended, Paints;
    assert Ended(lines + [value]) + "" == (Ended(lines) + "") + (Spaces(n) + (body + "\n"));
    PaintsConcat(BLANK, Ended(lines) + "", Spaces(n) + (body + "\n"));
    PaintsConcat(p, Spaces(n), body + "\n");
    PaintsSpace(p, Spaces(n));
    PaintsConcat(p, body, "\n");
  }

  /** One line of a block comment, re-indented. */
  lemma PartPaint(lines: seq<string>, n: nat, part: string)
    requires Steady(PaintOf(lines, "").mode)
    ensures var value := TrimEnd(Spaces(n) + TrimEnd(part));
            var after := if value == "" then lines else lines + [value];
            && PaintOf(after, "") == Paints(PaintOf(lines, ""), part + "\n")
            && Steady(PaintOf(after, "").mode)
  {
    var p, body := PaintOf(lines, ""), TrimEnd(part);
    hide TrimEnd, Ended, Paints, PaintOf, Spaces;
    PartBreak(p, part);
    PartValue(n, part);
    BreakSteadies(p);
    BreakSteadies(Paints(p, body));
    PaintsEmpty(p);
    if body != "" {
      IndentedPaint(lines, n, body);
      VisibleIndent(n, body);
    }
  }

  lemma LongerPaint(lines: seq<string>, after: seq<string>)
    requires Ended(lines) <= Ended(after)
    ensures PaintOf(after, "") == Paints(PaintOf(lines, ""), Ended(after)[|Ended(lines)|..])
  {
    hide Ended, Paints;
    var tail := Ended(after)[|Ended(lines)|..];
    assert Ended(after) + "" == (Ended(lines) + "") + tail;
    PaintsConcat(BLANK, Ended(lines) + "", tail);
  }

  /** Read from code, the lines of a block comment are all comment. */
  lemma BlockPaints(p: Paint, token: Token, parts: seq<string>)
    requires p.mode.Code? && token.kind.BlockComment? && Sane(token) && Behaves(token) && parts == Split(token.value, '\n')
    ensures var q := Paints(p, Ended(parts));
            q.marks == p.marks + Same(|StripWs(token.value)|, true) && (Finished(token) ==> q.mode.Code?)
  {
    PartsSpell(token, parts);
    FinishedBlock(token);
    BreakSteadies(Paints(p, token.value));
    hide Paints, Ended, Split, StripWs, Same, Behaves;
    TokenPaints(p, token.value);
    PaintsConcat(p, token.value, "\n");
  }

  lemma ColoredBlock(lines: seq<string>, line: string, done: seq<Token>, token: Token, parts: seq<string>, after: seq<string>)
    requires Colored(lines, line, done) && TrimEnd(line) == "" && token.kind.BlockComment? && Sane(token)
    requires parts == Split(token.value, '\n') && Ended(lines) <= Ended(after)
    requires Steady(PaintOf(lines, "").mode) ==> PaintOf(after, "") == Paints(PaintOf(lines, ""), Ended(parts))
    ensures Colored(after, "", done + [token])
  {
    TameMore(done, token);
    NoGlueMore(done, token);
    MarksOfMore(done, token);
    TrimEndOfNothing();
    hide TrimEnd, StripWs, Tame, NoGlue, MarksOf, Paints, Ended, Sane, Differ, Same, LastFinished, Finished, Split, PaintOf, Behaves;
    var p, more := PaintOf(lines, ""), Same(|StripWs(token.value)|, true);
    if Tame(done) && LastFinished(done) && Behaves(token) {
      if !NoGlue(done) {
        LongerPaint(lines, after);
        DifferKept(p, Ended(after)[|Ended(lines)|..], MarksOf(done), more);
      } else {
        BlockPaints(p, token, parts);
      }
    }
  }

  lemma FinishedBlock(token: Token)
    requires token.kind.BlockComment? && Behaves(token)
    ensures Paints(BLANK, token.value).marks == Same(|StripWs(token.value)|, true)
    ensures Finished(token) ==> Paints(BLANK, token.value).mode.Code?
  {
  }

  lemma PartsSpell(token: Token, parts: seq<string>)
    requires parts == Split(token.value, '\n')
    ensures Ended(parts) == token.value + "\n"
  {
    SplitParts(token.value, '\n');
    JoinOfSplit(token.value, '\n');
    EndedIsJoin(parts);
  }

  /** The final pass does not touch comments: behind one line feed another changes nothing. */
  lemma {:induction false} SqueezePaints(p: Paint, s: string)
    ensures Paints(p, Squeeze(s)) == Paints(p, s)
  {
    hide Stroke;
    if s != "" {
      var init, c := s[..|s| - 1], s[|s| - 1];
      SqueezePaints(p, init);
      var squeezed := Squeeze(init);
      if c == '\n' && EndsTwice(squeezed) {
        var head := squeezed[..|squeezed| - 1];
        assert squeezed == head + ['\n'];
        BreakTwice(p, head);
      } else {
        PaintsMore(p, squeezed, c);
      }
    }
  }

  lemma BreakTwice(p: Paint, head: string)
    ensures Stroke(Paints(p, head + ['\n']), '\n') == Paints(p, head + ['\n'])
  {
    PaintsMore(p, head, '\n');
    PaintsOne(Paints(p, head), '\n');
    PaintsOne(Paints(p, head + ['\n']), '\n');
    assert ['\n'] == "\n";
    hide Paints, Stroke;
    BreakSteadies(Paints(p, head));
    BreakSteadies(Paints(p, head + ['\n']));
  }

  /** What the result has as comments. */
  lemma OutMarks(out: string, lines: seq<string>, line: string, tokens: seq<Token>)
    requires Colored(lines, line, tokens) && TrimEnd(line) == ""
    requires out == if Ended(lines) == "" then "\n" else Squeeze(Ended(lines))
    ensures Tame(tokens) ==> (Marks(out) == MarksOf(tokens) <==> NoGlue(tokens))
  {
    var text := Ended(lines);
    assert text + "" == text;
    BreakSteadies(BLANK);
    hide Tame, NoGlue, MarksOf, Paints, Squeeze, Ended;
    PaintsEmpty(BLANK);
    SqueezePaints(BLANK, text);
    assert Marks(out) == Paints(BLANK, text).marks;
  }

  // ---------------------------------------------------------- the layout engine

  ghost predicate AllTrimmed(lines: seq<string>) {
    forall i :: 0 <= i < |lines| ==> lines[i] != "" && TrimEnd(lines[i]) == lines[i]
  }

  /** What comes after `start`, stripped. */
  ghost predicate Extends(text: string, start: string, stripped: string) {
    start <= text && StripWs(text[|start|..]) == stripped
  }

  class Layout {
    const indentSize: nat
    const language: string
    var lines: seq<string>
    var line: string
    var indent: nat
    var parenDepth: nat
    var bracketDepth: nat
    var annotationDepth: int
    var genericDepth: nat
    var previous: Option<Token>
    // The tokens laid out so far.
    ghost var done: seq<Token>

    /** What is laid out is the tokens done, and every ended line ends on a visible character. */
    ghost predicate Valid()
      reads `lines, `line, `done
    {
      && Weaves(false, Ended(lines) + line, done) && AllSane(done)
      && AllTrimmed(lines)
      && (done != [] && done[|done| - 1].kind.LineComment? ==> line == "")
      && (Smooth(done) ==> CalmText(lines, TrimEnd(line)))
      && (Smooth(done) && LastClosed(done) ==> CalmText(lines, line))
      && Colored(lines, line, done)
    }

    /** Behind a tight operator the line goes on and ends with it. */
    ghost predicate AtTight()
      reads `line, `done
    {
      LastTight(done) ==> line != "" && TrimEnd(line) == line
    }

    /** The token may come next. */
    ghost predicate Awaits(token: Token)
      reads `line, `done, `previous
    {
      && Loose(line, done, token)
      && (done != [] ==> previous == Some(done[|done| - 1]))
    }

    /** Whatever comes next may come next. */
    ghost predicate Leaves(next: Option<Token>)
      reads `line, `done
    {
      next.Some? ==> Loose(line, done, next.value)
    }

    constructor (size: nat, language: string)
      ensures Valid() && done == []
    {
      ColoredStart();
      indentSize, this.language := size, language;
      lines, line, indent, parenDepth, bracketDepth, annotationDepth, genericDepth := [], "", 0, 0, 0, -1, 0;
      previous, done := None, [];
    }

    method Commit()
      requires Valid()
      modifies `lines, `line
      ensures Valid() && line == ""
    {
      hide Weaves, AllSane, Smooth, LastClosed, CalmText, Ended, Colored;
      CommitKeeps(lines, line, done);
      ColoredCommit(lines, line, done);
      assert forall l: seq<string> :: Ended(l) + "" == Ended(l);
      TrimEndTwice(line);
      TrimEndOfNothing();
      if Smooth(done) {
        CalmCommit(lines, TrimEnd(line));
      }
      var value := TrimEnd(line);
      hide TrimEnd;
      if value != "" {
        lines := lines + [value];
      }
      line := "";
    }

    method TrimLine()
      requires Valid()
      modifies `line
      ensures Valid() && TrimEnd(line) == line && (old(line) == "" ==> line == "")
    {
      hide Weaves, AllSane, Smooth, LastClosed, CalmText, Ended, Colored;
      TrimKeeps(Ended(lines), line, done);
      ColoredTrim(lines, line, done);
      TrimEndTwice(line);
      hide TrimEnd;
      TrimEndOfNothing();
      line := TrimEnd(line);
    }

    /** Start the line if it is empty, and put a space before what follows if one is due. */
    method MakeRoom(spaced: bool)
      requires Valid()
      modifies `line
      ensures Weaves(false, Ended(lines) + line, done)
      ensures Smooth(done) && LastClosed(done) ==> CalmText(lines, line)
      ensures Roomy(old(line), line, spaced)
    {
      hide Weaves, AllSane, Smooth, LastClosed, CalmText, Ended, TrimEnd, IsSpace, Colored, Roomy, Spaces;
      ghost var start := line;
      SpacesAreSpace(indent * indentSize);
      NoTripleSpaces(indent * indentSize);
      RoomMade(line, indent * indentSize, spaced);
      if line == "" {
        SpaceKeeps(Ended(lines), line, Spaces(indent * indentSize), done);
        if Smooth(done) && LastClosed(done) {
          CalmAppend(lines, line, Spaces(indent * indentSize));
        }
        line := line + Spaces(indent * indentSize);
      }
      if spaced && TrimEnd(line) != "" && !IsSpaced(line) {
        SpaceKeeps(Ended(lines), line, " ", done);
        if Smooth(done) && LastClosed(done) {
          CalmAppend(lines, line, " ");
        }
        line := line + " ";
      }
    }

    /** `append` for an ordinary token. */
    method Put(token: Token, spaced: bool)
      requires Valid() && Sane(token)
      requires !token.kind.LineComment? && !token.kind.BlockComment? && Spacing(token, spaced, done, line)
      requires Ready(line, done, token, spaced)
      modifies `line, `done
      ensures Valid() && done == old(done) + [token]
      ensures TrimEnd(token.value) == token.value ==> line != "" && TrimEnd(line) == line
    {
      hide Weaves, AllSane, Sane, Smooth, LastClosed, CalmText, Ended, TrimEnd, Colored, Roomy, Spacing, PaintOf, Ready, Divides;
      ghost var start := line;
      MakeRoom(spaced);
      RoomDivides(lines, start, line, spaced, done, token);
      ColoredPut(lines, start, line, spaced, done, token);
      PutPaint(lines, line, token);
      PutKeeps(Ended(lines), line, done, token);
      SmoothMore(done, token);
      if Smooth(done) && LastClosed(done) && Calm(token) {
        PutCalm(lines, line, token);
      }
      line := line + token.value;
      done := done + [token];
    }

    /** A space after an ordinary token. */
    method Gap()
      requires Valid() && done != [] && !done[|done| - 1].kind.LineComment?
      modifies `line
      ensures Valid() && IsSpaced(line)
    {
      hide Weaves, AllSane, Smooth, LastClosed, CalmText, Ended, TrimEnd, Colored;
      SpacesAreSpace(0);
      NoTripleSpaces(0);
      SpaceKeeps(Ended(lines), line, " ", done);
      TrimEndSpace(line);
      ColoredSpace(lines, line, done);
      if Smooth(done) && LastClosed(done) {
        CalmAppend(lines, line, " ");
      }
      line := line + " ";
    }

    method PutLineComment(token: Token)
      requires Valid() && Sane(token) && token.kind.LineComment?
      modifies `lines, `line, `done
      ensures Valid() && done == old(done) + [token] && line == ""
    {
      hide Weaves, AllSane, Smooth, LastClosed, CalmText, Ended, TrimEnd, Colored, Roomy, Ready, Divides;
      ghost var start := line;
      CommentReady(line, done, token);
      MakeRoom(TrimEnd(line) != "");
      RoomDivides(lines, start, line, TrimEnd(start) != "", done, token);
      ColoredLineComment(lines, start, line, done, token);
      LineCommentKeeps(lines, line, done, token);
      SmoothMore(done, token);
      TrimEndOfNothing();
      if Smooth(done) && LastClosed(done) && Calm(token) {
        PutCalm(lines, line, token);
        TrimEndTwice(line + token.value);
        CalmCommit(lines, TrimEnd(line + token.value));
      }
      hide Sane, Calm, Closed;
      line := line + token.value;
      TrimEndTwice(line);
      lines := lines + [TrimEnd(line)];
      line := "";
      assert Ended(lines) + "" == Ended(lines);
      done := done + [token];
    }

    /** Every part of a block comment becomes a line with the current indentation, unless it is blank. */
    method PutParts(parts: seq<string>)
      requires forall i :: 0 <= i < |parts| ==> '\n' !in parts[i]
      requires AllTrimmed(lines)
      modifies `lines, `line
      ensures parts != [] ==> line == ""
      ensures Extends(Ended(lines), old(Ended(lines)), StripAll(parts)) && AllTrimmed(lines)
      ensures Ended(lines) == old(Ended(lines)) + Reflow(parts, indent * indentSize)
      ensures old(CalmText(lines, "")) ==> CalmText(lines, "")
      ensures Steady(old(PaintOf(lines, "")).mode) ==> PaintOf(lines, "") == Paints(old(PaintOf(lines, "")), Ended(parts))
    {
      ghost var start := Ended(lines);
      ghost var p := PaintOf(lines, "");
      NoParts(p, parts);
      hide CalmText, Ended, TrimEnd, StripWs, AllTrimmed, PaintOf, Paints, Steady, Reflow;
      ExtendsNothing(start);
      assert start + Reflow([], indent * indentSize) == start by {
        NoLines(start, indent * indentSize);
      }
      for i := 0 to |parts|
        invariant i > 0 ==> line == ""
        invariant Extends(Ended(lines), start, StripAll(parts[..i])) && AllTrimmed(lines)
        invariant Ended(lines) == start + Reflow(parts[..i], indent * indentSize)
        invariant old(CalmText(lines, "")) ==> CalmText(lines, "")
        invariant Steady(p.mode) ==> Steady(PaintOf(lines, "").mode) && PaintOf(lines, "") == Paints(p, Ended(parts[..i]))
      {
        line := Spaces(indent * indentSize) + TrimEnd(parts[i]);
        PartEnded(lines, indent * indentSize, parts[i]);
        if Steady(p.mode) {
          PartPaint(lines, indent * indentSize, parts[i]);
          PartsMore(p, parts, i);
        }
        var value := TrimEnd(line);
        ghost var before := Ended(lines);
        if value != "" {
          EndedMore(lines, value);
          lines := lines + [value];
        }
        line := "";
        ExtendsMore(start, before, Ended(lines), StripAll(parts[..i]), StripWs(parts[i]));
        StripAllMore(parts[..i], parts[i]);
        LineReflows(start, before, lines, parts[..i], parts[i], indent * indentSize);
        assert parts[..i + 1] == parts[..i] + [parts[i]];
      }
      assert parts[..|parts|] == parts;
    }

    method PutBlockComment(token: Token)
      requires Valid() && Sane(token) && token.kind.BlockComment?
      modifies `lines, `line, `done
      ensures Valid() && done == old(done) + [token] && line == ""
    {
      hide Weaves, AllSane, Sane, Smooth, LastClosed, CalmText, Ended, Calm, Closed, Colored, PaintOf, Paints, Steady, Reflow;
      assert forall l: seq<string> :: Ended(l) + "" == Ended(l);
      TrimEndOfNothing();
      if TrimEnd(line) != "" {
        Commit();
      }
      CommitKeeps(lines, line, done);
      EndedSpaced(lines);
      hide TrimEnd;
      ghost var start, above, rest := Ended(lines), lines, line;
      var parts := Split(token.value, '\n');
      BlockParts(token, parts);
      PutParts(parts);
      ColoredBlock(above, rest, done, token, parts, lines);
      BlockShows(start, parts, indent * indentSize, done, token);
      SaneMore(done, token);
      SmoothMore(done, token);
      done := done + [token];
    }

    // -------------------------------------------------------- one branch per token

    method PutWord(token: Token, next: Option<Token>)
      requires Valid() && Sane(token) && token.kind in {Word, Number, Literal} && Awaits(token)
      modifies this
      ensures Valid() && done == old(done) + [token] && Leaves(next)
    {
      hide Weaves, AllSane, Smooth, LastClosed, CalmText, Sane, Colored, Behaves, Loose, Ready, TrimEnd, IsSpace;
      BehavedStart(token);
      var annotationName := HasValue(previous, {"@"});
      ghost var before := done;
      WordReady(line, done, token, previous);
      Put(token, IsWordLike(previous) || HasValue(previous, {")", "]", ">", ">>", ">>>"}));
      if annotationName && !HasValue(next, {"("}) {
        annotationDepth := -1;
        Commit();
      }
      if next.Some? {
        NoGap(line, before, token, next.value);
      }
    }

    method CloseBrace(token: Token, next: Option<Token>)
      requires Valid() && Sane(token) && IsMark(token) && token.value == "}"
      modifies this
      ensures Valid() && done == old(done) + [token] && Leaves(next)
    {
      hide Weaves, AllSane, Smooth, LastClosed, CalmText, Sane, Colored, Behaves, Loose, Ready, Fresh;
      ghost var before := done;
      if TrimEnd(line) != "" {
        Commit();
      }
      indent := if indent > 0 then indent - 1 else 0;
      BraceReady(line, done, token);
      Put(token, false);
      if next.Some? {
        BraceLeaves(line, before, token, next.value);
      }
      if HasValue(next, {";", ",", ")", "]"}) {
        return;
      }
      if next.Some? && next.value.kind.Word? && next.value.value in JOIN_AFTER_BRACE {
        Gap();
        BraceLeaves(line, before, token, next.value);
        return;
      }
      Commit();
      if next.Some? {
        GapLeft(line, before, token, next.value);
      }
    }

    method CloseParen(token: Token, next: Option<Token>)
      requires Valid() && Sane(token) && IsMark(token) && token.value == ")" && Fresh(line, done, token)
      modifies this
      ensures Valid() && done == old(done) + [token] && Leaves(next)
    {
      hide Weaves, AllSane, Smooth, LastClosed, CalmText, Sane, Colored, Behaves, Loose, Ready, TrimEnd, IsSpace;
      ghost var before := done;
      TrimLine();
      MarkReady(line, done, token, false);
      hide Fresh;
      Put(token, false);
      parenDepth := if parenDepth > 0 then parenDepth - 1 else 0;
      if annotationDepth == parenDepth && next.Some? && !HasValue(next, {".", "::"}) {
        annotationDepth := -1;
        Commit();
      }
      if next.Some? {
        NoGap(line, before, token, next.value);
      }
    }

    method Less(token: Token, next: Option<Token>)
      requires Valid() && Sane(token) && IsMark(token) && token.value == "<" && Fresh(line, done, token)
      modifies this
      ensures Valid() && done == old(done) + [token] && Leaves(next)
    {
      hide Weaves, AllSane, Smooth, LastClosed, CalmText, Sane, Colored, Behaves, Loose, Ready, TrimEnd, IsSpace;
      ghost var before := done;
      var named := previous.Some? && previous.value.kind.Word? && previous.value.value != ""
                   && ('A' <= previous.value.value[0] <= 'Z' || previous.value.value[0] in {'_', '$'});
      var generic := named || (genericDepth > 0 && HasValue(previous, {",", "?", "extends", "super"}));
      TrimLine();
      MarkReady(line, done, token, !generic);
      hide Fresh;
      if generic {
        Put(token, false);
        genericDepth := genericDepth + 1;
      } else {
        Put(token, true);
        Gap();
      }
      if next.Some? {
        NoGap(line, before, token, next.value);
      }
    }

    method Greater(token: Token, next: Option<Token>)
      requires Valid() && Sane(token) && IsMark(token) && token.value == ">" && Fresh(line, done, token)
      modifies this
      ensures Valid() && done == old(done) + [token] && Leaves(next)
    {
      hide Weaves, AllSane, Smooth, LastClosed, CalmText, Sane, Colored, Behaves, Loose, Ready, TrimEnd, IsSpace;
      ghost var before := done;
      TrimLine();
      MarkReady(line, done, token, genericDepth == 0);
      hide Fresh;
      if genericDepth > 0 {
        Put(token, false);
        genericDepth := genericDepth - 1;
      } else {
        Put(token, true);
        Gap();
      }
      if next.Some? {
        NoGap(line, before, token, next.value);
      }
    }

    /** Glue the token to what stands before it, and put a space behind it if one is due. */
    method Glue(token: Token, spaced: bool, gap: bool, next: Option<Token>)
      requires Valid() && Sane(token) && IsMark(token) && Fresh(line, done, token)
      requires token.value !in {"{", "}", "@", ";"} && !IsTight(token)
      requires IsSpread(token) ==> spaced && gap
      requires token.value in {",", ":"} ==> gap
      requires Behaves(token) ==> Unslashed(token) || (spaced && token.value !in GLUED)
      modifies this
      ensures Valid() && done == old(done) + [token] && Leaves(next)
    {
      hide Weaves, AllSane, Smooth, LastClosed, CalmText, Sane, Colored, Behaves, Loose, Ready, TrimEnd, IsSpace;
      ghost var before := done;
      TrimLine();
      MarkReady(line, done, token, spaced);
      Put(token, spaced);
      if gap {
        Gap();
      }
      if next.Some? {
        GlueLeaves(line, before, token, next.value, gap);
      }
    }

    method PutOperator(token: Token, next: Option<Token>)
      requires Valid() && Sane(token) && token.kind.Operator? && Fresh(line, done, token) && AtTight()
      requires token.value !in {"@", "{", "}", ";", "(", ")", "[", "]", "<", ">", ",", ".", "?.", "::", ":"}
      modifies this
      ensures Valid() && done == old(done) + [token] && Leaves(next)
      ensures AtTight()
    {
      hide Weaves, AllSane, Smooth, LastClosed, CalmText, Sane, Colored, Behaves, Loose, Ready, TrimEnd;
      ghost var before := done;
      BehavedStart(token);
      OperatorKinds(token);
      SlashTrimmed();
      hide IsTight, IsSpread, SPREAD, TIGHT, SLASHED, Fresh;
      if token.value in {">>", ">>>"} && genericDepth > 0 {
        Glue(token, false, false, next);
        genericDepth := if genericDepth > |token.value| then genericDepth - |token.value| else 0;
      } else if token.value in {"->", "=>", "=", "==", "!=", "<=", ">=", "&&", "||", "+=", "-=", "*=", "/=", "%="} {
        Glue(token, true, true, next);
      } else {
        MarkReady(line, done, token, false);
        Put(token, false);
        if next.Some? {
          NoGap(line, before, token, next.value);
        }
      }
      if IsTight(token) {
        TightTrimmed(token);
      }
    }

    method PutOpening(token: Token, next: Option<Token>)
      requires Valid() && Sane(token) && IsMark(token) && token.value in {"(", "["} && Fresh(line, done, token)
      modifies this
      ensures Valid() && done == old(done) + [token] && Leaves(next)
    {
      hide Weaves, AllSane, Smooth, LastClosed, CalmText, Sane, Colored, Behaves, Loose, Ready, TrimEnd;
      ghost var before := done;
      var control := token.value == "(" && previous.Some? && previous.value.kind.Word? && previous.value.value in CONTROL_WORDS;
      MarkReady(line, done, token, control);
      hide Fresh;
      Put(token, control);
      if token.value == "(" {
        parenDepth := parenDepth + 1;
      } else {
        bracketDepth := bracketDepth + 1;
      }
      if next.Some? {
        NoGap(line, before, token, next.value);
      }
    }

    method CloseBracket(token: Token, next: Option<Token>)
      requires Valid() && Sane(token) && IsMark(token) && token.value == "]" && Fresh(line, done, token)
      modifies this
      ensures Valid() && done == old(done) + [token] && Leaves(next)
    {
      hide Weaves, AllSane, Smooth, LastClosed, CalmText, Sane, Colored, Behaves, Loose, Ready, TrimEnd;
      ghost var before := done;
      TrimLine();
      MarkReady(line, done, token, false);
      hide Fresh;
      Put(token, false);
      bracketDepth := if bracketDepth > 0 then bracketDepth - 1 else 0;
      if next.Some? {
        NoGap(line, before, token, next.value);
      }
    }

    method PutAnnotation(token: Token, next: Option<Token>)
      requires Valid() && Sane(token) && IsMark(token) && token.value == "@" && Fresh(line, done, token)
      modifies this
      ensures Valid() && done == old(done) + [token] && Leaves(next)
    {
      hide Weaves, AllSane, Smooth, LastClosed, CalmText, Sane, Colored, Behaves, Loose, Ready, TrimEnd, IsSpace;
      ghost var before := done;
      TrimEndOfNothing();
      if TrimEnd(line) != "" {
        Commit();
      }
      MarkReady(line, done, token, false);
      hide Fresh;
      Put(token, false);
      annotationDepth := parenDepth;
      if next.Some? {
        NoGap(line, before, token, next.value);
      }
    }

    method OpenBrace(token: Token, next: Option<Token>)
      requires Valid() && Sane(token) && IsMark(token) && token.value == "{" && Fresh(line, done, token)
      modifies this
      ensures Valid() && done == old(done) + [token] && Leaves(next)
    {
      hide Weaves, AllSane, Smooth, LastClosed, CalmText, Sane, Colored, Behaves, Loose, Ready, TrimEnd, IsSpace;
      ghost var before := done;
      var spaced := TrimEnd(line) != "" && !EndsOpen(line);
      MarkReady(line, done, token, spaced);
      hide Fresh;
      Put(token, spaced);
      Commit();
      indent := indent + 1;
      if next.Some? {
        GapLeft(line, before, token, next.value);
      }
    }

    method PutSemicolon(token: Token, next: Option<Token>)
      requires Valid() && Sane(token) && IsMark(token) && token.value == ";" && Fresh(line, done, token)
      modifies this
      ensures Valid() && done == old(done) + [token] && Leaves(next)
    {
      hide Weaves, AllSane, Smooth, LastClosed, CalmText, Sane, Colored, Behaves, Loose, Ready, TrimEnd, IsSpace;
      ghost var before := done;
      MarkReady(line, done, token, false);
      hide Fresh;
      Put(token, false);
      if parenDepth == 0 {
        Commit();
      } else {
        Gap();
      }
      if next.Some? {
        GapLeft(line, before, token, next.value);
      }
    }

    method PutMark(token: Token, next: Option<Token>)
      requires Valid() && Sane(token) && IsMark(token)
      requires AtTight() && Awaits(token)
      modifies this
      ensures Valid() && done == old(done) + [token] && Leaves(next)
      ensures AtTight()
    {
      hide Weaves, AllSane, Smooth, LastClosed, CalmText, Sane, Colored, Behaves, Ready;
      ghost var before := done;
      assert Fresh(line, done, token);
      hide Loose, Fresh;
      BehavedStart(token);
      if IsTight(token) {
        TightTrimmed(token);
      }
      if token.value == "@" {
        PutAnnotation(token, next);
      } else if token.value == "{" {
        OpenBrace(token, next);
      } else if token.value == ";" {
        PutSemicolon(token, next);
      } else if token.value == "}" {
        CloseBrace(token, next);
      } else if token.value in {"(", "["} {
        PutOpening(token, next);
      } else if token.value == ")" {
        CloseParen(token, next);
      } else if token.value == "]" {
        CloseBracket(token, next);
      } else if token.value == "<" {
        Less(token, next);
      } else if token.value == ">" {
        Greater(token, next);
      } else if token.value == "," {
        Glue(token, false, true, next);
      } else if token.value == "." || token.value == "?." || token.value == "::" {
        Glue(token, false, false, next);
      } else if token.value == ":" {
        Glue(token, language == "Java" && parenDepth > 0, true, next);
      } else if token.kind.Operator? {
        PutOperator(token, next);
      } else {
        PlainReady(line, done, token);
        Put(token, false);
        if next.Some? {
          NoGap(line, before, token, next.value);
        }
      }
    }

    method Emit(token: Token, next: Option<Token>)
      requires Valid() && Sane(token) && AtTight() && Awaits(token)
      modifies this
      ensures Valid() && done == old(done) + [token] && AtTight() && previous == Some(token) && Leaves(next)
    {
      hide Weaves, AllSane, Smooth, LastClosed, CalmText, Sane, Colored, Behaves, Loose;
      ghost var before := done;
      match token.kind {
        case LineComment => PutLineComment(token);
        case BlockComment => PutBlockComment(token);
        case Word => PutWord(token, next);
        case Number => PutWord(token, next);
        case Literal => PutWord(token, next);
        case Operator => PutMark(token, next);
        case Punctuation => PutMark(token, next);
      }
      if next.Some? && IsComment(token) {
        GapLeft(line, before, token, next.value);
      }
      previous := Some(token);
    }
  }

  lemma BraceReady(line: string, done: seq<Token>, token: Token)
    requires IsMark(token) && token.value == "}" && TrimEnd(line) == ""
    ensures Ready(line, done, token, false)
  {
    BlankLine(line);
  }

  lemma BraceLeaves(line: string, done: seq<Token>, token: Token, next: Token)
    requires token.value == "}" && IsMark(token)
    ensures next.value in {";", ",", ")", "]"} ==> Loose(line, done + [token], next)
    ensures IsSpaced(line) && next.kind.Word? && next.value in JOIN_AFTER_BRACE ==> Loose(line, done + [token], next)
  {
  }

  lemma GlueLeaves(line: string, done: seq<Token>, token: Token, next: Token, gap: bool)
    requires IsMark(token) && token.value !in {"{", "}", ";"} && (gap ==> IsSpaced(line))
    requires IsSpread(token) || token.value in {",", ":"} ==> gap
    ensures Loose(line, done + [token], next)
  {
  }

  lemma PlainReady(line: string, done: seq<Token>, token: Token)
    requires token.kind.Punctuation? && token.value !in {"@", "}"} && Fresh(line, done, token)
    ensures Ready(line, done, token, false)
  {
  }

  /** The token does not start like a comment. */
  predicate Unslashed(token: Token) {
    token.value != "" ==> !IsOpener(token.value[0])
  }

  lemma BehavedStart(token: Token)
    requires !IsComment(token)
    ensures Behaves(token) ==> Unslashed(token) || (token.kind.Operator? && token.value in SLASHED)
  {
  }

  lemma SlashTrimmed()
    ensures TrimEnd("/") == "/"
  {
    SlashVisible();
  }

  lemma NoParts(p: Paint, parts: seq<string>)
    ensures Paints(p, Ended(parts[..0])) == p
  {
    PaintsEmpty(p);
  }

  lemma PartsMore(p: Paint, parts: seq<string>, i: nat)
    requires i < |parts|
    ensures Paints(p, Ended(parts[..i + 1])) == Paints(Paints(p, Ended(parts[..i])), parts[i] + "\n")
  {
    assert parts[..i + 1] == parts[..i] + [parts[i]];
    EndedMore(parts[..i], parts[i]);
    assert Ended(parts[..i + 1]) == Ended(parts[..i]) + (parts[i] + "\n");
    hide Ended, Paints;
    PaintsConcat(p, Ended(parts[..i]), parts[i] + "\n");
  }

  /** A token whose shown part is calm may stand at the end of a calm line. */
  lemma PutCalm(lines: seq<string>, line: string, token: Token)
    requires CalmText(lines, line) && Sane(token) && Calm(token) && !token.kind.BlockComment?
    ensures CalmText(lines, TrimEnd(line + token.value))
    ensures Closed(token) && !token.kind.LineComment? ==> CalmText(lines, line + token.value)
  {
    TrimEndSplits(token.value);
    var body := TrimEnd(token.value);
    assert token.value[0] == (body + token.value[|body|..])[0];
    assert !AllSpace(token.value);
    hide CalmText, TrimEnd, Ended, Sane;
    TrimEndConcat(line, token.value);
    SaneStart(token);
    CalmAppend(lines, line, body);
  }

  lemma TrimEndSpace(line: string)
    ensures TrimEnd(line + " ") == TrimEnd(line)
  {
    assert (line + " ")[..|line|] == line;
  }

  lemma PartLine(n: nat, part: string)
    requires '\n' !in part
    ensures var line := Spaces(n) + TrimEnd(part);
            NoTriple(line) && (line != "" ==> line[0] != '\n') && StripWs(line) == StripWs(part)
  {
    TrimEndSplits(part);
    var body := TrimEnd(part);
    hide TrimEnd;
    assert forall i :: 0 <= i < |body| ==> body[i] == part[i];
    NoTripleWithout(Spaces(n) + body);
    SpacesAreSpace(n);
    StripSpace(Spaces(n));
    StripConcat(Spaces(n), body);
    assert "" + StripWs(body) == StripWs(body);
  }

  lemma PartCalm(lines: seq<string>, n: nat, part: string)
    requires '\n' !in part && CalmText(lines, "")
    ensures var value := TrimEnd(Spaces(n) + TrimEnd(part));
            CalmText(if value == "" then lines else lines + [value], "")
  {
    hide TrimEnd, Ended, StripWs;
    var line := Spaces(n) + TrimEnd(part);
    PartLine(n, part);
    CalmAppend(lines, "", line);
    assert "" + line == line;
    hide CalmText;
    CalmCommit(lines, line);
  }

  lemma LineAdded(lines: seq<string>, value: string)
    ensures Extends(Ended(lines + [value]), Ended(lines), StripWs(value))
  {
    hide Ended, StripWs;
    EndedMore(lines, value);
    SpacesAreSpace(0);
    StripSpace("\n");
    StripConcat(value, "\n");
    assert StripWs(value) + "" == StripWs(value);
    var ended := Ended(lines + [value]);
    assert ended == Ended(lines) + (value + "\n");
    assert ended[|Ended(lines)|..] == value + "\n";
  }

  lemma PartEnded(lines: seq<string>, n: nat, part: string)
    requires '\n' !in part && AllTrimmed(lines)
    ensures var value := TrimEnd(Spaces(n) + TrimEnd(part));
            var after := if value == "" then lines else lines + [value];
            && AllTrimmed(after) && Extends(Ended(after), Ended(lines), StripWs(part))
            && (CalmText(lines, "") ==> CalmText(after, ""))
  {
    var line := Spaces(n) + TrimEnd(part);
    PartLine(n, part);
    TrimEndTwice(line);
    TrimEndSplits(line);
    hide StripWs, IsSpace, TrimEnd, Ended, CalmText;
    if CalmText(lines, "") {
      PartCalm(lines, n, part);
    }
    var value := TrimEnd(line);
    if value != "" {
      LineAdded(lines, value);
    } else {
      StripSpace("");
      SpacesAreSpace(0);
      assert Ended(lines)[|Ended(lines)|..] == "";
    }
  }

  lemma ExtendsNothing(start: string)
    ensures Extends(start, start, StripAll([]))
  {
    assert start[|start|..] == "";
    StripSpace("");
  }

  lemma ExtendsMore(start: string, middle: string, end: string, a: string, b: string)
    requires Extends(middle, start, a) && Extends(end, middle, b)
    ensures Extends(end, start, a + b)
  {
    var x, y := middle[|start|..], end[|middle|..];
    StripConcat(x, y);
    assert end[|start|..] == x + y;
  }

  lemma BlockParts(token: Token, parts: seq<string>)
    requires parts == Split(token.value, '\n')
    ensures parts != [] && StripAll(parts) == StripWs(token.value)
    ensures forall i :: 0 <= i < |parts| ==> '\n' !in parts[i]
  {
    SplitParts(token.value, '\n');
    JoinOfSplit(token.value, '\n');
    StripJoin(parts);
  }

  lemma NoLines(start: string, n: nat)
    ensures start + Reflow([], n) == start
  {
  }

  lemma LineReflows(start: string, before: string, after: seq<string>, parts: seq<string>, part: string, n: nat)
    requires before == start + Reflow(parts, n)
    requires var value := TrimEnd(Spaces(n) + TrimEnd(part));
             Ended(after) == if value == "" then before else before + value + "\n"
    ensures Ended(after) == start + Reflow(parts + [part], n)
  {
    ReflowMore(parts, part, n);
    hide Ended, Reflow, TrimEnd, Spaces;
    assert start + Reflow(parts, n) + "" == start + Reflow(parts, n);
    Associative(start, Reflow(parts, n), Reline(part, n));
    if Reline(part, n) != "" {
      var value := TrimEnd(Spaces(n) + TrimEnd(part));
      assert before + value + "\n" == before + (value + "\n");
    }
  }

  /** The lines of a block comment show it. */
  lemma BlockShows(start: string, parts: seq<string>, n: nat, tokens: seq<Token>, token: Token)
    requires token.kind.BlockComment? && Weaves(false, start, tokens) && (start == "" || IsSpaced(start))
    requires parts == Split(token.value, '\n')
    ensures Weaves(false, start + Reflow(parts, n), tokens + [token])
  {
    var text := Reflow(parts, n);
    SpacesSpaced(n);
    SpacesAreSpace(n);
    var lead, shown := "", text;
    if IsBlock(token.value) {
      BlockReflows(token.value, n);
      lead, shown := text[..n], text[n..];
    } else {
      JoinOfSplit(token.value, '\n');
      StripJoin(parts);
      StripReflow(parts, n);
    }
    assert text == lead + shown;
    hide Weaves, Reflow, Reindents, IsBlock, Split, Spaces, IsSpace;
    WeaveSpace(false, start, lead, tokens);
    LeadDivides(start, lead, tokens, token);
    assert Shows(false, shown, token);
    hide Shows;
    WeaveToken(false, start + lead, shown, tokens, token);
    Associative(start, lead, shown);
  }

  lemma LeadDivides(start: string, lead: string, tokens: seq<Token>, token: Token)
    requires IsComment(token) && (start == "" || IsSpaced(start)) && (lead == "" || IsSpaced(lead))
    ensures Divides(start + lead, tokens + [token])
  {
    hide IsSpace, SetApart;
    assert lead == "" ==> start + lead == start;
    assert lead != "" ==> (start + lead)[|start + lead| - 1] == lead[|lead| - 1];
  }

  lemma SaneStart(token: Token)
    requires Sane(token)
    ensures token.value != "" && token.value[0] != '\n'
  {
  }

  lemma AllCalmMore(tokens: seq<Token>, token: Token)
    ensures AllCalm(tokens + [token]) <==> AllCalm(tokens) && Calm(token)
  {
    hide Calm;
    if AllCalm(tokens + [token]) {
      assert Calm((tokens + [token])[|tokens|]);
      assert forall i :: 0 <= i < |tokens| ==> (tokens + [token])[i] == tokens[i];
    }
  }

  // ---------------------------------------------------------- the final pass

  predicate EndsTwice(s: string) {
    |s| >= 2 && s[|s| - 1] == '\n' && s[|s| - 2] == '\n'
  }

  /** `replace(/\n{3,}/g, "\n\n")`: of every run of line feeds at most two stay. */
  function Squeeze(s: string): string {
    if s == "" then ""
    else
      var init := Squeeze(s[..|s| - 1]);
      if s[|s| - 1] == '\n' && EndsTwice(init) then init else init + [s[|s| - 1]]
  }

  lemma {:induction false} SqueezeFacts(s: string)
    ensures StripWs(Squeeze(s)) == StripWs(s) && NoTriple(Squeeze(s))
    ensures s != "" ==> Squeeze(s) != "" && Squeeze(s)[0] == s[0] && Squeeze(s)[|Squeeze(s)| - 1] == s[|s| - 1]
  {
    if s != "" {
      var init, c := s[..|s| - 1], s[|s| - 1];
      SqueezeFacts(init);
      assert s == init + [c];
      StripConcat(Squeeze(init), [c]);
      StripConcat(init, [c]);
      StripOne(c);
      assert StripWs(init) + "" == StripWs(init);
      if !(c == '\n' && EndsTwice(Squeeze(init))) {
        SqueezeStep(Squeeze(init), c);
      }
    }
  }

  lemma StripOne(c: char)
    ensures c == '\n' ==> StripWs([c]) == ""
  {
    assert [c][..0] == "";
  }

  lemma SqueezeStep(init: string, c: char)
    requires NoTriple(init) && !(c == '\n' && EndsTwice(init))
    ensures NoTriple(init + [c])
  {
    forall i: nat ensures !TripleAt(init + [c], i) {
      assert !TripleAt(init, i);
    }
  }

  /** The pass changes a text exactly when there is something to squeeze. */
  lemma {:induction false} SqueezeIdentity(s: string)
    requires NoTriple(s)
    ensures Squeeze(s) == s
  {
    if s != "" {
      var init := s[..|s| - 1];
      NoTriplePrefix(s, |s| - 1);
      SqueezeIdentity(init);
      assert s == init + [s[|s| - 1]];
      if s[|s| - 1] == '\n' && EndsTwice(init) {
        assert TripleAt(s, |s| - 3);
      }
    }
  }

  /** Runs of line feeds on the two sides of a visible character do not meet. */
  lemma {:induction false} SqueezeConcat(a: string, b: string)
    requires a != "" && a[|a| - 1] != '\n'
    ensures Squeeze(a + b) == Squeeze(a) + Squeeze(b)
    decreases |b|
  {
    SqueezeFacts(a);
    if b == "" {
      assert a + b == a;
      assert Squeeze(a) + "" == Squeeze(a);
    } else {
      var init, c := b[..|b| - 1], b[|b| - 1];
      SqueezeConcat(a, init);
      assert (a + b)[..|a + b| - 1] == a + init && (a + b)[|a + b| - 1] == c;
      assert EndsTwice(Squeeze(a) + Squeeze(init)) <==> EndsTwice(Squeeze(init));
      Associative(Squeeze(a), Squeeze(init), [c]);
    }
  }

  lemma {:induction false} EndedIsJoin(lines: seq<string>)
    requires lines != []
    ensures Ended(lines) == Join(lines, '\n') + "\n"
    decreases |lines|
  {
    var n := |lines| - 1;
    if n == 0 {
      assert Ended(lines[..0]) == "";
      assert "" + lines[0] == lines[0];
    } else {
      EndedIsJoin(lines[..n]);
      JoinMore(lines[..n], lines[n]);
      assert lines == lines[..n] + [lines[n]];
    }
  }

  lemma {:induction false} JoinMore(lines: seq<string>, line: string)
    requires lines != []
    ensures Join(lines + [line], '\n') == Join(lines, '\n') + "\n" + line
  {
    var longer := lines + [line];
    if |lines| == 1 {
      assert longer[1..] == [line];
    } else {
      JoinMore(lines[1..], line);
      assert longer[0] == lines[0] && longer[1..] == lines[1..] + [line];
      assert lines[0] + ['\n'] + (Join(lines[1..], '\n') + "\n" + line) == lines[0] + ['\n'] + Join(lines[1..], '\n') + "\n" + line;
    }
  }

  /** What `join`, the squeezing pass and the last trim make of the ended lines. */
  lemma FinalText(lines: seq<string>)
    requires AllTrimmed(lines)
    ensures TrimEnd(Squeeze(Join(lines, '\n'))) + "\n" == if Ended(lines) == "" then "\n" else Squeeze(Ended(lines))
  {
    if lines != [] {
      var joined := Join(lines, '\n');
      EndedIsJoin(lines);
      JoinEndsLikeLast(lines);
      hide Join, Ended, IsSpace;
      SqueezeFacts(joined);
      SqueezeConcat(joined, "\n");
      assert Squeeze("\n") == "\n" by {
        assert "\n"[..0] == "";
      }
      assert TrimEnd(Squeeze(joined)) == Squeeze(joined);
    }
  }

  lemma JoinEndsLikeLast(lines: seq<string>)
    requires AllTrimmed(lines) && lines != []
    ensures var joined := Join(lines, '\n'); joined != "" && !IsSpace(joined[|joined| - 1]) && joined[|joined| - 1] != '\n'
  {
    var n := |lines| - 1;
    TrimEndSplits(lines[n]);
    if n > 0 {
      JoinMore(lines[..n], lines[n]);
      assert lines == lines[..n] + [lines[n]];
    }
  }

  // ---------------------------------------------------------- the formatter

  /** `out` is the layout `text` of the tokens after the final pass. */
  ghost predicate Formats(out: string, text: string, tokens: seq<Token>) {
    && Weaves(false, text, tokens)
    && out == (if text == "" then "\n" else Squeeze(text))
    && (AllCalm(tokens) ==> NoTriple(text))
    && (Tame(tokens) ==> (Marks(out) == MarksOf(tokens) <==> NoGlue(tokens)))
  }

  /** Drop blank lines that follow another blank line or come first. */
  method Compact(lines: seq<string>) returns (compact: seq<string>)
    ensures AllTrimmed(lines) ==> compact == lines
  {
    compact := [];
    for i := 0 to |lines|
      invariant AllTrimmed(lines) ==> compact == lines[..i]
    {
      var current := lines[i];
      if TrimEnd(current) == "" && (compact == [] || TrimEnd(compact[|compact| - 1]) == "") {
        continue;
      }
      compact := compact + [current];
    }
  }

  method FormatStructured(tokens: seq<Token>, indentSize: nat, language: string) returns (out: string, ghost text: string)
    requires AllSane(tokens) && OpenLast(tokens)
    ensures Formats(out, text, tokens)
  {
    var layout := new Layout(indentSize, language);
    hide Weaves, Sane, AllCalm, OpenLast, LastClosed, Colored, Tame, NoGlue, MarksOf, Marks, CalmText, Ended, TrimEnd, Squeeze, AllTrimmed, NoTriple, Join;
    for i := 0 to |tokens|
      invariant layout.Valid() && layout.done == tokens[..i] && layout.AtTight()
      invariant i > 0 ==> layout.previous == Some(tokens[i - 1])
      invariant i < |tokens| ==> Loose(layout.line, layout.done, tokens[i])
    {
      assert tokens[..i + 1] == tokens[..i] + [tokens[i]];
      layout.Emit(tokens[i], NextOf(tokens, i));
    }
    assert tokens[..|tokens|] == tokens;
    if TrimEnd(layout.line) != "" {
      layout.Commit();
    }
    CommitKeeps(layout.lines, layout.line, tokens);
    CalmLines(layout.lines, TrimEnd(layout.line));
    TrimEndOfNothing();
    text := Ended(layout.lines);
    var compact := Compact(layout.lines);
    FinalText(compact);
    out := TrimEnd(Squeeze(Join(compact, '\n'))) + "\n";
    OutMarks(out, layout.lines, layout.line, tokens);
  }

  lemma CalmLines(lines: seq<string>, line: string)
    ensures CalmText(lines, line) ==> NoTriple(Ended(lines))
  {
  }

  /** `line.replace(/[ \t]+$/g, "")` */
  function TrimBlanks(line: string): string {
    if line != "" && line[|line| - 1] in {' ', '\t'} then TrimBlanks(line[..|line| - 1]) else line
  }

  function TrimBreaks(s: string): string {
    if s != "" && s[|s| - 1] == '\n' then TrimBreaks(s[..|s| - 1]) else s
  }

  function TrimLines(lines: seq<string>): seq<string> {
    if lines == [] then [] else [TrimBlanks(lines[0])] + TrimLines(lines[1..])
  }

  /** What every language without a layout gets. */
  function TrimTrailingWhitespace(content: string): string {
    TrimBreaks(Join(TrimLines(Split(content, '\n')), '\n')) + "\n"
  }

  lemma {:induction false} TrimBlanksStrip(line: string)
    ensures StripWs(TrimBlanks(line)) == StripWs(line)
  {
    if line != "" && line[|line| - 1] in {' ', '\t'} {
      TrimBlanksStrip(line[..|line| - 1]);
    }
  }

  lemma {:induction false} TrimBreaksStrip(s: string)
    ensures StripWs(TrimBreaks(s)) == StripWs(s)
  {
    if s != "" && s[|s| - 1] == '\n' {
      TrimBreaksStrip(s[..|s| - 1]);
    }
  }

  lemma {:induction false} TrimLinesStrip(lines: seq<string>)
    ensures StripAll(TrimLines(lines)) == StripAll(lines)
  {
    if lines != [] {
      TrimLinesStrip(lines[1..]);
      TrimBlanksStrip(lines[0]);
    }
  }

  lemma TrailingOnly(content: string)
    ensures StripWs(TrimTrailingWhitespace(content)) == StripWs(content)
  {
    var lines := Split(content, '\n');
    var joined := Join(TrimLines(lines), '\n');
    JoinOfSplit(content, '\n');
    StripJoin(lines);
    StripJoin(TrimLines(lines));
    TrimLinesStrip(lines);
    TrimBreaksStrip(joined);
    hide StripWs, Split, Join, TrimLines, TrimBreaks;
    SpacesAreSpace(0);
    StripSpace("\n");
    StripConcat(TrimBreaks(joined), "\n");
    assert StripWs(TrimBreaks(joined)) + "" == StripWs(TrimBreaks(joined));
  }

  /** Whatever the white space, the visible text is that of the tokens. */
  lemma {:induction false} WeavesStrip(exact: bool, text: string, tokens: seq<Token>)
    requires Weaves(exact, text, tokens)
    ensures StripWs(text) == StripTokens(tokens)
    decreases |tokens|
  {
    hide StripWs, Shows;
    if tokens == [] {
      StripSpace(text);
    } else {
      var n := |tokens| - 1;
      var p :| 0 <= p <= |text| && Weaves(exact, text[..p], tokens[..n]) && Shows(exact, text[p..], tokens[n]);
      WeavesStrip(exact, text[..p], tokens[..n]);
      ShowsStrip(exact, text[p..], tokens[n]);
      StripConcat(text[..p], text[p..]);
      assert text == text[..p] + text[p..];
    }
  }

  /** The formatted text has exactly the visible characters of the tokens, in order. */
  lemma FormatsStrip(out: string, text: string, tokens: seq<Token>)
    requires Formats(out, text, tokens)
    ensures StripWs(out) == StripTokens(tokens)
  {
    WeavesStrip(false, text, tokens);
    SqueezeFacts(text);
    SpacesAreSpace(0);
    StripSpace("\n");
    StripSpace("");
  }

  lemma FormatsMarks(out: string, text: string, tokens: seq<Token>)
    requires Formats(out, text, tokens)
    ensures Tame(tokens) ==> (Marks(out) == MarksOf(tokens) <==> NoGlue(tokens))
  {
  }

  /** The layout engine serves this document. */
  predicate IsStructured(content: string, language: string) {
    language in STRUCTURED_LANGUAGES && !Contains(content, "\"\"\"")
  }

  /**
   Formatting changes nothing but white space, in every language the layout engine or the
   trimmer serves; `reprint` is JSON parsed and printed again, or nothing if it does not
   parse. What the layout does to the document is a matter of its tokens: it keeps them to
   the letter exactly if they are calm, then keeps the program exactly if each of them
   survives standing next to the others, and keeps what the scanner reads as comments
   exactly if no slash is glued.
   */
  method FormatDocument(content: string, language: string, reprint: string -> Option<string>)
    returns (formatted: string, changed: bool, ghost text: string)
    ensures if language == "JSON" && reprint(content).Some? then formatted == reprint(content).value + "\n"
            else StripWs(formatted) == StripWs(content)
    ensures IsStructured(content, language) ==>
              && Weaves(true, content, Scan(content, language)) && AllSane(Scan(content, language))
              && Formats(formatted, text, Scan(content, language))
    ensures IsStructured(content, language) ==>
              (Weaves(false, formatted, Scan(content, language)) <==> AllCalm(Scan(content, language)))
    ensures var tokens := Scan(content, language);
            IsStructured(content, language) && AllCalm(tokens) && SurviveOrJoin(tokens, language) ==>
              (SameTokens(Scan(formatted, language), tokens) <==> AllSurvive(tokens, language))
    ensures IsStructured(content, language) && !HasRegex(language) ==>
              (Marks(formatted) == Marks(content) <==> NoGlue(Scan(content, language)))
    ensures changed <==> formatted != content
  {
    hide StripWs, Weaves, Formats, Contains, TrimTrailingWhitespace, Tame, NoGlue, Marks, MarksOf, Scan, AllCalm,
         SurviveOrJoin, AllSurvive, SameTokens;
    text := "";
    if language == "JSON" {
      var printed := reprint(content);
      if printed.Some? {
        formatted := printed.value + "\n";
      } else {
        TrailingOnly(content);
        formatted := TrimTrailingWhitespace(content);
      }
    } else if language in STRUCTURED_LANGUAGES && !Contains(content, "\"\"\"") {
      var tokens := ScanTokens(content, language);
      WeavesStrip(true, content, tokens);
      formatted, text := FormatStructured(tokens, if language in {"Java", "Kotlin", "C#"} then 4 else 2, language);
      FormatsStrip(formatted, text, tokens);
      FormatsMarks(formatted, text, tokens);
      VerbatimIff(formatted, text, tokens);
      if AllCalm(tokens) && SurviveOrJoin(tokens, language) {
        RescansIff(content, language, formatted);
      }
    } else {
      TrailingOnly(content);
      formatted := TrimTrailingWhitespace(content);
    }
    changed := formatted != content;
  }

  // ---------------------------------------------------------- line comments end their lines

  lemma LastShown(text: string, tokens: seq<Token>) returns (p: nat)
    requires Weaves(false, text, tokens) && tokens != []
    ensures p <= |text| && Weaves(false, text[..p], tokens[..|tokens| - 1]) && Shows(false, text[p..], tokens[|tokens| - 1])
  {
    hide Shows, Divides;
    var n := |tokens| - 1;
    var q :| 0 <= q <= |text| && Weaves(false, text[..q], tokens[..n]) && Shows(false, text[q..], tokens[n]);
    p := q;
  }

  lemma LineShown(s: string, token: Token) returns (after: string)
    requires Shows(false, s, token) && token.kind.LineComment?
    ensures s == TrimEnd(token.value) + after && after != "" && after[0] == '\n'
  {
    hide TrimEnd, IsSpace;
    after := s[|TrimEnd(token.value)|..];
  }

  lemma {:induction false} CommentInText(text: string, tokens: seq<Token>, k: nat) returns (before: string, after: string)
    requires Weaves(false, text, tokens) && k < |tokens| && tokens[k].kind.LineComment?
    ensures text == before + TrimEnd(tokens[k].value) + after && after != "" && after[0] == '\n'
    ensures Weaves(false, before, tokens[..k])
    decreases |tokens|
  {
    hide *;
    var n := |tokens| - 1;
    var p := LastShown(text, tokens);
    assert text == text[..p] + text[p..];
    var body := TrimEnd(tokens[k].value);
    if k == n {
      before := text[..p];
      after := LineShown(text[p..], tokens[k]);
      Associative(before, body, after);
    } else {
      var tail: string;
      before, tail := CommentInText(text[..p], tokens[..n], k);
      after := tail + text[p..];
      assert tokens[..n][..k] == tokens[..k] && tokens[..n][k] == tokens[k];
      assert text == before + body + tail + text[p..];
      Associative(before + body, tail, text[p..]);
    }
  }

  lemma {:induction false} StripTokensSplit(tokens: seq<Token>, k: nat)
    requires k <= |tokens|
    ensures StripTokens(tokens) == StripTokens(tokens[..k]) + StripTokens(tokens[k..])
    decreases |tokens|
  {
    hide StripWs;
    if k == |tokens| {
      assert tokens[..k] == tokens && tokens[k..] == [];
      assert StripTokens(tokens) + "" == StripTokens(tokens);
    } else {
      var n := |tokens| - 1;
      StripTokensSplit(tokens[..n], k);
      assert tokens[..n][..k] == tokens[..k];
      var tail := tokens[k..];
      assert tail[..|tail| - 1] == tokens[..n][k..] && tail[|tail| - 1] == tokens[n];
      Associative(StripTokens(tokens[..k]), StripTokens(tokens[..n][k..]), StripWs(tokens[n].value));
    }
  }

  /**
   Every line comment ends its line in the formatted text: what follows it starts on a new
   line, what comes before it are the tokens before it, and so it never swallows code.
   */
  lemma LineCommentEnds(out: string, text: string, tokens: seq<Token>, k: nat) returns (before: string, after: string)
    requires Formats(out, text, tokens) && AllSane(tokens) && k < |tokens| && tokens[k].kind.LineComment?
    ensures out == before + TrimEnd(tokens[k].value) + after && after != "" && after[0] == '\n'
    ensures '\n' !in TrimEnd(tokens[k].value)
    ensures StripWs(before) == StripTokens(tokens[..k]) && StripWs(after) == StripTokens(tokens[k + 1..])
  {
    var body := TrimEnd(tokens[k].value);
    CommentBody(tokens[k]);
    hide TrimEnd, StripWs, Weaves, Squeeze, StripTokens, Shows;
    var b, a := CommentInText(text, tokens, k);
    before, after := Squeeze(b), Squeeze(a);
    WeavesStrip(false, b, tokens[..k]);
    SqueezeFacts(b);
    SqueezeFacts(a);
    SqueezeComment(b, body, a);
    FormatsStrip(out, text, tokens);
    RestIsTheRest(before, body, after, tokens, k);
  }

  lemma CommentBody(token: Token)
    requires Sane(token) && token.kind.LineComment?
    ensures var body := TrimEnd(token.value);
            body != "" && '\n' !in body && StripWs(body) == StripWs(token.value)
  {
    TrimEndSplits(token.value);
    BodyVisible(token);
    var body := TrimEnd(token.value);
    assert forall i :: 0 <= i < |body| ==> body[i] == token.value[i];
  }

  lemma RestIsTheRest(before: string, body: string, after: string, tokens: seq<Token>, k: nat)
    requires k < |tokens| && StripWs(before + body + after) == StripTokens(tokens)
    requires StripWs(before) == StripTokens(tokens[..k]) && StripWs(body) == StripWs(tokens[k].value)
    ensures StripWs(after) == StripTokens(tokens[k + 1..])
  {
    hide StripWs, StripTokens;
    StripTokensSplit(tokens, k);
    StripTokensSplit(tokens[k..], 1);
    assert tokens[k..][..1] == [tokens[k]] && tokens[k..][1..] == tokens[k + 1..];
    StripSingle(tokens[k]);
    StripConcat(before + body, after);
    StripConcat(before, body);
    Associative(StripWs(before), StripWs(body), StripWs(after));
    SameTail(StripWs(before), StripWs(body) + StripWs(after), StripWs(body) + StripTokens(tokens[k + 1..]));
    SameTail(StripWs(body), StripWs(after), StripTokens(tokens[k + 1..]));
  }

  lemma SameTail(a: string, b: string, c: string)
    requires a + b == a + c
    ensures b == c
  {
    assert (a + b)[|a|..] == b && (a + c)[|a|..] == c;
  }

  lemma BodyVisible(token: Token)
    requires Sane(token)
    ensures TrimEnd(token.value) != ""
  {
    TrimEndSplits(token.value);
  }

  lemma StripSingle(token: Token)
    ensures StripTokens([token]) == StripWs(token.value)
  {
    assert [token][..0] == [];
  }

  lemma SqueezeComment(before: string, body: string, after: string)
    requires body != "" && '\n' !in body
    ensures Squeeze(before + body + after) == Squeeze(before) + body + Squeeze(after)
  {
    NoTripleWithout(body);
    SqueezeIdentity(body);
    SqueezeConcat(before + body, after);
    SqueezeVisible(before, body);
  }

  lemma SqueezeLast(s: string, c: char)
    requires c != '\n'
    ensures Squeeze(s + [c]) == Squeeze(s) + [c]
  {
    assert (s + [c])[..|s|] == s;
  }

  lemma {:induction false} SqueezeVisible(before: string, body: string)
    requires '\n' !in body
    ensures Squeeze(before + body) == Squeeze(before) + body
    decreases |body|
  {
    hide Squeeze;
    if body == "" {
      assert before + body == before;
      assert Squeeze(before) + body == Squeeze(before);
    } else {
      var n := |body| - 1;
      var init, c := body[..n], body[n];
      assert body == init + [c];
      SqueezeVisible(before, init);
      SqueezeLast(before + init, c);
      Associative(before, init, [c]);
      Associative(Squeeze(before), init, [c]);
    }
  }

  // ---------------------------------------------------------- a slash that opens a comment

  /** The tokens of "x / *p". */
  const QUOTIENT := [Token(Word, "x"), Token(Operator, "/"), Token(Operator, "*"), Token(Word, "p")]

  lemma OpenersThere()
    ensures "/" in OPERATORS && "*" in OPERATORS
  {
    assert SHORT_OPERATORS[3] == "*" && SHORT_OPERATORS[4] == "/";
  }

  /** Where a slash or an asterisk starts, and nothing that would make the operator longer follows, it is the operator. */
  lemma SignScanned(source: string, index: nat, language: string, tokens: seq<Token>)
    requires index + 1 < |source| && IsOpener(source[index]) && source[index + 1] !in {'=', '*', '/'}
    requires !CanStartRegex(tokens)
    ensures NextToken(source, index, language, tokens) == Token(Operator, [source[index]])
  {
    hide *;
    var rest := source[index..];
    assert rest[0] == source[index] && rest[1] == source[index + 1] && rest[..1] == [source[index]];
    OpenerAlone(rest);
    BareIs(source, index, language, tokens);
    OperatorMoves(source, index, [source[index]], language, tokens);
  }

  lemma OpenerAlone(rest: string)
    requires |rest| > 1 && IsOpener(rest[0]) && rest[1] !in {'=', '*', '/'}
    ensures [rest[0]] in OPERATORS && !("//" <= rest) && !("/*" <= rest)
    ensures forall o | o in OPERATORS && o <= rest :: |o| <= 1
  {
    OpenersThere();
    OperatorsShaped();
    assert [rest[0]] == "/" || [rest[0]] == "*";
    hide OPERATORS, SLASHED;
    forall o | o in OPERATORS && o <= rest ensures |o| <= 1 {
      assert Shaped(o) && o[0] == rest[0];
      SlashedAlone(o, rest);
    }
  }

  lemma SlashedAlone(o: string, rest: string)
    requires o in SLASHED && o <= rest && |rest| > 1 && rest[1] !in {'=', '*', '/'}
    ensures |o| <= 1
  {
  }

  lemma NoRegexHere(tokens: seq<Token>)
    requires tokens != [] && tokens[|tokens| - 1].value in {"x", "/"}
    ensures !CanStartRegex(tokens)
  {
  }

  /** In every language. */
  lemma ScanQuotient(language: string)
    ensures Scan("x / *p", language) == QUOTIENT
  {
    var s, q := "x / *p", QUOTIENT;
    assert IsSpace(' ') && !IsSpace('x') && !IsSpace('/') && !IsSpace('*') && !IsSpace('p');
    NoRegexHere(q[..1]);
    NoRegexHere(q[..2]);
    LetterMoves(s, 0, language, []);
    SignScanned(s, 2, language, q[..1]);
    SignScanned(s, 4, language, q[..2]);
    LetterMoves(s, 5, language, q[..3]);
    assert ['x'] == "x" && ['/'] == "/" && ['*'] == "*" && ['p'] == "p";
    assert q[..0] == [] && q[..0] + [q[0]] == q[..1] && q[..1] + [q[1]] == q[..2] && q[..2] + [q[2]] == q[..3] && q[..3] + [q[3]] == q;
    hide NextToken, IsSpace;
    assert ScanFrom(s, language, 6, q) == q;
    assert ScanFrom(s, language, 5, q[..3]) == q;
    assert ScanFrom(s, language, 4, q[..2]) == q;
    assert ScanFrom(s, language, 3, q[..2]) == q;
    assert ScanFrom(s, language, 2, q[..1]) == q;
    assert ScanFrom(s, language, 1, q[..1]) == q;
  }

  /** Formatting "x / *p" in Go writes a comment that was not there: the document is laid out, and its slash is glued. */
  lemma QuotientOpensComment()
    ensures IsStructured("x / *p", "Go") && !HasRegex("Go") && !NoGlue(Scan("x / *p", "Go"))
  {
    ScanQuotient("Go");
    hide Scan;
    assert Glued(QUOTIENT[1], QUOTIENT[2]);
    NoTripleQuotes("x / *p");
    assert "Go" in STRUCTURED_LANGUAGES;
  }

  lemma {:induction false} NoTripleQuotes(s: string)
    requires '\"' !in s
    ensures !Contains(s, "\"\"\"")
  {
    if s != "" {
      NoTripleQuotes(s[1..]);
      assert s[0] in s;
    }
  }

  /** Formatting "a + +b" in Java makes an increment of its two signs: the document is laid out, and its tokens are calm. */
  lemma SumIsLaidOut(formatted: string)
    ensures IsStructured("a + +b", "Java") && AllCalm(Scan("a + +b", "Java"))
    ensures Weaves(false, formatted, Scan("a + +b", "Java")) ==> !SameTokens(Scan(formatted, "Java"), Scan("a + +b", "Java"))
  {
    hide *;
    ScanSum("Java");
    SumFacts();
    if Weaves(false, formatted, Scan("a + +b", "Java")) {
      SumBreaks("Java", formatted);
    }
  }

  lemma SumFacts()
    ensures IsStructured("a + +b", "Java") && AllCalm(SUM)
  {
    NoTripleQuotes("a + +b");
    hide Calm, Contains;
    forall k | 0 <= k < |SUM| ensures Calm(SUM[k]) {
      ShortIsCalm(SUM[k]);
    }
  }

  lemma ShortIsCalm(token: Token)
    requires |token.value| < 3
    ensures Calm(token)
  {
    TrimmedOrSpaced(token.value);
    hide TrimEnd;
  }

  // ---------------------------------------------------------- tokens to the letter, exactly when

  lemma {:induction false} TokenInText(text: string, tokens: seq<Token>, k: nat) returns (p: nat)
    requires Weaves(false, text, tokens) && k < |tokens| && !tokens[k].kind.BlockComment?
    ensures p + |TrimEnd(tokens[k].value)| <= |text|
    ensures text[p..p + |TrimEnd(tokens[k].value)|] == TrimEnd(tokens[k].value)
    decreases |tokens|
  {
    hide TrimEnd, StripWs;
    var n := |tokens| - 1;
    var q :| 0 <= q <= |text| && Weaves(false, text[..q], tokens[..n]) && Shows(false, text[q..], tokens[n]);
    if k == n {
      p := q;
    } else {
      p := TokenInText(text[..q], tokens[..n], k);
    }
  }

  /**
   The formatted text shows every token to the letter, but for white space at its end,
   exactly when no token holds three line feeds in a row before its end: the final pass
   also squeezes blank lines inside template literals.
   */
  lemma VerbatimIff(out: string, text: string, tokens: seq<Token>)
    requires Formats(out, text, tokens)
    ensures Weaves(false, out, tokens) <==> AllCalm(tokens)
  {
    hide TrimEnd, StripWs, Squeeze;
    SqueezeFacts(text);
    if AllCalm(tokens) {
      SqueezeIdentity(text);
      OnlySpace(text, tokens);
    }
    if Weaves(false, out, tokens) {
      NoTripleWithoutRun();
      assert NoTriple(out);
      forall k | 0 <= k < |tokens| ensures Calm(tokens[k]) {
        if !tokens[k].kind.BlockComment? {
          var p := TokenInText(out, tokens, k);
          NoTripleInside(out, p, TrimEnd(tokens[k].value));
        }
      }
    }
  }

  /** A template literal with two blank lines. */
  const BLANK_LINES := Token(Literal, "`\n\n\n`")

  /** In every language. */
  lemma ScanTemplate(language: string)
    ensures Scan(BLANK_LINES.value, language) == [BLANK_LINES]
  {
    var s := BLANK_LINES.value;
    assert !IsSpace('`');
    hide OPERATORS, REGEX_AFTER, IsSpace;
    assert QuotedEnd(s, 5, '`') == 5 && QuotedEnd(s, 4, '`') == 5 && QuotedEnd(s, 3, '`') == 5;
    assert QuotedEnd(s, 2, '`') == 5 && QuotedEnd(s, 1, '`') == 5;
    assert s[0..5] == s;
    assert NextToken(s, 0, language, []) == BLANK_LINES;
    hide NextToken;
    assert [] + [BLANK_LINES] == [BLANK_LINES];
    assert ScanFrom(s, language, 5, [BLANK_LINES]) == [BLANK_LINES];
  }

  /** Formatting it in JavaScript changes it: the document is laid out, and its token is not calm. */
  lemma BlankLinesInTemplate()
    ensures IsStructured(BLANK_LINES.value, "JavaScript") && !AllCalm(Scan(BLANK_LINES.value, "JavaScript"))
  {
    ScanTemplate("JavaScript");
    BlankLinesNotCalm();
    NoTripleQuotes(BLANK_LINES.value);
    hide Scan, Calm;
    assert [BLANK_LINES][0] == BLANK_LINES;
    assert "JavaScript" in STRUCTURED_LANGUAGES;
  }

  lemma BlankLinesNotCalm()
    ensures !Calm(BLANK_LINES)
  {
    var source := BLANK_LINES.value;
    Visible('`');
    hide IsSpace;
    assert TrimEnd(source) == source && TripleAt(source, 1);
  }

  lemma Visible(c: char)
    requires c == '`'
    ensures !IsSpace(c)
  {
  }

  lemma NoTripleWithoutRun()
    ensures NoTriple("\n")
  {
  }

  lemma NoTripleInside(s: string, p: nat, part: string)
    requires NoTriple(s) && p + |part| <= |s| && s[p..p + |part|] == part
    ensures NoTriple(part)
  {
    forall i: nat ensures !TripleAt(part, i) {
      assert !TripleAt(s, p + i);
      assert i + 2 < |part| ==> part[i] == s[p + i] && part[i + 1] == s[p + i + 1] && part[i + 2] == s[p + i + 2];
    }
  }

  lemma OnlySpace(text: string, tokens: seq<Token>)
    requires Weaves(false, text, tokens)
    ensures text == "" ==> Weaves(false, "\n", tokens)
  {
    SpacesAreSpace(0);
    WeaveSpace(false, text, "\n", tokens);
    assert "" + "\n" == "\n";
  }
}
