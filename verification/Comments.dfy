/**
 Which visible characters of a text lie in comments as the scanner of the formatter reads
 them, character by character, where a slash never opens a regular expression. A language
 may read otherwise: an apostrophe opens a literal here, whatever it means there.
 */
module Comments {
  import opened WhiteSpace

  predicate IsQuote(c: char) { c == '\"' || c == '\'' || c == '`' }

  type Delimiter = c: char | IsQuote(c) witness '`'

  /** What the next character is read as; `Slash` is behind a slash that may still open a comment. */
  datatype Mode = Code | Slash | Line | Block | Star | Quote(quote: Delimiter) | Escape(quote: Delimiter)

  /** The mode reached, and one mark per visible character so far: whether it is in a comment. */
  datatype Paint = Paint(mode: Mode, marks: seq<bool>)

  const BLANK := Paint(Code, [])

  predicate IsOpener(c: char) { c == '/' || c == '*' }

  function Enter(c: char): Mode {
    if c == '/' then Slash else if IsQuote(c) then Quote(c) else Code
  }

  function Advance(m: Mode, c: char): Mode {
    match m
    case Code => Enter(c)
    case Slash => if c == '/' then Line else if c == '*' then Block else Enter(c)
    case Line => if c == '\n' then Code else Line
    case Block => if c == '*' then Star else Block
    case Star => if c == '/' then Code else if c == '*' then Star else Block
    case Quote(q) => if c == '\\' then Escape(q) else if c == q then Code else Quote(q)
    case Escape(q) => Quote(q)
  }

  predicate Opens(m: Mode, c: char) { m.Slash? && IsOpener(c) }

  predicate Inside(m: Mode, c: char) { m.Line? || m.Block? || m.Star? || Opens(m, c) }

  /** The slash before turns out to open a comment. */
  function Recalled(p: Paint, c: char): seq<bool> {
    if Opens(p.mode, c) && p.marks != [] then p.marks[..|p.marks| - 1] + [true] else p.marks
  }

  function Stroke(p: Paint, c: char): Paint {
    Paint(Advance(p.mode, c), if IsSpace(c) then p.marks else Recalled(p, c) + [Inside(p.mode, c)])
  }

  function Paints(p: Paint, s: string): Paint {
    if s == "" then p else Stroke(Paints(p, s[..|s| - 1]), s[|s| - 1])
  }

  /** One mark per visible character of the text: whether it is in a comment. */
  function Marks(s: string): seq<bool> {
    Paints(BLANK, s).marks
  }

  function Same(n: nat, mark: bool): seq<bool> {
    seq(n, i => mark)
  }

  // ---------------------------------------------------------- reading in pieces

  lemma PaintsEmpty(p: Paint)
    ensures Paints(p, "") == p
  {
  }

  lemma PaintsOne(p: Paint, c: char)
    ensures Paints(p, [c]) == Stroke(p, c)
  {
    assert [c][..0] == "";
  }

  lemma {:induction false} PaintsConcat(p: Paint, a: string, b: string)
    ensures Paints(p, a + b) == Paints(Paints(p, a), b)
    decreases |b|
  {
    hide Stroke;
    if b == "" {
      assert a + b == a;
    } else {
      var init := b[..|b| - 1];
      assert (a + b)[..|a + b| - 1] == a + init && (a + b)[|a + b| - 1] == b[|b| - 1];
      PaintsConcat(p, a, init);
    }
  }

  lemma PaintsMore(p: Paint, s: string, c: char)
    ensures Paints(p, s + [c]) == Stroke(Paints(p, s), c)
  {
    assert (s + [c])[..|s|] == s;
  }

  lemma StripMore(s: string, c: char)
    ensures StripWs(s + [c]) == if IsSpace(c) then StripWs(s) else StripWs(s) + [c]
  {
    assert (s + [c])[..|s|] == s;
  }

  lemma {:induction false} PaintsLength(p: Paint, s: string)
    ensures |Paints(p, s).marks| == |p.marks| + |StripWs(s)|
  {
    if s != "" {
      PaintsLength(p, s[..|s| - 1]);
    }
  }

  /** A mark that is set stays set. */
  lemma {:induction false} MarksStay(p: Paint, s: string, k: nat)
    requires k < |p.marks| && p.marks[k]
    ensures k < |Paints(p, s).marks| && Paints(p, s).marks[k]
  {
    if s != "" {
      MarksStay(p, s[..|s| - 1], k);
    }
  }

  /** Behind a slash its mark is there. */
  lemma {:induction false} SlashIsMarked(m: Mode, s: string)
    requires !m.Slash?
    ensures Paints(Paint(m, []), s).mode.Slash? ==> Paints(Paint(m, []), s).marks != []
  {
    if s != "" {
      SlashIsMarked(m, s[..|s| - 1]);
      SlashVisible();
    }
  }

  lemma SlashVisible()
    ensures !IsSpace('/') && !IsSpace('*')
  {
  }

  /** What was read before only stands in front. */
  lemma {:induction false} PaintsShift(m: Mode, before: seq<bool>, s: string)
    requires !m.Slash?
    ensures var p := Paints(Paint(m, []), s); Paints(Paint(m, before), s) == Paint(p.mode, before + p.marks)
  {
    hide IsSpace;
    if s != "" {
      var init := s[..|s| - 1];
      PaintsShift(m, before, init);
      SlashIsMarked(m, init);
      var p := Paints(Paint(m, []), init);
      StrokeShift(p, before, s[|s| - 1]);
    }
  }

  lemma StrokeShift(p: Paint, before: seq<bool>, c: char)
    requires p.mode.Slash? ==> p.marks != []
    ensures Stroke(Paint(p.mode, before + p.marks), c) == Paint(Stroke(p, c).mode, before + Stroke(p, c).marks)
  {
    if p.marks != [] {
      var n := |p.marks| - 1;
      assert (before + p.marks)[..|before| + n] == before + p.marks[..n];
    }
  }

  /** A slash that opens nothing is code. */
  lemma {:induction false} SlashIsCode(marks: seq<bool>, s: string)
    requires s != "" && !IsOpener(s[0])
    ensures Paints(Paint(Slash, marks), s) == Paints(Paint(Code, marks), s)
  {
    if |s| == 1 {
      assert s == [s[0]];
      PaintsOne(Paint(Slash, marks), s[0]);
      PaintsOne(Paint(Code, marks), s[0]);
    } else {
      SlashIsCode(marks, s[..|s| - 1]);
    }
  }

  // ---------------------------------------------------------- white space

  /** The mode after white space. */
  function Rest(m: Mode, ws: string): Mode {
    if ws == "" then m
    else
      match m
      case Slash => Code
      case Star => Block
      case Escape(q) => Quote(q)
      case Line => if '\n' in ws then Code else Line
      case _ => m
  }

  lemma {:induction false} PaintsSpace(p: Paint, ws: string)
    requires AllSpace(ws)
    ensures Paints(p, ws) == Paint(Rest(p.mode, ws), p.marks)
  {
    if ws != "" {
      var init, c := ws[..|ws| - 1], ws[|ws| - 1];
      PaintsSpace(p, init);
      assert ws == init + [c];
      assert IsSpace(c);
      NotSpace();
      RestMore(p.mode, init, c);
    }
  }

  lemma RestMore(m: Mode, ws: string, c: char)
    requires IsSpace(c)
    ensures Rest(m, ws + [c]) == Advance(Rest(m, ws), c)
  {
    NotSpace();
    assert '\n' in ws + [c] <==> '\n' in ws || c == '\n';
  }

  lemma NotSpace()
    ensures forall c :: IsOpener(c) || IsQuote(c) || c == '\\' ==> !IsSpace(c)
  {
  }

  /** Modes that white space does not change. */
  predicate Steady(m: Mode) { m.Code? || m.Block? || m.Quote? }

  lemma BreakSteadies(p: Paint)
    ensures Paints(p, "\n").marks == p.marks && Steady(Paints(p, "\n").mode)
    ensures Steady(p.mode) ==> Paints(p, "\n") == p
  {
    assert AllSpace("\n");
    PaintsSpace(p, "\n");
  }

  // ---------------------------------------------------------- uniform stretches

  lemma {:induction false} LinePaint(p: Paint, s: string)
    requires p.mode.Line? && '\n' !in s
    ensures Paints(p, s) == Paint(Line, p.marks + Same(|StripWs(s)|, true))
  {
    if s == "" {
      assert p.marks + [] == p.marks;
    } else {
      var init := s[..|s| - 1];
      LinePaint(p, init);
      SameMore(|StripWs(init)|, true);
      assert s == init + [s[|s| - 1]];
    }
  }

  lemma SameMore(n: nat, mark: bool)
    ensures Same(n, mark) + [mark] == Same(n + 1, mark)
  {
  }

  /** Nothing in `s` closes a block comment. */
  ghost predicate NoClose(s: string) {
    forall i :: 0 <= i < |s| - 1 ==> !(s[i] == '*' && s[i + 1] == '/')
  }

  lemma {:induction false} BlockPaint(p: Paint, s: string)
    requires p.mode.Block? && NoClose(s)
    ensures Paints(p, s) == Paint(if s != "" && s[|s| - 1] == '*' then Star else Block, p.marks + Same(|StripWs(s)|, true))
  {
    if s == "" {
      assert p.marks + [] == p.marks;
    } else {
      var init := s[..|s| - 1];
      BlockPaint(p, init);
      SameMore(|StripWs(init)|, true);
      assert s == init + [s[|s| - 1]];
    }
  }

  predicate Ordinary(c: char) { c != '/' && !IsQuote(c) }

  lemma {:induction false} PlainPaint(p: Paint, s: string)
    requires p.mode.Code? && forall i :: 0 <= i < |s| ==> Ordinary(s[i])
    ensures Paints(p, s) == Paint(Code, p.marks + Same(|StripWs(s)|, false))
  {
    if s == "" {
      assert p.marks + [] == p.marks;
    } else {
      var init := s[..|s| - 1];
      PlainPaint(p, init);
      SameMore(|StripWs(init)|, false);
      assert s == init + [s[|s| - 1]];
    }
  }

  // ---------------------------------------------------------- the tokens of a language

  /** Two slashes and the rest of the line. */
  lemma LineCommentPaint(rest: string)
    requires '\n' !in rest
    ensures Paints(BLANK, "//" + rest) == Paint(Line, Same(|StripWs("//" + rest)|, true))
  {
    hide Paints, StripWs, Same;
    Openings();
    PaintsConcat(BLANK, "//", rest);
    LinePaint(Paint(Line, [true, true]), rest);
    StripConcat("//", rest);
    TwoMarks(|StripWs(rest)|);
  }

  lemma TwoMarks(n: nat)
    ensures [true, true] + Same(n, true) == Same(2 + n, true)
  {
  }

  lemma Openings()
    ensures Paints(BLANK, "//") == Paint(Line, [true, true]) && StripWs("//") == "//"
    ensures Paints(BLANK, "/*") == Paint(Block, [true, true]) && StripWs("/*") == "/*"
  {
    SlashVisible();
    hide IsSpace;
    PaintsOne(BLANK, '/');
    assert ['/'] == "/" && "/" + ['/'] == "//" && "/" + ['*'] == "/*" && ""+['/'] == "/";
    PaintsMore(BLANK, "/", '/');
    PaintsMore(BLANK, "/", '*');
    StripMore("", '/');
    StripMore("/", '/');
    StripMore("/", '*');
  }

  /** The opening of a block comment and a body that does not close it. */
  lemma OpenBlockPaint(body: string)
    requires NoClose(body)
    ensures var p := Paints(BLANK, "/*" + body);
            (p.mode.Block? || p.mode.Star?) && p.marks == Same(|StripWs("/*" + body)|, true)
  {
    hide Paints, StripWs, Same;
    Openings();
    PaintsConcat(BLANK, "/*", body);
    BlockPaint(Paint(Block, [true, true]), body);
    StripConcat("/*", body);
    TwoMarks(|StripWs(body)|);
  }

  lemma BlockCommentPaint(body: string)
    requires NoClose(body)
    ensures Paints(BLANK, "/*" + body + "*/") == Paint(Code, Same(|StripWs("/*" + body + "*/")|, true))
  {
    var s := "/*" + body;
    OpenBlockPaint(body);
    SlashVisible();
    hide IsSpace;
    PaintsMore(BLANK, s, '*');
    PaintsMore(BLANK, s + ['*'], '/');
    StripMore(s, '*');
    StripMore(s + ['*'], '/');
    assert s + ['*'] + ['/'] == s + "*/";
    SameMore(|StripWs(s)|, true);
    SameMore(|StripWs(s)| + 1, true);
  }

  /** A literal read up to here: no comment so far. */
  ghost predicate InLiteral(s: string, mode: Mode) {
    Paints(BLANK, s) == Paint(mode, Same(|StripWs(s)|, false))
  }

  lemma LiteralStart(q: Delimiter)
    ensures InLiteral([q], Quote(q))
  {
    NotSpace();
    PaintsOne(BLANK, q);
    StripMore("", q);
    assert "" + [q] == [q];
  }

  lemma LiteralMore(s: string, mode: Mode, c: char)
    requires InLiteral(s, mode) && (mode.Quote? || mode.Escape?)
    ensures InLiteral(s + [c], Advance(mode, c))
  {
    PaintsMore(BLANK, s, c);
    StripMore(s, c);
    SameMore(|StripWs(s)|, false);
  }
}
