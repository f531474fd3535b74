/**
 The scanner of the code formatter, and what it means for a text to be a given list of
 tokens with nothing but white space around them.
 */
module Tokens {
  import opened WhiteSpace
  import opened Comments

  // ---------------------------------------------------------- tokens

  datatype Kind = Word | Number | Literal | LineComment | BlockComment | Operator | Punctuation

  datatype Token = Token(kind: Kind, value: string)

  /** A token starts with a visible character, and a line comment stays on its line. */
  ghost predicate Sane(token: Token) {
    token.value != "" && !IsSpace(token.value[0]) && (token.kind.LineComment? ==> '\n' !in token.value)
  }

  ghost predicate AllSane(tokens: seq<Token>) {
    forall i :: 0 <= i < |tokens| ==> Sane(tokens[i])
  }

  /** The token ends on a visible character, or is a comment, whose end the layout trims. */
  ghost predicate Closed(token: Token) {
    token.kind in {LineComment, BlockComment} || TrimEnd(token.value) == token.value
  }

  /** Only the last token may be left open: a literal that runs to the end of the source. */
  ghost predicate OpenLast(tokens: seq<Token>) {
    forall i :: 0 <= i < |tokens| - 1 ==> Closed(tokens[i])
  }

  ghost predicate LastClosed(tokens: seq<Token>) {
    tokens != [] ==> Closed(tokens[|tokens| - 1])
  }

  lemma OpenLastMore(tokens: seq<Token>, token: Token)
    ensures OpenLast(tokens + [token]) <==> OpenLast(tokens) && LastClosed(tokens)
    ensures LastClosed(tokens + [token]) <==> Closed(token)
  {
    hide Closed;
    var longer := tokens + [token];
    assert forall i :: 0 <= i < |tokens| ==> longer[i] == tokens[i];
    if OpenLast(longer) && tokens != [] {
      assert Closed(longer[|tokens| - 1]);
    }
  }

  // ---------------------------------------------------------- neighbours

  predicate IsComment(token: Token) { token.kind.LineComment? || token.kind.BlockComment? }

  predicate IsWordy(token: Token) { token.kind in {Word, Number, Literal} }

  predicate IsMark(token: Token) { token.kind.Operator? || token.kind.Punctuation? }

  /** Operators that the layout sets apart from their neighbours. */
  const SPREAD: set<string> := {"->", "=>", "=", "==", "!=", "<=", ">=", "&&", "||", "+=", "-=", "*=", "/=", "%="}

  /** Operators that it writes as they come. */
  const TIGHT: set<string> := {
    ">>>=", "<<=", ">>=", "===", "!==", "**=", "&&=", "||=", "??=", "++", "--", "&=", "|=", "^=", "<<", "**", "??", "...",
    "+", "-", "*", "/", "%", "!", "&", "|", "^", "~", "?"
  }

  predicate IsSpread(token: Token) { token.kind.Operator? && token.value in SPREAD }

  predicate IsTight(token: Token) { token.kind.Operator? && token.value in TIGHT }

  /** In a formatted text these two neighbours have white space between them. */
  predicate SetApart(a: Token, b: Token) {
    || IsComment(a) || IsComment(b) || IsSpread(b)
    || (IsMark(a) && a.value == "{") || (IsMark(b) && b.value in {"@", "}"})
    || (IsMark(a) && a.value == "}" && b.value !in {";", ",", ")", "]"})
    || (IsWordy(b) && (IsWordy(a) || IsSpread(a) || a.value in {")", "]", ">", ">>", ">>>"}
                       || (IsMark(a) && a.value in {";", ",", ":"})))
  }

  /** And these two have nothing. */
  predicate SetTight(a: Token, b: Token) { IsTight(a) && IsTight(b) }

  /** What stands before the last token ends as the last two tokens demand. */
  ghost predicate Divides(before: string, tokens: seq<Token>) {
    |tokens| >= 2 ==>
      var a, b := tokens[|tokens| - 2], tokens[|tokens| - 1];
      && (SetApart(a, b) ==> before == "" || IsSpaced(before))
      && (SetTight(a, b) ==> before != "" && !IsSpaced(before))
  }

  // ---------------------------------------------------------- block comments

  predicate IsOpened(s: string) { |s| >= 2 && s[0] == '/' && s[1] == '*' }

  /** An asterisk and a slash. */
  predicate ClosePair(s: string, i: int) { 0 <= i < |s| - 1 && s[i] == '*' && s[i + 1] == '/' }

  /** They close the comment at `k`, and none do before. */
  ghost predicate ClosesAt(s: string, k: int) {
    2 <= k && ClosePair(s, k) && forall i :: 2 <= i < k ==> !ClosePair(s, i)
  }

  /** A comment as the scanner reads it: it ends where it is closed. */
  ghost predicate IsBlock(value: string) {
    IsOpened(value) && forall k :: ClosesAt(value, k) ==> k + 2 == |value|
  }

  /** `s` is the comment with other white space: opened and closed like it, with nothing behind. */
  ghost predicate Reindents(s: string, value: string) {
    && StripWs(s) == StripWs(value)
    && (IsBlock(value) ==>
          && IsOpened(s) && (forall k :: ClosesAt(s, k) ==> AllSpace(s[k + 2..]))
          && ((exists k :: ClosesAt(s, k)) <==> (exists k :: ClosesAt(value, k))))
  }

  lemma ClosesBeforeSpace(s: string, ws: string, k: int)
    requires AllSpace(ws)
    ensures ClosesAt(s + ws, k) <==> ClosesAt(s, k)
  {
    forall i: int ensures ClosePair(s + ws, i) <==> ClosePair(s, i) {
      PairBeforeSpace(s, ws, i);
    }
    hide ClosePair;
  }

  lemma PairBeforeSpace(s: string, ws: string, i: int)
    requires AllSpace(ws)
    ensures ClosePair(s + ws, i) <==> ClosePair(s, i)
  {
    NotSpace();
    hide IsSpace;
    var whole := s + ws;
    assert forall j :: |s| <= j < |whole| ==> whole[j] == ws[j - |s|];
  }

  /** White space at the end makes no difference. */
  lemma ReindentsSpace(s: string, ws: string, value: string)
    requires AllSpace(ws)
    ensures Reindents(s + ws, value) <==> Reindents(s, value)
  {
    forall k: int ensures ClosesAt(s + ws, k) <==> ClosesAt(s, k) {
      ClosesBeforeSpace(s, ws, k);
    }
    StripConcat(s, ws);
    StripSpace(ws);
    assert StripWs(s) + "" == StripWs(s);
    NotSpace();
    assert IsOpened(s + ws) <==> IsOpened(s);
    forall k: int | ClosesAt(s, k) ensures AllSpace((s + ws)[k + 2..]) <==> AllSpace(s[k + 2..]) {
      var tail := s[k + 2..];
      assert (s + ws)[k + 2..] == tail + ws;
      assert forall i :: 0 <= i < |tail| ==> (tail + ws)[i] == tail[i];
    }
    hide StripWs, ClosesAt, AllSpace, IsOpened;
  }

  // ---------------------------------------------------------- a text of tokens

  /**
   `s` shows the token and then only white space. In a source the token stands there to the
   letter. In a formatted text trailing white space may be gone, a line comment is followed
   by the end of its line, and the white space of a block comment may differ.
   */
  ghost predicate Shows(exact: bool, s: string, token: Token) {
    var body := if exact then token.value else TrimEnd(token.value);
    if !exact && token.kind.BlockComment? then Reindents(s, token.value)
    else
      && body <= s && AllSpace(s[|body|..])
      && (!exact && token.kind.LineComment? ==> |s| > |body| && s[|body|] == '\n')
  }

  /**
   The text is the tokens in order, with white space before, between and after; in a
   formatted text neighbours are set apart or tight.
   */
  ghost predicate Weaves(exact: bool, text: string, tokens: seq<Token>)
    decreases |tokens|
  {
    if tokens == [] then AllSpace(text)
    else
      exists p :: 0 <= p <= |text| && Weaves(exact, text[..p], tokens[..|tokens| - 1])
                  && Shows(exact, text[p..], tokens[|tokens| - 1]) && (!exact ==> Divides(text[..p], tokens))
  }

  lemma WeaveSpace(exact: bool, text: string, ws: string, tokens: seq<Token>)
    requires Weaves(exact, text, tokens) && AllSpace(ws)
    ensures Weaves(exact, text + ws, tokens)
  {
    hide Shows, IsSpace, Divides;
    if tokens != [] {
      var p :| 0 <= p <= |text| && Weaves(exact, text[..p], tokens[..|tokens| - 1])
               && Shows(exact, text[p..], tokens[|tokens| - 1]) && (!exact ==> Divides(text[..p], tokens));
      assert (text + ws)[..p] == text[..p] && (text + ws)[p..] == text[p..] + ws;
      ShowsSpace(exact, text[p..], ws, tokens[|tokens| - 1]);
    }
  }

  lemma ShowsSpace(exact: bool, s: string, ws: string, token: Token)
    requires Shows(exact, s, token) && AllSpace(ws)
    ensures Shows(exact, s + ws, token)
  {
    ReindentsSpace(s, ws, token.value);
    hide Reindents;
    var body := if exact then token.value else TrimEnd(token.value);
    if body <= s {
      assert (s + ws)[|body|..] == s[|body|..] + ws;
    }
  }

  lemma WeaveToken(exact: bool, text: string, s: string, tokens: seq<Token>, token: Token)
    requires Weaves(exact, text, tokens) && Shows(exact, s, token) && (!exact ==> Divides(text, tokens + [token]))
    ensures Weaves(exact, text + s, tokens + [token])
  {
    var p := |text|;
    assert (text + s)[..p] == text && (text + s)[p..] == s;
    assert (tokens + [token])[..|tokens|] == tokens;
  }

  /** White space at the end may go again, unless it ends a line comment. */
  lemma UnweaveSpace(text: string, ws: string, tokens: seq<Token>)
    requires Weaves(false, text + ws, tokens) && AllSpace(ws) && AllSane(tokens)
    requires tokens != [] && tokens[|tokens| - 1].kind.LineComment? ==> ws == ""
    ensures Weaves(false, text, tokens)
  {
    hide Shows, StripWs, TrimEnd, IsSpace, Divides;
    var whole := text + ws;
    if tokens == [] {
      assert forall i :: 0 <= i < |text| ==> text[i] == whole[i];
    } else if ws == "" {
      assert whole == text;
    } else {
      var last := tokens[|tokens| - 1];
      var p :| 0 <= p <= |whole| && Weaves(false, whole[..p], tokens[..|tokens| - 1]) && Shows(false, whole[p..], last)
               && Divides(whole[..p], tokens);
      assert Sane(last);
      ShownEndsInText(text, ws, p, last);
      assert whole[..p] == text[..p];
    }
  }

  /** A prefix that ends in a visible character does not reach into trailing white space. */
  lemma BodyFits(body: string, text: string, ws: string)
    requires body <= text + ws && AllSpace(ws) && body != "" && !IsSpace(body[|body| - 1])
    ensures |body| <= |text|
  {
    var whole := text + ws;
    assert forall i :: |text| <= i < |whole| ==> whole[i] == ws[i - |text|];
    assert body[|body| - 1] == whole[|body| - 1];
  }

  lemma ShownEndsInText(text: string, ws: string, p: nat, token: Token)
    requires p <= |text + ws| && Shows(false, (text + ws)[p..], token) && AllSpace(ws)
    requires Sane(token) && !token.kind.LineComment?
    ensures p <= |text| && Shows(false, text[p..], token)
  {
    hide StripWs, TrimEnd, IsSpace;
    var s := (text + ws)[p..];
    StripSpace(token.value);
    TrimEndSplits(token.value);
    if p > |text| {
      assert s == ws[p - |text|..];
      StripSpace(s);
    }
    assert s == text[p..] + ws;
    ReindentsSpace(text[p..], ws, token.value);
    if !token.kind.BlockComment? {
      var body := TrimEnd(token.value);
      BodyFits(body, text[p..], ws);
      assert text[p..][|body|..] == s[|body|..][..|text[p..]| - |body|];
    }
  }

  /** The tokens without their white space, joined. */
  function StripTokens(tokens: seq<Token>): string
    decreases |tokens|
  {
    if tokens == [] then "" else StripTokens(tokens[..|tokens| - 1]) + StripWs(tokens[|tokens| - 1].value)
  }

  lemma ShowsStrip(exact: bool, s: string, token: Token)
    requires Shows(exact, s, token)
    ensures StripWs(s) == StripWs(token.value)
  {
    if exact || !token.kind.BlockComment? {
      var body := if exact then token.value else TrimEnd(token.value);
      assert body <= s && AllSpace(s[|body|..]);
      TrimEndSplits(token.value);
      hide *;
      var tail := s[|body|..];
      assert s == body + tail;
      StripConcat(body, tail);
      StripSpace(tail);
      assert StripWs(body) + "" == StripWs(body);
    }
  }

  // ---------------------------------------------------------- tokens and comments

  predicate IsSlash(token: Token) { token.kind.Operator? && token.value == "/" }

  /** The operators that start like a comment could. */
  const SLASHED: set<string> := {"/", "/=", "*", "*=", "**", "**="}

  function ModeAfter(token: Token): Mode {
    if token.kind.LineComment? then Line else if IsSlash(token) then Slash else Code
  }

  /** Read by itself the token leaves no literal and no block comment open. */
  ghost predicate Finished(token: Token) {
    Paints(BLANK, token.value).mode == ModeAfter(token)
  }

  /** Read by itself the token is a comment as a whole or not at all. */
  ghost predicate Behaves(token: Token) {
    && Marks(token.value) == Same(|StripWs(token.value)|, IsComment(token))
    && (Finished(token) ==> Closed(token))
    && (token.kind.LineComment? ==> Finished(token))
    && (!IsComment(token) && token.value != "" && IsOpener(token.value[0]) ==> token.kind.Operator? && token.value in SLASHED)
  }

  /** Every token behaves, and only the last may be unfinished. */
  ghost predicate Tame(tokens: seq<Token>) {
    && (forall i :: 0 <= i < |tokens| ==> Behaves(tokens[i]))
    && (forall i :: 0 <= i < |tokens| - 1 ==> Finished(tokens[i]))
  }

  ghost predicate LastFinished(tokens: seq<Token>) {
    tokens != [] ==> Finished(tokens[|tokens| - 1])
  }

  /** One mark per visible character of the tokens: whether its token is a comment. */
  function MarksOf(tokens: seq<Token>): seq<bool> {
    if tokens == [] then []
    else
      var last := tokens[|tokens| - 1];
      MarksOf(tokens[..|tokens| - 1]) + Same(|StripWs(last.value)|, IsComment(last))
  }

  lemma MarksOfMore(tokens: seq<Token>, token: Token)
    ensures MarksOf(tokens + [token]) == MarksOf(tokens) + Same(|StripWs(token.value)|, IsComment(token))
  {
    assert (tokens + [token])[..|tokens|] == tokens;
  }

  lemma TameMore(tokens: seq<Token>, token: Token)
    ensures Tame(tokens + [token]) <==> Tame(tokens) && LastFinished(tokens) && Behaves(token)
    ensures LastFinished(tokens + [token]) <==> Finished(token)
  {
    hide Behaves, Finished;
    var longer := tokens + [token];
    assert forall i :: 0 <= i < |tokens| ==> longer[i] == tokens[i];
    if Tame(longer) {
      assert Behaves(longer[|tokens|]);
      if tokens != [] {
        assert Finished(longer[|tokens| - 1]);
      }
    }
  }

  /** What may follow without being drawn into a comment that is still open, or opening one. */
  predicate Clear(m: Mode, c: char) {
    m.Code? || (m.Slash? && !IsOpener(c)) || (m.Line? && c == '\n')
  }

  /** The source read so far has its comments where the tokens so far are comments. */
  ghost predicate Painted(source: string, index: nat, tokens: seq<Token>)
    requires index <= |source|
  {
    var p := Paints(BLANK, source[..index]);
    p.marks == MarksOf(tokens) && (index < |source| ==> Clear(p.mode, source[index]))
  }

  lemma PaintedSpace(source: string, index: nat, tokens: seq<Token>)
    requires index < |source| && IsSpace(source[index]) && Painted(source, index, tokens)
    ensures Painted(source, index + 1, tokens)
  {
    hide MarksOf;
    NotSpace();
    assert source[..index + 1] == source[..index] + [source[index]];
    PaintsMore(BLANK, source[..index], source[index]);
  }

  /** From code, or behind a slash that opens nothing, a token is read as by itself. */
  lemma TokenPaints(p: Paint, value: string)
    requires value != "" && (p.mode.Code? || (p.mode.Slash? && !IsOpener(value[0])))
    ensures var alone := Paints(BLANK, value); Paints(p, value) == Paint(alone.mode, p.marks + alone.marks)
  {
    hide Paints;
    if p.mode.Slash? {
      SlashIsCode(p.marks, value);
    }
    PaintsShift(Code, p.marks, value);
  }

  lemma PaintedToken(source: string, index: nat, end: nat, token: Token, tokens: seq<Token>)
    requires index < end <= |source| && token.value == source[index..end] && !IsSpace(source[index])
    requires Painted(source, index, tokens) && Behaves(token)
    requires end < |source| ==> Finished(token) && Clear(ModeAfter(token), source[end])
    ensures Painted(source, end, tokens + [token])
  {
    hide Paints, MarksOf, StripWs, Same;
    assert source[index] != '\n';
    hide IsSpace;
    var p, value := Paints(BLANK, source[..index]), token.value;
    assert value[0] == source[index];
    TokenPaints(p, value);
    assert source[..end] == source[..index] + value;
    PaintsConcat(BLANK, source[..index], value);
    MarksOfMore(tokens, token);
  }

  // ---------------------------------------------------------- the scanner's alphabet

  const LONG_OPERATORS: seq<string> := [">>>=", "<<=", ">>=", "===", "!==", ">>>", "**=", "&&=", "||=", "??="]

  const DOUBLE_OPERATORS: seq<string> := ["::", "->", "=>", "==", "!=", "<=", ">=", "&&", "||", "++", "--"]

  const ASSIGNMENTS: seq<string> := ["+=", "-=", "*=", "/=", "%=", "&=", "|=", "^=", "<<", ">>", "**", "??", "?.", "..."]

  const SHORT_OPERATORS: seq<string> := ["=", "+", "-", "*", "/", "%", "!", "&", "|", "^", "~", "?"]

  /** In the order in which they are tried. */
  const OPERATORS: seq<string> := LONG_OPERATORS + DOUBLE_OPERATORS + ASSIGNMENTS + SHORT_OPERATORS

  const REGEX_AFTER: set<string> := {
    "(", "[", "{", "=", ":", ",", ";", "!", "&&", "||", "?", "=>", "return", "case", "throw", "yield", "await"
  }

  predicate IsLetter(c: char) { 'A' <= c <= 'Z' || 'a' <= c <= 'z' }

  predicate IsDigit(c: char) { '0' <= c <= '9' }

  predicate StartsWord(c: char) { IsLetter(c) || c == '_' || c == '$' }

  predicate InWord(c: char) { StartsWord(c) || IsDigit(c) }

  predicate InNumber(c: char) { IsLetter(c) || IsDigit(c) || c == '_' || c == '.' }

  predicate CanStartRegex(tokens: seq<Token>) {
    tokens == [] || tokens[|tokens| - 1].value in REGEX_AFTER
  }

  predicate StartsWithAt(source: string, part: string, at: nat)
    requires at <= |source|
  {
    part <= source[at..]
  }

  // ---------------------------------------------------------- what the scanner reads

  /** `indexOf`, or the end of the source. */
  function IndexOf(source: string, part: string, from: nat): (end: nat)
    requires from <= |source| && part != ""
    ensures from <= end <= |source| && (end < |source| ==> StartsWithAt(source, part, end))
    decreases |source| - from
  {
    if from == |source| || StartsWithAt(source, part, from) then from else IndexOf(source, part, from + 1)
  }

  /** Behind the first unescaped quote, or the end of the source. */
  function QuotedEnd(source: string, index: nat, quote: char): (end: nat)
    ensures end <= |source| && (index < |source| ==> index < end)
    decreases |source| - index
  {
    if index >= |source| then |source|
    else if source[index] == '\\' then QuotedEnd(source, index + 2, quote)
    else if source[index] == quote then index + 1
    else QuotedEnd(source, index + 1, quote)
  }

  /** The end of the longest stretch of accepted characters. */
  function RunEnd(source: string, index: nat, accept: char -> bool): (end: nat)
    requires index <= |source|
    ensures index <= end <= |source|
    decreases |source| - index
  {
    if index == |source| || !accept(source[index]) then index else RunEnd(source, index + 1, accept)
  }

  /** Whether the character at `k` is escaped, and whether it stands in a character class, in a regular expression begun at `start`. */
  function RegexState(source: string, start: nat, k: nat): (bool, bool)
    requires start < k <= |source|
  {
    if k == start + 1 then (false, false)
    else
      var (escaped, inClass) := RegexState(source, start, k - 1);
      var c := source[k - 1];
      if escaped then (false, inClass)
      else if c == '\\' then (true, inClass)
      else (false, if c == '[' then true else if c == ']' then false else inClass)
  }

  /** The regular expression ends at the slash at `k`. */
  predicate SlashAt(source: string, start: nat, k: nat) {
    start < k < |source| && source[k] == '/' && RegexState(source, start, k) == (false, false)
  }

  /** The line ends at `k`, unescaped. */
  predicate BreakAt(source: string, start: nat, k: nat) {
    start < k < |source| && source[k] == '\n' && !RegexState(source, start, k).0
  }

  /** The end of the regular expression begun at `start`, read up to `index`; `start + 1` if it is none. */
  function RegexEnd(source: string, start: nat, index: nat): (end: nat)
    requires start < index <= |source|
    ensures start < end <= |source|
    decreases |source| - index
  {
    if index == |source| || BreakAt(source, start, index) then start + 1
    else if SlashAt(source, start, index) then RunEnd(source, index + 1, IsLetter)
    else RegexEnd(source, start, index + 1)
  }

  function FirstOperator(operators: seq<string>, text: string): (operator: string)
    ensures operator <= text
  {
    if operators == [] then ""
    else if operators[0] <= text then operators[0]
    else FirstOperator(operators[1..], text)
  }

  /** In these languages a slash may open a regular expression. */
  predicate HasRegex(language: string) { language == "JavaScript" || language == "TypeScript" }

  /** The token that starts at `index`, behind the tokens already read. */
  function NextToken(source: string, index: nat, language: string, tokens: seq<Token>): (token: Token)
    requires index < |source|
    ensures 0 < |token.value| <= |source| - index
  {
    var c := source[index];
    var next := if index + 1 < |source| then source[index + 1] else '\0';
    if c == '/' && next == '/' then Token(LineComment, source[index..IndexOf(source, "\n", index + 2)])
    else if c == '/' && next == '*' then
      var close := IndexOf(source, "*/", index + 2);
      Token(BlockComment, source[index..if close < |source| then close + 2 else close])
    else
      var regexEnd := if HasRegex(language) && c == '/' && CanStartRegex(tokens) then RegexEnd(source, index, index + 1) else index + 1;
      if regexEnd > index + 1 then Token(Literal, source[index..regexEnd])
      else if IsQuote(c) then
        var end := QuotedEnd(source, index + 1, c);
        Token(Literal, source[index..end])
      else if StartsWord(c) then Token(Word, source[index..RunEnd(source, index + 1, InWord)])
      else if IsDigit(c) then Token(Number, source[index..RunEnd(source, index + 1, InNumber)])
      else
        var operator := FirstOperator(OPERATORS, source[index..]);
        if operator != "" then Token(Operator, operator) else Token(Punctuation, [c])
  }

  /** The tokens from `index` on, behind those already read. */
  function ScanFrom(source: string, language: string, index: nat, tokens: seq<Token>): seq<Token>
    requires index <= |source|
    decreases |source| - index
  {
    if index == |source| then tokens
    else if IsSpace(source[index]) then ScanFrom(source, language, index + 1, tokens)
    else
      var token := NextToken(source, index, language, tokens);
      ScanFrom(source, language, index + |token.value|, tokens + [token])
  }

  /** The tokens of a source. */
  function Scan(source: string, language: string): seq<Token> {
    ScanFrom(source, language, 0, [])
  }

  // ---------------------------------------------------------- the scanner as it runs

  method FindAfter(source: string, part: string, from: nat) returns (end: nat)
    requires from <= |source| && part != ""
    ensures end == IndexOf(source, part, from)
    ensures from <= end <= |source|
    ensures end < |source| ==> StartsWithAt(source, part, end)
    ensures forall i :: from <= i < end ==> !StartsWithAt(source, part, i)
  {
    end := from;
    while end < |source| && !StartsWithAt(source, part, end)
      invariant from <= end <= |source| && IndexOf(source, part, end) == IndexOf(source, part, from)
      invariant forall i :: from <= i < end ==> !StartsWithAt(source, part, i)
    {
      end := end + 1;
    }
  }

  /** The end of a quoted literal, or of the source. */
  method ReadQuoted(source: string, start: nat, quote: char) returns (end: nat)
    requires start < |source| && source[start] == quote && IsQuote(quote)
    ensures start < end <= |source| && end == QuotedEnd(source, start + 1, quote)
    ensures end < |source| ==> source[end - 1] == quote
    ensures exists mode :: InLiteral(source[start..end], mode)
                           && (mode.Code? ==> source[end - 1] == quote) && (end < |source| ==> mode.Code?)
  {
    var index := start + 1;
    hide InLiteral;
    assert source[start..index] == [quote];
    LiteralStart(quote);
    while index < |source|
      invariant start < index
      invariant index <= |source| ==> InLiteral(source[start..index], Quote(quote))
      invariant index > |source| ==> InLiteral(source[start..|source|], Escape(quote))
      invariant QuotedEnd(source, index, quote) == QuotedEnd(source, start + 1, quote)
      decreases |source| - index
    {
      LiteralNext(source, start, index, Quote(quote));
      if source[index] == '\\' {
        if index + 1 < |source| {
          LiteralNext(source, start, index + 1, Escape(quote));
        }
        index := index + 2;
        continue;
      }
      if source[index] == quote {
        return index + 1;
      }
      index := index + 1;
    }
    return |source|;
  }

  lemma LiteralNext(source: string, start: nat, index: nat, mode: Mode)
    requires start < index < |source| && InLiteral(source[start..index], mode) && (mode.Quote? || mode.Escape?)
    ensures InLiteral(source[start..index + 1], Advance(mode, source[index]))
  {
    hide InLiteral;
    assert source[start..index] + [source[index]] == source[start..index + 1];
    LiteralMore(source[start..index], mode, source[index]);
  }

  /** The first of both is the slash at `k`. */
  ghost predicate RegexCloses(source: string, start: nat, k: nat) {
    SlashAt(source, start, k) && forall j :: start < j < k ==> !SlashAt(source, start, j) && !BreakAt(source, start, j)
  }

  /** Behind the slash that closes a regular expression on its line and the letters after it, or `start + 1` if there is none. */
  method ReadRegex(source: string, start: nat) returns (end: nat)
    requires start < |source|
    ensures start < end <= |source| && end == RegexEnd(source, start, start + 1)
    ensures end > start + 1 ==>
              && (exists k :: start < k < end && RegexCloses(source, start, k) && forall i :: k < i < end ==> IsLetter(source[i]))
              && (end < |source| ==> !IsLetter(source[end]))
    ensures end == start + 1 ==> forall k :: !RegexCloses(source, start, k)
  {
    var index := start + 1;
    var escaped, inClass := false, false;
    while index < |source|
      invariant start < index <= |source| && RegexState(source, start, index) == (escaped, inClass)
      invariant forall j :: start < j < index ==> !SlashAt(source, start, j) && !BreakAt(source, start, j)
      invariant RegexEnd(source, start, index) == RegexEnd(source, start, start + 1)
      decreases |source| - index
    {
      var c := source[index];
      if escaped {
        escaped := false;
        index := index + 1;
        continue;
      }
      if c == '\\' {
        escaped := true;
        index := index + 1;
        continue;
      }
      if c == '[' {
        inClass := true;
      }
      if c == ']' {
        inClass := false;
      }
      if c == '/' && !inClass {
        ghost var slash := index;
        assert RegexCloses(source, start, slash);
        index := index + 1;
        while index < |source| && IsLetter(source[index])
          invariant slash < index <= |source|
          invariant forall i :: slash < i < index ==> IsLetter(source[i])
          invariant RunEnd(source, index, IsLetter) == RunEnd(source, slash + 1, IsLetter)
        {
          index := index + 1;
        }
        return index;
      }
      if c == '\n' {
        assert BreakAt(source, start, index);
        return start + 1;
      }
      index := index + 1;
    }
    return start + 1;
  }

  ghost predicate IsFirstOperator(text: string, operator: string) {
    exists i :: 0 <= i < |OPERATORS| && OPERATORS[i] == operator && forall j :: 0 <= j < i ==> !(OPERATORS[j] <= text)
  }

  /** The first operator in the table that the text starts with. */
  method FindOperator(text: string) returns (operator: string)
    ensures operator == FirstOperator(OPERATORS, text) && operator <= text
    ensures operator != "" ==> IsFirstOperator(text, operator)
    ensures operator == "" <==> forall i :: 0 <= i < |OPERATORS| ==> !(OPERATORS[i] <= text)
  {
    OperatorsNotEmpty();
    hide OPERATORS;
    assert OPERATORS[0..] == OPERATORS;
    for i := 0 to |OPERATORS|
      invariant forall j :: 0 <= j < i ==> !(OPERATORS[j] <= text)
      invariant FirstOperator(OPERATORS[i..], text) == FirstOperator(OPERATORS, text)
    {
      assert OPERATORS[i..][1..] == OPERATORS[i + 1..];
      if OPERATORS[i] <= text {
        return OPERATORS[i];
      }
    }
    return "";
  }

  lemma OperatorsNotEmpty()
    ensures forall i :: 0 <= i < |OPERATORS| ==> OPERATORS[i] != ""
  {
    OperatorsShaped();
    hide OPERATORS;
    forall i | 0 <= i < |OPERATORS| ensures OPERATORS[i] != "" {
      assert OPERATORS[i] in OPERATORS;
      assert Shaped(OPERATORS[i]);
    }
  }

  /** A token that starts on a visible character is not blank. */
  lemma TokenAt(source: string, index: nat, end: nat, token: Token, tokens: seq<Token>)
    requires index < end <= |source| && token.value == source[index..end] && !IsSpace(source[index])
    requires token.kind.LineComment? ==> '\n' !in token.value
    requires Weaves(true, source[..index], tokens) && AllSane(tokens)
    ensures Weaves(true, source[..end], tokens + [token]) && AllSane(tokens + [token])
  {
    hide Weaves, IsSpace, StripWs, TrimEnd;
    var value := token.value;
    assert value[0] == source[index];
    assert value[|value|..] == "";
    assert Sane(token) && Shows(true, value, token);
    hide Sane, Shows;
    assert source[..index] + value == source[..end];
    WeaveToken(true, source[..index], value, tokens, token);
  }

  /** What is promised of a token that ends at `end`, given whether a slash can open a regular expression. */
  ghost predicate WellScanned(source: string, end: nat, token: Token, regex: bool)
    requires end <= |source|
  {
    && (end < |source| ==> Closed(token))
    && (!regex ==> Behaves(token) && (end < |source| ==> Finished(token) && Clear(ModeAfter(token), source[end])))
  }

  method ReadWord(source: string, index: nat) returns (end: nat)
    requires index < |source| && StartsWord(source[index])
    ensures index < end <= |source| && end == RunEnd(source, index + 1, InWord)
    ensures forall i :: index <= i < end ==> InNumber(source[i]) || source[i] == '$'
  {
    end := index + 1;
    while end < |source| && InWord(source[end])
      invariant index < end <= |source| && forall i :: index <= i < end ==> InNumber(source[i]) || source[i] == '$'
      invariant RunEnd(source, end, InWord) == RunEnd(source, index + 1, InWord)
    {
      end := end + 1;
    }
  }

  method ReadNumber(source: string, index: nat) returns (end: nat)
    requires index < |source| && IsDigit(source[index])
    ensures index < end <= |source| && end == RunEnd(source, index + 1, InNumber)
    ensures forall i :: index <= i < end ==> InNumber(source[i]) || source[i] == '$'
  {
    end := index + 1;
    while end < |source| && InNumber(source[end])
      invariant index < end <= |source| && forall i :: index <= i < end ==> InNumber(source[i]) || source[i] == '$'
      invariant RunEnd(source, end, InNumber) == RunEnd(source, index + 1, InNumber)
    {
      end := end + 1;
    }
  }

  /** One token that starts at `index`. */
  method ScanToken(source: string, index: nat, language: string, tokens: seq<Token>) returns (token: Token, end: nat)
    requires index < |source| && !IsSpace(source[index])
    ensures index < end <= |source| && token.value == source[index..end]
    ensures token == NextToken(source, index, language, tokens)
    ensures token.kind.LineComment? ==> '\n' !in token.value && (end < |source| ==> source[end] == '\n')
    ensures WellScanned(source, end, token, HasRegex(language))
  {
    hide OPERATORS, REGEX_AFTER, CanStartRegex, IsSpace, IsFirstOperator, TrimEnd, RegexCloses, WellScanned, InLiteral, StartsWithAt,
         IndexOf, QuotedEnd, RunEnd, RegexEnd, FirstOperator;
    var c := source[index];
    var next := if index + 1 < |source| then source[index + 1] else '\0';
    if c == '/' && next == '/' {
      end := FindAfter(source, "\n", index + 2);
      NoLineBreak(source, index, end);
      LineCommentScanned(source, index, end, HasRegex(language));
      return Token(LineComment, source[index..end]), end;
    }
    if c == '/' && next == '*' {
      end := FindAfter(source, "*/", index + 2);
      ghost var close := end;
      if end < |source| {
        TwoCharacters(source, end);
        end := end + 2;
      }
      BlockCommentScanned(source, index, close, end, HasRegex(language));
      return Token(BlockComment, source[index..end]), end;
    }
    if HasRegex(language) && c == '/' && CanStartRegex(tokens) {
      end := ReadRegex(source, index);
      if end > index + 1 {
        RegexScanned(source, index, end);
        return Token(Literal, source[index..end]), end;
      }
    }
    if c == '\"' || c == '\'' || c == '`' {
      end := ReadQuoted(source, index, c);
      QuotedScanned(source, index, end, c, HasRegex(language));
      return Token(Literal, source[index..end]), end;
    }
    if StartsWord(c) {
      end := ReadWord(source, index);
      NameScanned(source, index, end, Word, HasRegex(language));
      return Token(Word, source[index..end]), end;
    }
    if IsDigit(c) {
      end := ReadNumber(source, index);
      NameScanned(source, index, end, Number, HasRegex(language));
      return Token(Number, source[index..end]), end;
    }
    var operator := FindOperator(source[index..]);
    if operator != "" {
      end := index + |operator|;
      assert source[index..][..|operator|] == source[index..end];
      OperatorScanned(source, index, end, operator, HasRegex(language));
      return Token(Operator, operator), end;
    }
    MarkScanned(source, index, HasRegex(language));
    return Token(Punctuation, [c]), index + 1;
  }

  lemma TwoCharacters(source: string, at: nat)
    requires at < |source| && StartsWithAt(source, "*/", at)
    ensures at + 2 <= |source|
  {
  }

  // ---------------------------------------------------------- each kind of token behaves

  lemma LineCommentScanned(source: string, index: nat, end: nat, regex: bool)
    requires index + 2 <= end <= |source| && source[index] == '/' && source[index + 1] == '/'
    requires '\n' !in source[index..end] && (end < |source| ==> StartsWithAt(source, "\n", end))
    ensures end < |source| ==> source[end] == '\n'
    ensures WellScanned(source, end, Token(LineComment, source[index..end]), regex)
  {
    var rest := source[index + 2..end];
    assert forall i :: 0 <= i < |rest| ==> rest[i] == source[index..end][i + 2];
    assert source[index..end] == "//" + rest;
    assert end < |source| ==> "\n"[0] == source[end..][0];
    hide Paints, StripWs, TrimEnd;
    LineCommentPaint(rest);
  }

  lemma BlockCommentScanned(source: string, index: nat, close: nat, end: nat, regex: bool)
    requires index + 2 <= close <= |source| && source[index] == '/' && source[index + 1] == '*'
    requires forall i :: index + 2 <= i < close ==> !StartsWithAt(source, "*/", i)
    requires close < |source| ==> StartsWithAt(source, "*/", close)
    requires end == (if close < |source| then close + 2 else close) && end <= |source|
    ensures WellScanned(source, end, Token(BlockComment, source[index..end]), regex)
  {
    var body := source[index + 2..close];
    NotClosed(source, index + 2, close);
    assert source[index..close] == "/*" + body;
    if close < |source| {
      ClosedBy(source, close);
      assert source[index..end] == source[index..close] + source[close..end];
      hide Paints, StripWs, TrimEnd, StartsWithAt;
      BlockCommentPaint(body);
    } else {
      hide Paints, StripWs, TrimEnd, StartsWithAt;
      OpenBlockPaint(body);
    }
  }

  lemma NotClosed(source: string, from: nat, to: nat)
    requires from <= to <= |source| && forall i :: from <= i < to ==> !StartsWithAt(source, "*/", i)
    ensures NoClose(source[from..to])
  {
    var body := source[from..to];
    forall i | 0 <= i < |body| - 1 ensures !(body[i] == '*' && body[i + 1] == '/') {
      assert !StartsWithAt(source, "*/", from + i);
      assert source[from + i..][..2] == [body[i], body[i + 1]];
    }
  }

  lemma ClosedBy(source: string, at: nat)
    requires at < |source| && StartsWithAt(source, "*/", at)
    ensures at + 2 <= |source| && source[at..at + 2] == "*/"
  {
    assert source[at..][..2] == source[at..at + 2];
  }

  lemma RegexScanned(source: string, index: nat, end: nat)
    requires index < end <= |source|
    requires exists k :: index < k < end && RegexCloses(source, index, k) && forall i :: k < i < end ==> IsLetter(source[i])
    ensures WellScanned(source, end, Token(Literal, source[index..end]), true)
  {
    VisibleCharacters();
    RegexEndsVisibly(source, index, end);
    EndsVisibly(source[index..end]);
  }

  lemma QuotedScanned(source: string, index: nat, end: nat, quote: char, regex: bool)
    requires index < end <= |source| && source[index] == quote && IsQuote(quote)
    requires exists mode :: InLiteral(source[index..end], mode)
                            && (mode.Code? ==> source[end - 1] == quote) && (end < |source| ==> mode.Code?)
    ensures WellScanned(source, end, Token(Literal, source[index..end]), regex)
  {
    NotSpace();
    EndsVisibly(source[index..end]);
    hide Paints, StripWs, TrimEnd, IsSpace;
  }

  /** A token of characters that mean nothing to comments. */
  lemma OrdinaryScanned(source: string, end: nat, token: Token, regex: bool)
    requires end <= |source| && token.value != "" && !IsComment(token) && TrimEnd(token.value) == token.value
    requires forall i :: 0 <= i < |token.value| ==> Ordinary(token.value[i])
    requires IsOpener(token.value[0]) ==> token.kind.Operator? && token.value in SLASHED
    ensures WellScanned(source, end, token, regex)
  {
    PlainPaint(BLANK, token.value);
    assert Ordinary(token.value[0]) && !IsSlash(token);
    assert [] + Same(|StripWs(token.value)|, false) == Same(|StripWs(token.value)|, false);
    hide Paints, StripWs, TrimEnd, Same;
  }

  lemma NameScanned(source: string, index: nat, end: nat, kind: Kind, regex: bool)
    requires index < end <= |source| && (kind.Word? || kind.Number?)
    requires forall i :: index <= i < end ==> InNumber(source[i]) || source[i] == '$'
    ensures WellScanned(source, end, Token(kind, source[index..end]), regex)
  {
    VisibleCharacters();
    assert InNumber(source[end - 1]) || source[end - 1] == '$';
    EndsVisibly(source[index..end]);
    hide TrimEnd, IsSpace, WellScanned;
    OrdinaryScanned(source, end, Token(kind, source[index..end]), regex);
  }

  lemma OperatorScanned(source: string, index: nat, end: nat, operator: string, regex: bool)
    requires index < end <= |source| && operator == source[index..end] && IsFirstOperator(source[index..], operator)
    requires source[index] == '/' && index + 1 < |source| ==> !IsOpener(source[index + 1])
    ensures WellScanned(source, end, Token(Operator, operator), regex)
  {
    OperatorEndsVisibly(source[index..], operator);
    EndsVisibly(operator);
    hide TrimEnd, IsSpace, IsFirstOperator, WellScanned;
    if operator == "/" || operator == "/=" {
      assert operator[0] == source[index];
      SlashScanned(source, end, operator, regex);
    } else {
      OrdinaryScanned(source, end, Token(Operator, operator), regex);
    }
  }

  lemma SlashScanned(source: string, end: nat, operator: string, regex: bool)
    requires end <= |source| && (operator == "/" || operator == "/=")
    requires TrimEnd(operator) == operator && (operator == "/" && end < |source| ==> !IsOpener(source[end]))
    ensures WellScanned(source, end, Token(Operator, operator), regex)
  {
    SlashPaints();
    hide Paints, StripWs, TrimEnd, Same;
  }

  lemma SlashPaints()
    ensures Paints(BLANK, "/") == Paint(Slash, [false]) && StripWs("/") == "/"
    ensures Paints(BLANK, "/=") == Paint(Code, [false, false]) && StripWs("/=") == "/="
    ensures Same(1, false) == [false] && Same(2, false) == [false, false]
  {
    SlashVisible();
    assert !IsSpace('=');
    hide IsSpace, Paints, StripWs;
    assert ['/'] == "/" && "" + ['/'] == "/" && "/" + ['='] == "/=";
    PaintsOne(BLANK, '/');
    PaintsMore(BLANK, "/", '=');
    StripNothing();
    StripMore("", '/');
    StripMore("/", '=');
  }

  lemma StripNothing()
    ensures StripWs("") == ""
  {
  }

  lemma MarkScanned(source: string, index: nat, regex: bool)
    requires index < |source| && !IsSpace(source[index]) && !IsQuote(source[index])
    requires forall i :: 0 <= i < |OPERATORS| ==> !(OPERATORS[i] <= source[index..])
    ensures WellScanned(source, index + 1, Token(Punctuation, [source[index]]), regex)
  {
    var c := source[index];
    NotAnOperator(source[index..]);
    EndsVisibly([c]);
    hide TrimEnd, IsSpace, OPERATORS, WellScanned;
    OrdinaryScanned(source, index + 1, Token(Punctuation, [c]), regex);
  }

  lemma NotAnOperator(text: string)
    requires text != "" && forall i :: 0 <= i < |OPERATORS| ==> !(OPERATORS[i] <= text)
    ensures !IsOpener(text[0])
  {
    assert SHORT_OPERATORS[3] == "*" && SHORT_OPERATORS[4] == "/";
    var n := |LONG_OPERATORS + DOUBLE_OPERATORS + ASSIGNMENTS|;
    assert OPERATORS[n + 3] == "*" && OPERATORS[n + 4] == "/";
    assert text[..1] == [text[0]];
  }

  lemma VisibleCharacters()
    ensures forall c :: InWord(c) || InNumber(c) || c in {'"', '\'', '`', '/'} ==> !IsSpace(c)
  {
  }

  lemma EndsVisibly(value: string)
    ensures value != "" && !IsSpace(value[|value| - 1]) ==> TrimEnd(value) == value
  {
  }

  lemma RegexEndsVisibly(source: string, start: nat, end: nat)
    requires start < end <= |source|
    requires exists k :: start < k < end && RegexCloses(source, start, k) && forall i :: k < i < end ==> IsLetter(source[i])
    ensures !IsSpace(source[end - 1])
  {
  }

  lemma OperatorEndsVisibly(text: string, operator: string)
    requires IsFirstOperator(text, operator)
    ensures operator != "" && !IsSpace(operator[|operator| - 1])
    ensures operator == "/" || operator == "/=" || forall i :: 0 <= i < |operator| ==> Ordinary(operator[i])
    ensures IsOpener(operator[0]) ==> operator in SLASHED
  {
    hide OPERATORS, IsSpace;
    var i :| 0 <= i < |OPERATORS| && OPERATORS[i] == operator;
    OperatorsShaped();
    assert operator in OPERATORS;
    assert Shaped(operator);
  }

  /** Operators end on a visible character, and only two of them hold a slash. */
  predicate Shaped(operator: string) {
    && operator != "" && !IsSpace(operator[|operator| - 1])
    && (operator == "/" || operator == "/=" || forall i :: 0 <= i < |operator| ==> Ordinary(operator[i]))
    && (IsOpener(operator[0]) ==> operator in SLASHED)
  }

  lemma OperatorsShaped()
    ensures forall operator | operator in OPERATORS :: Shaped(operator)
  {
    LongShaped();
    DoubleShaped();
    AssignmentsShaped();
    ShortShaped();
    hide Shaped, LONG_OPERATORS, DOUBLE_OPERATORS, ASSIGNMENTS, SHORT_OPERATORS;
  }

  lemma LongShaped()
    ensures forall operator | operator in LONG_OPERATORS :: Shaped(operator)
  {
  }

  lemma DoubleShaped()
    ensures forall operator | operator in DOUBLE_OPERATORS :: Shaped(operator)
  {
  }

  lemma AssignmentsShaped()
    ensures forall operator | operator in ASSIGNMENTS :: Shaped(operator)
  {
  }

  lemma ShortShaped()
    ensures forall operator | operator in SHORT_OPERATORS :: Shaped(operator)
  {
  }

  lemma OneSpace(c: char)
    requires IsSpace(c)
    ensures AllSpace([c])
  {
  }

  lemma NoLineBreak(source: string, index: nat, end: nat)
    requires index + 2 <= end <= |source| && source[index] == '/' && source[index + 1] == '/'
    requires forall i :: index + 2 <= i < end ==> !StartsWithAt(source, "\n", i)
    ensures '\n' !in source[index..end]
  {
    forall i | index <= i < end ensures source[i] != '\n' {
      if i >= index + 2 {
        assert !StartsWithAt(source, "\n", i);
        assert source[i..][..1] == [source[i]];
      }
    }
  }

  /**
   The scanner loses nothing: the source is its tokens with white space between them. Where
   a slash never opens a regular expression, its comments are the tokens that are comments.
   */
  method ScanTokens(source: string, language: string) returns (tokens: seq<Token>)
    ensures tokens == Scan(source, language)
    ensures Weaves(true, source, tokens) && AllSane(tokens) && OpenLast(tokens)
    ensures !HasRegex(language) ==> Tame(tokens) && Marks(source) == MarksOf(tokens)
  {
    tokens := [];
    var index := 0;
    hide Weaves, AllSane, Sane, IsSpace, Closed, OpenLast, LastClosed, StripWs, TrimEnd, AllSpace,
         Behaves, Finished, Painted, Tame, LastFinished, Paints, Clear, Marks, MarksOf, Shows, NextToken;
    NothingScanned(source);
    while index < |source|
      invariant 0 <= index <= |source|
      invariant Weaves(true, source[..index], tokens) && AllSane(tokens)
      invariant OpenLast(tokens) && (index < |source| ==> LastClosed(tokens))
      invariant ScanFrom(source, language, index, tokens) == Scan(source, language)
      invariant !HasRegex(language) ==> Tame(tokens) && Painted(source, index, tokens) && (index < |source| ==> LastFinished(tokens))
    {
      if IsSpace(source[index]) {
        OneSpace(source[index]);
        WeaveSpace(true, source[..index], [source[index]], tokens);
        assert source[..index + 1] == source[..index] + [source[index]];
        if !HasRegex(language) {
          PaintedSpace(source, index, tokens);
        }
        index := index + 1;
        continue;
      }
      var token, end := ScanToken(source, index, language, tokens);
      TokenAt(source, index, end, token, tokens);
      OpenLastMore(tokens, token);
      if !HasRegex(language) {
        PaintedToken(source, index, end, token, tokens);
        TameMore(tokens, token);
      }
      tokens := tokens + [token];
      index := end;
    }
    assert source[..|source|] == source;
    if !HasRegex(language) {
      PaintedWhole(source, tokens);
    }
  }

  lemma NothingScanned(source: string)
    ensures Weaves(true, source[..0], []) && AllSane([]) && OpenLast([]) && LastClosed([])
    ensures Tame([]) && LastFinished([]) && Painted(source, 0, [])
  {
    assert source[..0] == "";
  }

  lemma PaintedWhole(source: string, tokens: seq<Token>)
    requires Painted(source, |source|, tokens)
    ensures Marks(source) == MarksOf(tokens)
  {
    assert source[..|source|] == source;
  }
}
