/**
 Formatting keeps the program: scanned again, the formatted text has the tokens of the
 document, unless two of them join where the layout writes them together.
 */
module Rescan {
  import opened WhiteSpace
  import opened Comments
  import opened Tokens
  import opened TokenLaws

  // ---------------------------------------------------------- where the tokens of a formatted text stand

  /** The tokens are shown from `starts` on, each up to the next. */
  ghost predicate Laid(text: string, tokens: seq<Token>, starts: seq<nat>) {
    && |starts| == |tokens|
    && Gap(text, 0, StartOr(|text|, starts, 0))
    && forall k :: 0 <= k < |tokens| ==> LaidAt(text, tokens, k, starts[k], StartOr(|text|, starts, k + 1))
  }

  ghost predicate LaidAt(text: string, tokens: seq<Token>, k: nat, start: nat, end: nat)
    requires k < |tokens|
  {
    start <= end <= |text| && Shows(false, text[start..end], tokens[k]) && Divides(text[..start], tokens[..k + 1])
  }

  lemma {:induction false} WeaveStarts(text: string, tokens: seq<Token>) returns (starts: seq<nat>)
    requires Weaves(false, text, tokens)
    ensures Laid(text, tokens, starts)
    decreases |tokens|
  {
    if tokens == [] {
      starts := [];
      assert text[0..|text|] == text;
    } else {
      var n := |tokens| - 1;
      var p :| 0 <= p <= |text| && Weaves(false, text[..p], tokens[..n]) && Shows(false, text[p..], tokens[n])
               && Divides(text[..p], tokens);
      hide Shows, Divides, Weaves, Laid;
      var above := WeaveStarts(text[..p], tokens[..n]);
      LaidMore(text, p, tokens, above);
      starts := above + [p];
    }
  }

  lemma LaidMore(text: string, p: nat, tokens: seq<Token>, above: seq<nat>)
    requires tokens != [] && p <= |text| && Laid(text[..p], tokens[..|tokens| - 1], above)
    requires Shows(false, text[p..], tokens[|tokens| - 1]) && Divides(text[..p], tokens)
    ensures Laid(text, tokens, above + [p])
  {
    var n, starts := |tokens| - 1, above + [p];
    hide Shows, Divides;
    StartsMore(above, p, |text|);
    hide StartOr;
    GapInPrefix(text, p, StartOr(p, above, 0));
    assert LaidAt(text, tokens, n, p, |text|) by {
      assert text[p..|text|] == text[p..] && tokens[..n + 1] == tokens;
    }
    hide Gap;
    forall k | 0 <= k < n ensures LaidAt(text, tokens, k, starts[k], StartOr(|text|, starts, k + 1)) {
      assert LaidAt(text[..p], tokens[..n], k, above[k], StartOr(p, above, k + 1));
      LaidInPrefix(text, p, tokens, n, k, above[k], StartOr(p, above, k + 1));
    }
  }

  lemma GapInPrefix(text: string, p: nat, end: nat)
    requires p <= |text| && Gap(text[..p], 0, end)
    ensures Gap(text, 0, end)
  {
    assert text[..p][0..end] == text[0..end];
  }

  lemma LaidInPrefix(text: string, p: nat, tokens: seq<Token>, n: nat, k: nat, start: nat, end: nat)
    requires p <= |text| && n <= |tokens| && k < n && LaidAt(text[..p], tokens[..n], k, start, end)
    ensures LaidAt(text, tokens, k, start, end)
  {
    hide Shows, Divides;
    assert text[..p][start..end] == text[start..end] && text[..p][..start] == text[..start];
    assert tokens[..n][..k + 1] == tokens[..k + 1];
  }

  // ---------------------------------------------------------- the same token in another place

  /** From `at` on the text shows the characters of `v`. */
  ghost predicate Stands(text: string, at: nat, v: string) {
    at + |v| <= |text| && text[at..at + |v|] == v
  }

  lemma StandsChars(text: string, at: nat, v: string)
    requires Stands(text, at, v)
    ensures forall i :: at <= i < at + |v| ==> text[i] == v[i - at]
  {
    forall i | at <= i < at + |v| ensures text[i] == v[i - at] {
      assert text[at..at + |v|][i - at] == text[i];
    }
  }

  /** The two texts agree over `n` characters. */
  ghost predicate Agree(s: string, i: nat, t: string, j: nat, n: nat) {
    i + n <= |s| && j + n <= |t| && forall a :: i <= a < i + n ==> s[a] == t[a - i + j]
  }

  lemma StandsAgree(s: string, i: nat, t: string, j: nat, v: string)
    requires v != "" && Stands(s, i, v) && Stands(t, j, v)
    ensures Agree(s, i, t, j, |v|) && Agree(t, j, s, i, |v|) && s[i] == t[j] == v[0]
  {
    StandsChars(s, i, v);
    StandsChars(t, j, v);
  }

  /** A run ends where it is said to. */
  lemma {:induction false} RunEnds(text: string, index: nat, end: nat, accept: char -> bool)
    requires index <= end <= |text|
    requires forall i :: index <= i < end ==> accept(text[i])
    requires end < |text| ==> !accept(text[end])
    ensures RunEnd(text, index, accept) == end
    decreases end - index
  {
    if index < end {
      RunEnds(text, index + 1, end, accept);
    }
  }

  lemma WordMoves(text: string, at: nat, v: string, language: string, tokens: seq<Token>)
    requires v != "" && Stands(text, at, v) && StartsWord(v[0]) && forall i :: 0 <= i < |v| ==> InWord(v[i])
    requires at + |v| < |text| ==> !InWord(text[at + |v|])
    ensures NextToken(text, at, language, tokens) == Token(Word, v)
  {
    StandsChars(text, at, v);
    RunEnds(text, at + 1, at + |v|, InWord);
    hide OPERATORS, FirstOperator, RegexEnd, QuotedEnd, RunEnd, IndexOf, CanStartRegex;
  }

  lemma NumberMoves(text: string, at: nat, v: string, language: string, tokens: seq<Token>)
    requires v != "" && Stands(text, at, v) && IsDigit(v[0]) && forall i :: 0 <= i < |v| ==> InNumber(v[i])
    requires at + |v| < |text| ==> !InNumber(text[at + |v|])
    ensures NextToken(text, at, language, tokens) == Token(Number, v)
  {
    StandsChars(text, at, v);
    RunEnds(text, at + 1, at + |v|, InNumber);
    hide OPERATORS, FirstOperator, RegexEnd, QuotedEnd, RunEnd, IndexOf, CanStartRegex;
  }

  // ---------------------------------------------------------- quoted literals

  /** A quote that is not escaped closes the literal. */
  predicate Closes(s: string, index: nat, quote: char)
    decreases if index < |s| then |s| - index else 0
  {
    index < |s| && if s[index] == '\\' then Closes(s, index + 2, quote) else s[index] == quote || Closes(s, index + 1, quote)
  }

  lemma {:induction false} ClosesMeans(s: string, index: nat, quote: char)
    requires quote != '\\'
    ensures var end := QuotedEnd(s, index, quote);
            if Closes(s, index, quote) then index < end <= |s| && s[end - 1] == quote else end == |s|
    decreases if index < |s| then |s| - index else 0
  {
    if index < |s| {
      if s[index] == '\\' {
        ClosesMeans(s, index + 2, quote);
      } else if s[index] != quote {
        ClosesMeans(s, index + 1, quote);
      }
    }
  }

  /** Where two texts agree up to the closing quote, both close there. */
  lemma {:induction false} QuotedMoves(s: string, i: nat, t: string, j: nat, n: nat, quote: char)
    requires quote != '\\' && Closes(s, i, quote) && QuotedEnd(s, i, quote) <= i + n
    requires Agree(s, i, t, j, n)
    ensures Closes(t, j, quote) && QuotedEnd(t, j, quote) - j == QuotedEnd(s, i, quote) - i
    decreases n
  {
    ClosesMeans(s, i, quote);
    assert s[i] == t[j];
    if s[i] == '\\' {
      ClosesMeans(s, i + 2, quote);
      QuotedMoves(s, i + 2, t, j + 2, n - 2, quote);
    } else if s[i] != quote {
      ClosesMeans(s, i + 1, quote);
      QuotedMoves(s, i + 1, t, j + 1, n - 1, quote);
    }
  }

  lemma QuotedNext(text: string, at: nat, language: string, tokens: seq<Token>)
    requires at < |text| && IsQuote(text[at])
    ensures QuotedEnd(text, at + 1, text[at]) > at
    ensures NextToken(text, at, language, tokens) == Token(Literal, text[at..QuotedEnd(text, at + 1, text[at])])
  {
    ClosesMeans(text, at + 1, text[at]);
    hide OPERATORS, FirstOperator, RegexEnd, QuotedEnd, RunEnd, IndexOf, CanStartRegex;
  }

  /** A closed literal is read as it was. */
  lemma ClosedMoves(source: string, at0: nat, text: string, at: nat, v: string, language: string, tokens: seq<Token>)
    requires v != "" && Stands(source, at0, v) && Stands(text, at, v) && IsQuote(v[0])
    requires Closes(source, at0 + 1, v[0]) && QuotedEnd(source, at0 + 1, v[0]) == at0 + |v|
    ensures NextToken(text, at, language, tokens) == Token(Literal, v)
  {
    StandsAgree(source, at0, text, at, v);
    QuotedMoves(source, at0 + 1, text, at + 1, |v| - 1, v[0]);
    QuotedNext(text, at, language, tokens);
  }

  /** An open literal stays open when white space at its end changes. */
  lemma OpenMoves(source: string, at0: nat, text: string, at: nat, body: string, language: string, tokens: seq<Token>)
    requires body != "" && Stands(source, at0, body) && Stands(text, at, body) && IsQuote(body[0])
    requires !Closes(source, at0 + 1, body[0]) && AllSpace(text[at + |body|..])
    ensures NextToken(text, at, language, tokens) == Token(Literal, text[at..])
  {
    StandsAgree(source, at0, text, at, body);
    var quote := body[0];
    NotSpace();
    forall i | at + |body| <= i < |text| ensures text[i] != quote {
      assert text[at + |body|..][i - at - |body|] == text[i];
    }
    assert text[at..|text|] == text[at..];
    ClosesMeans(text, at + 1, quote);
    QuotedNext(text, at, language, tokens);
    if Closes(text, at + 1, quote) {
      QuotedMoves(text, at + 1, source, at0 + 1, |body| - 1, quote);
    }
  }

  // ---------------------------------------------------------- regular expressions

  lemma {:induction false} StateMoves(s: string, i: nat, t: string, j: nat, n: nat, k: nat)
    requires 0 < k <= n && Agree(s, i, t, j, n)
    ensures RegexState(s, i, i + k) == RegexState(t, j, j + k)
    decreases k
  {
    if k > 1 {
      StateMoves(s, i, t, j, n, k - 1);
      assert s[i + k - 1] == t[j + k - 1];
    }
  }

  /** A regular expression is read as it was, unless a letter follows. */
  lemma {:induction false} RegexMoves(s: string, i: nat, t: string, j: nat, n: nat, k: nat)
    requires 0 < k <= n && Agree(s, i, t, j, n)
    requires RegexEnd(s, i, i + k) == i + n && n > 1
    requires j + n < |t| ==> !IsLetter(t[j + n])
    ensures RegexEnd(t, j, j + k) == j + n
    decreases n - k
  {
    StateMoves(s, i, t, j, n, k);
    hide RegexState;
    if k < n {
      assert s[i + k] == t[j + k];
      assert BreakAt(s, i, i + k) <==> BreakAt(t, j, j + k);
      assert SlashAt(s, i, i + k) <==> SlashAt(t, j, j + k);
      if SlashAt(s, i, i + k) {
        RunMeans(s, i + k + 1, IsLetter);
        forall m | j + k + 1 <= m < j + n ensures IsLetter(t[m]) {
          assert s[m - j + i] == t[m];
        }
        RunEnds(t, j + k + 1, j + n, IsLetter);
      } else {
        RegexMoves(s, i, t, j, n, k + 1);
      }
    } else {
      RegexLater(s, i, i + n);
    }
  }

  /** A regular expression that is still read on does not end where it has got to. */
  lemma {:induction false} RegexLater(s: string, start: nat, index: nat)
    requires start + 1 < index <= |s|
    ensures RegexEnd(s, start, index) == start + 1 || RegexEnd(s, start, index) > index
    decreases |s| - index
  {
    if index < |s| {
      RegexLater(s, start, index + 1);
    }
  }

  // ---------------------------------------------------------- comments and marks

  lemma {:induction false} IndexIs(text: string, part: string, from: nat, end: nat)
    requires part != "" && from <= end <= |text| && (end < |text| ==> part <= text[end..])
    requires forall i :: from <= i < end ==> !(part <= text[i..])
    ensures IndexOf(text, part, from) == end
    decreases end - from
  {
    if from < end {
      IndexIs(text, part, from + 1, end);
    }
  }

  lemma LineMoves(text: string, at: nat, body: string, language: string, tokens: seq<Token>)
    requires Stands(text, at, body) && "//" <= body && '\n' !in body
    requires at + |body| < |text| && text[at + |body|] == '\n'
    ensures NextToken(text, at, language, tokens) == Token(LineComment, body)
  {
    StandsChars(text, at, body);
    var end := at + |body|;
    assert text[end..][..1] == "\n";
    forall i | at + 2 <= i < end ensures !("\n" <= text[i..]) {
      assert text[i..][0] == body[i - at];
    }
    IndexIs(text, "\n", at + 2, end);
    hide OPERATORS, FirstOperator, RegexEnd, QuotedEnd, RunEnd, IndexOf, CanStartRegex;
  }

  lemma PairAhead(text: string, i: nat)
    requires i <= |text|
    ensures "*/" <= text[i..] <==> ClosePair(text, i)
  {
    if ClosePair(text, i) {
      assert text[i..][..2] == [text[i], text[i + 1]];
    }
  }

  /** A block comment is read up to where it closes, or to the end. */
  lemma BlockMoves(text: string, at: nat, end: nat, language: string, tokens: seq<Token>)
    requires at + 2 <= end <= |text| && text[at] == '/' && text[at + 1] == '*'
    requires forall i :: at + 2 <= i < end ==> !ClosePair(text, i)
    requires end < |text| ==> ClosePair(text, end)
    ensures NextToken(text, at, language, tokens) == Token(BlockComment, text[at..if end < |text| then end + 2 else end])
  {
    forall i | at + 2 <= i <= end ensures "*/" <= text[i..] <==> ClosePair(text, i) {
      PairAhead(text, i);
    }
    IndexIs(text, "*/", at + 2, end);
    hide OPERATORS, FirstOperator, RegexEnd, QuotedEnd, RunEnd, IndexOf, CanStartRegex;
  }

  /** No comment and no regular expression starts here. */
  ghost predicate Bare(text: string, at: nat, language: string, tokens: seq<Token>)
    requires at < |text|
  {
    && !("//" <= text[at..]) && !("/*" <= text[at..])
    && (HasRegex(language) && text[at] == '/' ==> !CanStartRegex(tokens))
  }

  lemma PlainNext(text: string, at: nat, language: string, tokens: seq<Token>)
    requires at < |text| && Bare(text, at, language, tokens)
    requires !IsQuote(text[at]) && !StartsWord(text[at]) && !IsDigit(text[at])
    ensures var o := FirstOperator(OPERATORS, text[at..]);
            NextToken(text, at, language, tokens) == if o != "" then Token(Operator, o) else Token(Punctuation, [text[at]])
  {
    var rest := text[at..];
    if |rest| >= 2 {
      assert rest[..2] == [text[at], text[at + 1]];
    }
    hide OPERATORS, FirstOperator, RegexEnd, QuotedEnd, RunEnd, IndexOf, CanStartRegex, HasRegex;
  }

  lemma OperatorMoves(text: string, at: nat, v: string, language: string, tokens: seq<Token>)
    requires at < |text| && v in OPERATORS && v <= text[at..] && Bare(text, at, language, tokens)
    requires forall o | o in OPERATORS && o <= text[at..] :: |o| <= |v|
    ensures NextToken(text, at, language, tokens) == Token(Operator, v)
  {
    hide *;
    var rest := text[at..];
    OperatorsMarked(v);
    OperatorsNotEmpty();
    MaximalMunch(rest, v);
    FirstOfNone(OPERATORS, rest);
    MarkedKinds(v);
    assert rest[0] == text[at] == v[0];
    PlainNext(text, at, language, tokens);
    var first := FirstOperator(OPERATORS, rest);
    Prefixes(v, first, rest);
  }

  lemma MarkedKinds(o: string)
    requires Marked(o)
    ensures o != "" && !IsQuote(o[0]) && !StartsWord(o[0]) && !IsDigit(o[0])
  {
  }

  lemma MarkMoves(text: string, at: nat, language: string, tokens: seq<Token>)
    requires at < |text| && Bare(text, at, language, tokens)
    requires !IsQuote(text[at]) && !StartsWord(text[at]) && !IsDigit(text[at])
    requires forall o | o in OPERATORS :: !(o <= text[at..])
    ensures NextToken(text, at, language, tokens) == Token(Punctuation, [text[at]])
  {
    OperatorsNotEmpty();
    hide OPERATORS, FirstOperator, NextToken, Bare;
    FirstOfNone(OPERATORS, text[at..]);
    PlainNext(text, at, language, tokens);
  }

  // ---------------------------------------------------------- when tokens stay what they are

  /** What stands from this token on if everything is written together that need not be set apart. */
  function Ahead(tokens: seq<Token>, k: nat): string
    requires k < |tokens|
    decreases |tokens| - k
  {
    tokens[k].value + if k + 1 < |tokens| && !SetApart(tokens[k], tokens[k + 1]) then Ahead(tokens, k + 1) else ""
  }

  /** No longer operator starts where the token does, and none at all if it is none. */
  ghost predicate Longest(t: Token, ahead: string) {
    forall o | o in OPERATORS && o <= ahead :: t.kind.Operator? && |o| <= |t.value|
  }

  /**
   Even written together with those behind it the token is read as it is: no number takes a
   dot along, no operator grows, no two characters open a comment, and no slash a regular
   expression.
   */
  ghost predicate Survives(tokens: seq<Token>, k: nat, language: string)
    requires k < |tokens|
  {
    var t, ahead := tokens[k], Ahead(tokens, k);
    && (t.kind.Number? && k + 1 < |tokens| && !SetApart(t, tokens[k + 1]) ==> !("." <= tokens[k + 1].value))
    && (IsMark(t) ==>
          && !("//" <= ahead) && !("/*" <= ahead)
          && Longest(t, ahead)
          && (HasRegex(language) && "/" <= t.value ==> !CanStartRegex(tokens[..k])))
  }

  /** The same token, but for white space inside a comment or at the end of an open literal, the last token there is. */
  ghost predicate Alike(a: Token, b: Token, last: bool) {
    && a.kind == b.kind && a.value != "" && b.value != "" && a.value[0] == b.value[0]
    && (a.value == b.value || (IsComment(b) && StripWs(a.value) == StripWs(b.value))
        || (last && b.kind.Literal? && TrimEnd(a.value) == TrimEnd(b.value)))
  }

  ghost predicate SameTokens(a: seq<Token>, b: seq<Token>) {
    |a| == |b| && forall k :: 0 <= k < |a| ==> Alike(a[k], b[k], k + 1 == |b|)
  }

  // ---------------------------------------------------------- what the source tells of its tokens

  /** A token stands in the source where it is read, and starts visibly. */
  lemma TokenStands(source: string, language: string, tokens: seq<Token>, k: nat, at: nat)
    requires k < |tokens| && ReadAt(source, language, tokens, k, at)
    ensures var v := tokens[k].value; v != "" && Stands(source, at, v) && v[0] == source[at] && !IsSpace(v[0])
  {
    hide OPERATORS, REGEX_AFTER, CanStartRegex, IsSpace, QuotedEnd, RunEnd, RegexEnd, IndexOf, FirstOperator;
    var v := tokens[k].value;
    if tokens[k].kind.Operator? {
      var rest := source[at..];
      assert rest[..|v|] == source[at..at + |v|];
    } else if tokens[k].kind.Punctuation? {
      assert source[at..at + 1] == [source[at]];
    } else if tokens[k].kind.LineComment? {
      assert v == source[at..IndexOf(source, "\n", at + 2)];
    } else if tokens[k].kind.BlockComment? {
      var close := IndexOf(source, "*/", at + 2);
      assert v == source[at..if close < |source| then close + 2 else close];
    } else if tokens[k].kind.Word? {
      assert v == source[at..RunEnd(source, at + 1, InWord)];
    } else if tokens[k].kind.Number? {
      assert v == source[at..RunEnd(source, at + 1, InNumber)];
    } else if IsQuote(source[at]) {
      ClosesMeans(source, at + 1, source[at]);
      assert v == source[at..QuotedEnd(source, at + 1, source[at])];
    } else {
      assert v == source[at..RegexEnd(source, at, at + 1)];
    }
  }

  /** Letters and digits start words and numbers. */
  lemma WordyStart(source: string, language: string, tokens: seq<Token>, k: nat, at: nat)
    requires k < |tokens| && ReadAt(source, language, tokens, k, at)
    ensures InWord(source[at]) ==> IsWordy(tokens[k])
  {
    WordsWhole(source, language, tokens, k, at);
    NumbersWhole(source, language, tokens, k, at);
    hide NextToken;
  }

  /** A comment is a block as long as it is read. */
  lemma BlockLexed(source: string, language: string, tokens: seq<Token>, k: nat, at: nat)
    requires k < |tokens| && ReadAt(source, language, tokens, k, at) && tokens[k].kind.BlockComment?
    ensures var v := tokens[k].value;
            && IsBlock(v) && (at + |v| < |source| ==> exists c :: ClosesAt(v, c))
  {
    BlockCommentsRead(source, language, tokens, k, at);
    TokenStands(source, language, tokens, k, at);
    var v := tokens[k].value;
    hide ReadAt;
    StandsChars(source, at, v);
    forall i | 2 <= i < |v| - 2 ensures !ClosePair(v, i) {
      assert v[i] == source[at + i] && v[i + 1] == source[at + i + 1];
    }
    forall c | ClosesAt(v, c) ensures c + 2 == |v| {
      assert ClosePair(v, c);
    }
    if at + |v| < |source| {
      assert ClosesAt(v, |v| - 2);
    }
  }

  lemma {:induction false} RegexLast(s: string, start: nat, index: nat)
    requires start < index <= |s|
    ensures var end := RegexEnd(s, start, index); end == start + 1 || s[end - 1] == '/' || IsLetter(s[end - 1])
    decreases |s| - index
  {
    if index < |s| {
      if SlashAt(s, start, index) {
        RunMeans(s, index + 1, IsLetter);
      }
      hide RegexState;
      RegexLast(s, start, index + 1);
    }
  }

  /** How a literal is read: as a regular expression, or up to its quote. */
  lemma LiteralRead(source: string, language: string, tokens: seq<Token>, k: nat, at: nat)
    requires k < |tokens| && ReadAt(source, language, tokens, k, at) && tokens[k].kind.Literal?
    ensures var end := at + |tokens[k].value|;
            if source[at] == '/' then
              && HasRegex(language) && CanStartRegex(tokens[..k]) && RegexEnd(source, at, at + 1) == end > at + 1
              && at + 1 < |source| && source[at + 1] !in {'/', '*'}
            else IsQuote(source[at]) && QuotedEnd(source, at + 1, source[at]) == end
  {
    ClosesMeans(source, at + 1, source[at]);
    hide OPERATORS, REGEX_AFTER, CanStartRegex, IsSpace, QuotedEnd, RunEnd, RegexEnd, IndexOf, FirstOperator, HasRegex;
  }

  /** A literal ends on a visible character, or is open and the last token there is. */
  lemma LiteralEnds(source: string, language: string, tokens: seq<Token>, k: nat, at: nat)
    requires k < |tokens| && ReadAt(source, language, tokens, k, at) && tokens[k].kind.Literal?
    ensures var v := tokens[k].value;
            && v != ""
            && (source[at] == '/' || Closes(source, at + 1, source[at]) ==> !IsSpace(v[|v| - 1]))
            && (source[at] != '/' && !Closes(source, at + 1, source[at]) ==> at + |v| == |source|)
  {
    hide *;
    LiteralRead(source, language, tokens, k, at);
    TokenStands(source, language, tokens, k, at);
    var v := tokens[k].value;
    StandsChars(source, at, v);
    assert v[|v| - 1] == source[at + |v| - 1];
    if source[at] == '/' {
      RegexLast(source, at, at + 1);
      LiteralLast(v[|v| - 1]);
    } else {
      LiteralLast(source[at]);
      NoQuote();
      ClosesMeans(source, at + 1, source[at]);
    }
  }

  lemma LiteralLast(c: char)
    ensures IsLetter(c) || IsQuote(c) || c == '/' ==> !IsSpace(c)
    ensures IsQuote(c) ==> c != '\\'
  {
  }

  /** What it means for a token of a scan to stand where it does. */
  lemma PlacedFacts(source: string, language: string, tokens: seq<Token>, starts: seq<nat>, k: nat)
    requires Placed(source, language, tokens, starts, |source|) && k < |tokens|
    ensures |starts| == |tokens| && ReadAt(source, language, tokens, k, starts[k])
    ensures starts[k] < |source| && !IsSpace(source[starts[k]]) && (k + 1 < |tokens| ==> starts[k + 1] < |source|)
    ensures var e, end := starts[k] + |tokens[k].value|, if k + 1 < |tokens| then starts[k + 1] else |source|;
            e <= end <= |source| && AllSpace(source[e..end])
  {
    hide NextToken, IsSpace, AllSpace;
    assert ReadAt(source, language, tokens, k, starts[k]);
    assert Gap(source, starts[k] + |tokens[k].value|, StartOr(|source|, starts, k + 1));
    if k + 1 < |tokens| {
      assert ReadAt(source, language, tokens, k + 1, starts[k + 1]);
    }
  }

  lemma LastWordy(source: string, language: string, tokens: seq<Token>, k: nat, at: nat)
    requires k < |tokens| && ReadAt(source, language, tokens, k, at) && tokens[k].kind in {Word, Number}
    ensures var v := tokens[k].value; v != "" && !IsSpace(v[|v| - 1])
  {
    hide *;
    WordChars(source, language, tokens, k, at);
    var v := tokens[k].value;
    SpaceIsNoWord(v[|v| - 1]);
  }

  lemma LastOperator(o: string)
    requires o in OPERATORS
    ensures o != "" && !IsSpace(o[|o| - 1])
  {
    OperatorsShaped();
    assert Shaped(o);
  }

  /** Any other token but a comment ends on a visible character. */
  lemma OthersEnd(source: string, language: string, tokens: seq<Token>, k: nat, at: nat)
    requires k < |tokens| && ReadAt(source, language, tokens, k, at) && tokens[k].kind in {Word, Number, Operator, Punctuation}
    ensures var v := tokens[k].value; v != "" && !IsSpace(v[|v| - 1])
  {
    hide *;
    match tokens[k].kind {
      case Word => LastWordy(source, language, tokens, k, at);
      case Number => LastWordy(source, language, tokens, k, at);
      case Punctuation =>
        MarkFirst(source, language, tokens, k, at);
        TokenStands(source, language, tokens, k, at);
      case Operator =>
        OperatorRead(source, language, tokens, k, at);
        LastOperator(tokens[k].value);
    }
  }

  /** Trimming takes nothing from a token that another one follows. */
  lemma FollowedEnds(source: string, language: string, tokens: seq<Token>, starts: seq<nat>, k: nat)
    requires Placed(source, language, tokens, starts, |source|) && k < |tokens| && !IsComment(tokens[k])
    requires k + 1 < |tokens| || !tokens[k].kind.Literal? || source[starts[k]] == '/' || Closes(source, starts[k] + 1, source[starts[k]])
    ensures var v := tokens[k].value; v != "" && !IsSpace(v[|v| - 1]) && TrimEnd(v) == v
  {
    hide *;
    var v := tokens[k].value;
    WordyKind(tokens[k]);
    PlacedFacts(source, language, tokens, starts, k);
    if tokens[k].kind.Literal? {
      LiteralEnds(source, language, tokens, k, starts[k]);
    } else {
      OthersEnd(source, language, tokens, k, starts[k]);
    }
    EndsVisibly(v);
  }

  // ---------------------------------------------------------- what the text shows of them

  /** What is shown of a token that is no block comment. */
  lemma ShownBody(text: string, tokens: seq<Token>, k: nat, start: nat, end: nat)
    requires k < |tokens| && LaidAt(text, tokens, k, start, end) && !tokens[k].kind.BlockComment?
    ensures var body := TrimEnd(tokens[k].value);
            && Stands(text, start, body) && start + |body| <= end && AllSpace(text[start + |body|..end])
            && (tokens[k].kind.LineComment? ==> start + |body| < end && text[start + |body|] == '\n')
  {
    var body, s := TrimEnd(tokens[k].value), text[start..end];
    hide TrimEnd, Divides, IsSpace;
    assert s[..|body|] == text[start..start + |body|];
    assert s[|body|..] == text[start + |body|..end];
    assert |s| > |body| ==> s[|body|] == text[start + |body|];
  }

  /** A token is shown from its first character on. */
  lemma ShownStart(text: string, tokens: seq<Token>, k: nat, start: nat, end: nat)
    requires k < |tokens| && LaidAt(text, tokens, k, start, end)
    requires tokens[k].value != "" && !IsSpace(tokens[k].value[0]) && (tokens[k].kind.BlockComment? ==> IsBlock(tokens[k].value))
    ensures start < end && text[start] == tokens[k].value[0]
  {
    var v := tokens[k].value;
    if tokens[k].kind.BlockComment? {
      var s := text[start..end];
      assert IsOpened(s) && IsOpened(v) by {
        hide StripWs, ClosesAt;
      }
      assert s[0] == text[start];
    } else {
      ShownBody(text, tokens, k, start, end);
      VisibleBody(v);
      TrimEndSplits(v);
      hide TrimEnd, LaidAt, IsSpace, StripWs;
      StandsChars(text, start, TrimEnd(v));
    }
  }

  /** The tokens of a source, where they stand there, and where a formatted text shows them. */
  datatype Document = Document(source: string, language: string, tokens: seq<Token>, origins: seq<nat>, text: string, starts: seq<nat>)

  ghost predicate Valid(d: Document) {
    Placed(d.source, d.language, d.tokens, d.origins, |d.source|) && Laid(d.text, d.tokens, d.starts)
  }

  function End(d: Document, k: nat): nat {
    StartOr(|d.text|, d.starts, k + 1)
  }

  lemma TokenBoth(d: Document, k: nat)
    requires Valid(d) && k < |d.tokens|
    ensures |d.origins| == |d.starts| == |d.tokens|
    ensures ReadAt(d.source, d.language, d.tokens, k, d.origins[k]) && LaidAt(d.text, d.tokens, k, d.starts[k], End(d, k))
    ensures var v := d.tokens[k].value;
            && v != "" && !IsSpace(v[0]) && Stands(d.source, d.origins[k], v) && d.source[d.origins[k]] == v[0]
            && d.starts[k] < End(d, k) <= |d.text| && d.text[d.starts[k]] == v[0]
  {
    assert ReadAt(d.source, d.language, d.tokens, k, d.origins[k]);
    assert LaidAt(d.text, d.tokens, k, d.starts[k], End(d, k));
    hide Placed, Laid;
    TokenStands(d.source, d.language, d.tokens, k, d.origins[k]);
    if d.tokens[k].kind.BlockComment? {
      BlockLexed(d.source, d.language, d.tokens, k, d.origins[k]);
    }
    hide ReadAt, Stands, IsBlock;
    ShownStart(d.text, d.tokens, k, d.starts[k], End(d, k));
  }

  lemma EndIs(d: Document, k: nat)
    ensures End(d, k) == if k + 1 < |d.starts| then d.starts[k + 1] else |d.text|
  {
  }

  /** What may follow the visible part of a token. */
  lemma NextCharacter(d: Document, k: nat)
    requires Valid(d) && k < |d.tokens| && !d.tokens[k].kind.BlockComment?
    ensures |d.starts| == |d.tokens|
    ensures var e := d.starts[k] + |TrimEnd(d.tokens[k].value)|;
            && e <= End(d, k) <= |d.text| && Stands(d.text, d.starts[k], TrimEnd(d.tokens[k].value))
            && AllSpace(d.text[e..End(d, k)])
            && (e < |d.text| ==> IsSpace(d.text[e])
                                 || (k + 1 < |d.tokens| && e == d.starts[k + 1] && !SetApart(d.tokens[k], d.tokens[k + 1])
                                     && d.tokens[k + 1].value != "" && d.text[e] == d.tokens[k + 1].value[0]))
  {
    hide *;
    TokenBoth(d, k);
    if k + 1 < |d.tokens| {
      TokenBoth(d, k + 1);
    }
    EndIs(d, k);
    var v := d.tokens[k].value;
    VisibleBody(v);
    ShownBody(d.text, d.tokens, k, d.starts[k], End(d, k));
    var body := TrimEnd(v);
    var e := d.starts[k] + |body|;
    if e < End(d, k) {
      FirstSpace(d.text, e, End(d, k));
    } else if k + 1 < |d.tokens| {
      BodyDivides(d.text, d.tokens, k, d.starts[k], body, e, End(d, k + 1));
    }
  }

  lemma FirstSpace(text: string, from: nat, end: nat)
    requires from < end <= |text| && AllSpace(text[from..end])
    ensures IsSpace(text[from])
  {
    assert text[from..end][0] == text[from];
  }

  lemma VisibleBody(v: string)
    requires v != "" && !IsSpace(v[0])
    ensures TrimEnd(v) != "" && !IsSpace(TrimEnd(v)[|TrimEnd(v)| - 1])
  {
    TrimEndSplits(v);
  }

  /** Tokens that touch are none that are set apart. */
  lemma BodyDivides(text: string, tokens: seq<Token>, k: nat, start: nat, body: string, e: nat, end: nat)
    requires k + 1 < |tokens| && body != "" && !IsSpace(body[|body| - 1]) && Stands(text, start, body) && e == start + |body|
    requires LaidAt(text, tokens, k + 1, e, end)
    ensures !SetApart(tokens[k], tokens[k + 1])
  {
    StandsChars(text, start, body);
    var two := tokens[..k + 2];
    assert two[|two| - 2] == tokens[k] && two[|two| - 1] == tokens[k + 1];
    assert text[..e][|text[..e]| - 1] == text[e - 1] == body[|body| - 1];
    hide Shows, IsSpace, SetApart;
  }

  /** What stands in the text without white space stands in the tokens written together. */
  lemma {:induction false} AheadCovers(d: Document, k: nat, o: string)
    requires Valid(d) && k < |d.tokens| && !IsComment(d.tokens[k]) && forall i :: 0 <= i < |o| ==> !IsSpace(o[i])
    requires |d.starts| == |d.tokens| && d.starts[k] <= |d.text| && o <= d.text[d.starts[k]..]
    ensures o <= Ahead(d.tokens, k)
    decreases |d.tokens| - k
  {
    hide *;
    WordyKind(d.tokens[k]);
    NextCharacter(d, k);
    var v, body, start := d.tokens[k].value, TrimEnd(d.tokens[k].value), d.starts[k];
    TrimEndPrefix(v);
    AheadIs(d.tokens, k);
    if |o| <= |body| {
      CoverShort(d.text, start, body, o);
    } else {
      CoverLong(d.text, start, body, o);
      Origins(d);
      NoCommentNext(d.tokens[k], d.tokens[k + 1]);
      FollowedEnds(d.source, d.language, d.tokens, d.origins, k);
      TokenBoth(d, k + 1);
      AheadCovers(d, k + 1, o[|body|..]);
    }
  }

  lemma NoCommentNext(a: Token, b: Token)
    requires !SetApart(a, b)
    ensures !IsComment(b)
  {
  }

  lemma AheadIs(tokens: seq<Token>, k: nat)
    requires k < |tokens|
    ensures tokens[k].value <= Ahead(tokens, k)
    ensures k + 1 < |tokens| && !SetApart(tokens[k], tokens[k + 1]) ==> Ahead(tokens, k) == tokens[k].value + Ahead(tokens, k + 1)
  {
  }

  lemma CoverShort(text: string, start: nat, body: string, o: string)
    requires Stands(text, start, body) && |o| <= |body| && o <= text[start..]
    ensures o <= body
  {
    assert o == text[start..][..|o|] == text[start..start + |body|][..|o|];
  }

  lemma CoverLong(text: string, start: nat, body: string, o: string)
    requires Stands(text, start, body) && |o| > |body| && o <= text[start..]
    ensures var e := start + |body|; e < |text| && text[e] == o[|body|] && o[|body|..] <= text[e..]
    ensures o == body + o[|body|..]
  {
    var rest := text[start..];
    assert rest[..|body|] == text[start..start + |body|];
    assert rest[|body|] == o[|body|];
    assert o == rest[..|o|];
    assert o[|body|..] == text[start + |body|..][..|o| - |body|];
  }

  lemma Origins(d: Document)
    requires Valid(d)
    ensures Placed(d.source, d.language, d.tokens, d.origins, |d.source|) && |d.origins| == |d.tokens|
  {
  }

  // ---------------------------------------------------------- every token moves

  /** What was read so far are the first tokens. */
  ghost predicate SoFar(read: seq<Token>, tokens: seq<Token>) {
    |read| <= |tokens| && forall k :: 0 <= k < |read| ==> Alike(read[k], tokens[k], k + 1 == |tokens|)
  }

  /** The next token is read where the text shows it, with only white space up to the one after it. */
  ghost predicate Moved(d: Document, k: nat, read: seq<Token>)
    requires k < |d.tokens| == |d.starts|
  {
    && d.starts[k] < End(d, k) <= |d.text|
    && var t := NextToken(d.text, d.starts[k], d.language, read);
    && Alike(t, d.tokens[k], k + 1 == |d.tokens|) && d.starts[k] + |t.value| <= End(d, k)
    && AllSpace(d.text[d.starts[k] + |t.value|..End(d, k)])
  }

  /** A token read to the letter has moved. */
  lemma ExactMoved(d: Document, k: nat, read: seq<Token>)
    requires Valid(d) && k < |d.tokens| == |d.starts| && !d.tokens[k].kind.BlockComment?
    requires TrimEnd(d.tokens[k].value) == d.tokens[k].value
    requires d.starts[k] < |d.text| && NextToken(d.text, d.starts[k], d.language, read) == d.tokens[k]
    ensures Moved(d, k, read)
  {
    hide Valid, NextToken, ReadAt, LaidAt, AllSpace, IsSpace, TrimEnd, End, Stands, SetApart;
    NextCharacter(d, k);
    TokenBoth(d, k);
  }

  lemma SpaceIsNoWord(c: char)
    ensures IsSpace(c) ==> !InWord(c) && !InNumber(c)
  {
  }

  lemma WordsApart(a: Token, b: Token)
    requires IsWordy(a) && IsWordy(b)
    ensures SetApart(a, b)
  {
  }

  lemma WordyKind(t: Token)
    ensures IsWordy(t) <==> t.kind in {Word, Number, Literal}
    ensures IsMark(t) <==> t.kind in {Operator, Punctuation}
    ensures IsComment(t) <==> t.kind in {LineComment, BlockComment}
  {
  }

  lemma NoQuote()
    ensures !IsQuote('/')
  {
  }

  lemma StartsWithDot(v: string)
    requires v != "" && v[0] == '.'
    ensures "." <= v
  {
    assert v[..1] == ".";
  }

  lemma NumberAlphabet(c: char)
    ensures InNumber(c) ==> InWord(c) || c == '.'
  {
  }

  /** What follows a word or a number is no character of a word, and a dot only if it stands there as a token. */
  lemma NotWordy(d: Document, k: nat)
    requires Valid(d) && k < |d.tokens| && d.tokens[k].kind in {Word, Number, Literal}
    ensures var e := d.starts[k] + |TrimEnd(d.tokens[k].value)|;
            |d.starts| == |d.tokens| && e <= |d.text|
            && (e < |d.text| ==>
                  && !InWord(d.text[e])
                  && (InNumber(d.text[e]) ==> k + 1 < |d.tokens| && !SetApart(d.tokens[k], d.tokens[k + 1]) && "." <= d.tokens[k + 1].value))
  {
    hide *;
    NextCharacter(d, k);
    var e := d.starts[k] + |TrimEnd(d.tokens[k].value)|;
    if e < |d.text| {
      SpaceIsNoWord(d.text[e]);
      if !IsSpace(d.text[e]) {
        TokenBoth(d, k + 1);
        WordyStart(d.source, d.language, d.tokens, k + 1, d.origins[k + 1]);
        WordyKind(d.tokens[k]);
        if IsWordy(d.tokens[k + 1]) {
          WordsApart(d.tokens[k], d.tokens[k + 1]);
        } else if d.text[e] == '.' {
          StartsWithDot(d.tokens[k + 1].value);
        }
        NumberAlphabet(d.text[e]);
      }
    }
  }

  lemma WordChars(source: string, language: string, tokens: seq<Token>, k: nat, at: nat)
    requires k < |tokens| && ReadAt(source, language, tokens, k, at)
    ensures var v := tokens[k].value;
            && (tokens[k].kind.Word? ==> v != "" && StartsWord(v[0]) && forall i :: 0 <= i < |v| ==> InWord(v[i]))
            && (tokens[k].kind.Number? ==> v != "" && IsDigit(v[0]) && forall i :: 0 <= i < |v| ==> InNumber(v[i]))
  {
    WordsWhole(source, language, tokens, k, at);
    NumbersWhole(source, language, tokens, k, at);
    TokenStands(source, language, tokens, k, at);
    hide ReadAt, NextToken;
    var v := tokens[k].value;
    StandsChars(source, at, v);
    assert forall i :: 0 <= i < |v| ==> v[i] == source[at + i];
  }

  lemma WordMoved(d: Document, k: nat, read: seq<Token>)
    requires Valid(d) && k < |d.tokens| && d.tokens[k].kind.Word?
    ensures |d.starts| == |d.tokens| && Moved(d, k, read)
  {
    hide *;
    WordyKind(d.tokens[k]);
    TokenBoth(d, k);
    NotWordy(d, k);
    NextCharacter(d, k);
    Origins(d);
    WordChars(d.source, d.language, d.tokens, k, d.origins[k]);
    FollowedEnds(d.source, d.language, d.tokens, d.origins, k);
    WordMoves(d.text, d.starts[k], d.tokens[k].value, d.language, read);
    ExactMoved(d, k, read);
  }

  lemma SurvivesDot(tokens: seq<Token>, k: nat, language: string)
    requires k < |tokens| && Survives(tokens, k, language) && tokens[k].kind.Number?
    ensures k + 1 < |tokens| && !SetApart(tokens[k], tokens[k + 1]) ==> !("." <= tokens[k + 1].value)
  {
    hide Ahead, SetApart;
  }

  lemma NumberMoved(d: Document, k: nat, read: seq<Token>)
    requires Valid(d) && k < |d.tokens| && d.tokens[k].kind.Number? && Survives(d.tokens, k, d.language)
    ensures |d.starts| == |d.tokens| && Moved(d, k, read)
  {
    hide *;
    WordyKind(d.tokens[k]);
    TokenBoth(d, k);
    NotWordy(d, k);
    NextCharacter(d, k);
    SurvivesDot(d.tokens, k, d.language);
    Origins(d);
    WordChars(d.source, d.language, d.tokens, k, d.origins[k]);
    FollowedEnds(d.source, d.language, d.tokens, d.origins, k);
    NumberMoves(d.text, d.starts[k], d.tokens[k].value, d.language, read);
    ExactMoved(d, k, read);
  }

  /** A literal that ends on its quote. */
  lemma ClosedMoved(d: Document, k: nat, read: seq<Token>)
    requires Valid(d) && k < |d.tokens| && d.tokens[k].kind.Literal? && |d.origins| == |d.tokens| && d.origins[k] < |d.source|
    requires var c := d.source[d.origins[k]]; IsQuote(c) && Closes(d.source, d.origins[k] + 1, c)
    ensures |d.starts| == |d.tokens| && Moved(d, k, read)
  {
    hide *;
    WordyKind(d.tokens[k]);
    NoQuote();
    TokenBoth(d, k);
    NextCharacter(d, k);
    Origins(d);
    LiteralRead(d.source, d.language, d.tokens, k, d.origins[k]);
    FollowedEnds(d.source, d.language, d.tokens, d.origins, k);
    ClosedMoves(d.source, d.origins[k], d.text, d.starts[k], d.tokens[k].value, d.language, read);
    ExactMoved(d, k, read);
  }

  lemma RegexMoved(d: Document, k: nat, read: seq<Token>)
    requires Valid(d) && k < |d.tokens| && d.tokens[k].kind.Literal? && |d.origins| == |d.tokens| && d.origins[k] < |d.source|
    requires d.source[d.origins[k]] == '/' && CanStartRegex(read) == CanStartRegex(d.tokens[..k])
    ensures |d.starts| == |d.tokens| && Moved(d, k, read)
  {
    hide *;
    WordyKind(d.tokens[k]);
    var v := d.tokens[k].value;
    TokenBoth(d, k);
    NotWordy(d, k);
    NextCharacter(d, k);
    Origins(d);
    var at0, at := d.origins[k], d.starts[k];
    LiteralRead(d.source, d.language, d.tokens, k, at0);
    FollowedEnds(d.source, d.language, d.tokens, d.origins, k);
    StandsAgree(d.source, at0, d.text, at, v);
    SecondAgrees(d.source, at0, d.text, at, v);
    if at + |v| < |d.text| {
      LettersInWords(d.text[at + |v|]);
    }
    RegexMoves(d.source, at0, d.text, at, |v|, 1);
    RegexNext(d.text, d.language, read, at, at + |v|);
    StandsIs(d.text, at, v);
    ExactMoved(d, k, read);
  }

  lemma LettersInWords(c: char)
    ensures IsLetter(c) ==> InWord(c)
  {
  }

  lemma StandsIs(text: string, at: nat, v: string)
    requires Stands(text, at, v)
    ensures at + |v| <= |text| && text[at..at + |v|] == v
  {
  }

  lemma SecondAgrees(s: string, i: nat, t: string, j: nat, v: string)
    requires Agree(s, i, t, j, |v|) && |v| > 1
    ensures i + |v| <= |s| && j + |v| <= |t| && s[i + 1] == t[j + 1] && s[i] == t[j]
  {
  }

  lemma {:induction false} TrimEndOf(body: string, ws: string)
    requires body != "" && !IsSpace(body[|body| - 1]) && AllSpace(ws)
    ensures TrimEnd(body + ws) == body
    decreases |ws|
  {
    if ws == "" {
      assert body + ws == body;
    } else {
      var init := ws[..|ws| - 1];
      TrimEndOf(body, init);
      assert (body + ws)[..|body + ws| - 1] == body + init;
    }
  }

  lemma TrimEndAgain(v: string)
    ensures TrimEnd(TrimEnd(v)) == TrimEnd(v)
  {
    TrimEndPrefix(v);
  }

  lemma PrefixStands(text: string, at: nat, v: string, body: string)
    requires Stands(text, at, v) && body <= v
    ensures Stands(text, at, body)
  {
    assert text[at..at + |body|] == text[at..at + |v|][..|body|];
  }

  lemma NothingLeft(text: string)
    ensures AllSpace(text[|text|..|text|]) && text[|text|..] == ""
  {
  }

  /** A literal that is still open where the text ends. */
  lemma OpenMoved(d: Document, k: nat, read: seq<Token>)
    requires Valid(d) && k < |d.tokens| && d.tokens[k].kind.Literal? && |d.origins| == |d.tokens| && d.origins[k] < |d.source|
    requires var c := d.source[d.origins[k]]; IsQuote(c) && !Closes(d.source, d.origins[k] + 1, c)
    ensures |d.starts| == |d.tokens| && Moved(d, k, read)
  {
    hide *;
    WordyKind(d.tokens[k]);
    NoQuote();
    var v := d.tokens[k].value;
    var body := TrimEnd(v);
    TokenBoth(d, k);
    NextCharacter(d, k);
    VisibleBody(v);
    OpenIsLast(d, k);
    EndIs(d, k);
    var at0, at := d.origins[k], d.starts[k];
    TrimEndPrefix(v);
    PrefixStands(d.source, at0, v, body);
    assert d.text[at + |body|..] == d.text[at + |body|..|d.text|];
    OpenMoves(d.source, at0, d.text, at, body, d.language, read);
    var rest := d.text[at..];
    StandsIs(d.text, at, body);
    assert rest == body + d.text[at + |body|..];
    TrimEndOf(body, d.text[at + |body|..]);
    NothingLeft(d.text);
    OpenIs(d, k, read);
  }

  lemma OpenIs(d: Document, k: nat, read: seq<Token>)
    requires k < |d.tokens| == |d.starts| && k + 1 == |d.tokens| && d.tokens[k].kind.Literal? && d.tokens[k].value != ""
    requires d.starts[k] < End(d, k) == |d.text| && d.text[d.starts[k]] == d.tokens[k].value[0]
    requires NextToken(d.text, d.starts[k], d.language, read) == Token(Literal, d.text[d.starts[k]..])
    requires TrimEnd(d.text[d.starts[k]..]) == TrimEnd(d.tokens[k].value)
    ensures Moved(d, k, read)
  {
    hide NextToken, TrimEnd, IsSpace, End;
  }

  lemma OpenIsLast(d: Document, k: nat)
    requires Valid(d) && k < |d.tokens| && d.tokens[k].kind.Literal? && |d.origins| == |d.tokens| && d.origins[k] < |d.source|
    requires var c := d.source[d.origins[k]]; c != '/' && !Closes(d.source, d.origins[k] + 1, c)
    ensures k + 1 == |d.tokens|
  {
    hide *;
    Origins(d);
    TokenBoth(d, k);
    LiteralEnds(d.source, d.language, d.tokens, k, d.origins[k]);
    if k + 1 < |d.tokens| {
      TokenBoth(d, k + 1);
      OriginsOrdered(d, k);
    }
  }

  lemma OriginsOrdered(d: Document, k: nat)
    requires Valid(d) && k + 1 < |d.tokens| && |d.origins| == |d.tokens|
    ensures d.origins[k] + |d.tokens[k].value| <= d.origins[k + 1] < |d.source|
  {
    assert Gap(d.source, d.origins[k] + |d.tokens[k].value|, StartOr(|d.source|, d.origins, k + 1));
    assert ReadAt(d.source, d.language, d.tokens, k + 1, d.origins[k + 1]);
    hide NextToken, Placed;
  }

  // ---------------------------------------------------------- comments move

  lemma LineBody(source: string, language: string, tokens: seq<Token>, k: nat, at: nat)
    requires k < |tokens| && ReadAt(source, language, tokens, k, at) && tokens[k].kind.LineComment?
    ensures tokens[k].value != ""
    ensures var body := TrimEnd(tokens[k].value);
            && "//" <= body && body[0] == tokens[k].value[0] && '\n' !in body && StripWs(body) == StripWs(tokens[k].value)
  {
    LineCommentsRead(source, language, tokens, k, at);
    var v := tokens[k].value;
    hide ReadAt;
    assert Stands(source, at, v);
    StandsChars(source, at, v);
    NotSpace();
    TrimEndSplits(v);
    var body := TrimEnd(v);
    hide TrimEnd, IsSpace, StripWs;
    assert body == v[..|body|] && body[..2] == "//";
  }

  lemma LineMoved(d: Document, k: nat, read: seq<Token>)
    requires Valid(d) && k < |d.tokens| && d.tokens[k].kind.LineComment?
    ensures |d.starts| == |d.tokens| && Moved(d, k, read)
  {
    hide *;
    WordyKind(d.tokens[k]);
    TokenBoth(d, k);
    NextCharacter(d, k);
    LineBody(d.source, d.language, d.tokens, k, d.origins[k]);
    ShownBody(d.text, d.tokens, k, d.starts[k], End(d, k));
    LineMoves(d.text, d.starts[k], TrimEnd(d.tokens[k].value), d.language, read);
    CommentIs(d, k, read, d.starts[k] + |TrimEnd(d.tokens[k].value)|);
  }

  lemma CommentIs(d: Document, k: nat, read: seq<Token>, e: nat)
    requires k < |d.tokens| == |d.starts| && IsComment(d.tokens[k]) && d.tokens[k].value != ""
    requires d.starts[k] < e <= End(d, k) <= |d.text| && AllSpace(d.text[e..End(d, k)]) && d.text[d.starts[k]] == d.tokens[k].value[0]
    requires var t := NextToken(d.text, d.starts[k], d.language, read);
             && t.kind == d.tokens[k].kind && |t.value| == e - d.starts[k] && t.value[0] == d.text[d.starts[k]]
             && StripWs(t.value) == StripWs(d.tokens[k].value)
    ensures Moved(d, k, read)
  {
    hide NextToken, StripWs, IsSpace, End;
  }

  lemma StripTail(s: string, n: nat)
    requires n <= |s| && AllSpace(s[n..])
    ensures StripWs(s[..n]) == StripWs(s)
  {
    StripConcat(s[..n], s[n..]);
    StripSpace(s[n..]);
    assert s == s[..n] + s[n..];
    assert StripWs(s[..n]) + "" == StripWs(s[..n]);
  }

  /** The shown comment, from where it starts up to the next token. */
  lemma BlockShown(d: Document, k: nat) returns (s: string)
    requires Valid(d) && k < |d.tokens| && d.tokens[k].kind.BlockComment?
    ensures |d.starts| == |d.tokens| && d.starts[k] < End(d, k) <= |d.text| && s == d.text[d.starts[k]..End(d, k)]
    ensures Reindents(s, d.tokens[k].value) && IsBlock(d.tokens[k].value)
    ensures (forall c :: !ClosesAt(s, c)) ==> k + 1 == |d.tokens|
  {
    hide *;
    TokenBoth(d, k);
    s := d.text[d.starts[k]..End(d, k)];
    BlockLexed(d.source, d.language, d.tokens, k, d.origins[k]);
    if k + 1 < |d.tokens| {
      OriginsOrdered(d, k);
    }
    ReindentShown(d.text, d.tokens, k, d.starts[k], End(d, k));
    ReindentCloses(s, d.tokens[k].value);
  }

  lemma ReindentShown(text: string, tokens: seq<Token>, k: nat, start: nat, end: nat)
    requires k < |tokens| && LaidAt(text, tokens, k, start, end) && tokens[k].kind.BlockComment?
    ensures Reindents(text[start..end], tokens[k].value)
  {
    hide Reindents, Divides;
  }

  lemma ReindentCloses(s: string, value: string)
    requires Reindents(s, value) && IsBlock(value)
    ensures IsOpened(s) && StripWs(s) == StripWs(value)
    ensures (exists c :: ClosesAt(s, c)) <==> (exists c :: ClosesAt(value, c))
    ensures forall c :: ClosesAt(s, c) ==> AllSpace(s[c + 2..])
  {
    hide StripWs, ClosesAt, IsSpace;
  }

  /** Up to where the comment closes in itself, it closes nowhere in the text. */
  lemma PairsOfSlice(text: string, start: nat, end: nat)
    requires start <= end <= |text|
    ensures forall i :: start <= i < end - 1 ==> (ClosePair(text, i) <==> ClosePair(text[start..end], i - start))
  {
    var s := text[start..end];
    forall i | start <= i < end - 1 ensures ClosePair(text, i) <==> ClosePair(s, i - start) {
      assert s[i - start] == text[i] && s[i - start + 1] == text[i + 1];
    }
  }

  lemma ClosesFacts(s: string, c: int)
    requires ClosesAt(s, c)
    ensures 2 <= c <= |s| - 2 && ClosePair(s, c) && forall i :: 2 <= i < c ==> !ClosePair(s, i)
  {
  }

  lemma OpenedFacts(s: string)
    requires IsOpened(s)
    ensures |s| >= 2 && s[0] == '/' && s[1] == '*'
  {
  }

  lemma BlockMovedClosed(d: Document, k: nat, read: seq<Token>, s: string, c: int)
    requires k < |d.tokens| == |d.starts| && d.tokens[k].kind.BlockComment? && d.tokens[k].value != ""
    requires d.starts[k] < End(d, k) <= |d.text| && s == d.text[d.starts[k]..End(d, k)] && d.text[d.starts[k]] == d.tokens[k].value[0]
    requires IsOpened(s) && ClosesAt(s, c) && AllSpace(s[c + 2..]) && StripWs(s) == StripWs(d.tokens[k].value)
    ensures Moved(d, k, read)
  {
    hide *;
    WordyKind(d.tokens[k]);
    var start, end := d.starts[k], End(d, k);
    ClosesFacts(s, c);
    OpenedFacts(s);
    PairsOfSlice(d.text, start, end);
    assert d.text[start] == s[0] && d.text[start + 1] == s[1];
    BlockMoves(d.text, start, start + c, d.language, read);
    StripTail(s, c + 2);
    assert d.text[start..start + c + 2] == s[..c + 2];
    assert d.text[start + c + 2..end] == s[c + 2..];
    CommentIs(d, k, read, start + c + 2);
  }

  lemma BlockMovedOpen(d: Document, k: nat, read: seq<Token>, s: string)
    requires k < |d.tokens| == |d.starts| && d.tokens[k].kind.BlockComment? && d.tokens[k].value != ""
    requires d.starts[k] < End(d, k) == |d.text| && s == d.text[d.starts[k]..End(d, k)] && d.text[d.starts[k]] == d.tokens[k].value[0]
    requires IsOpened(s) && (forall c :: !ClosesAt(s, c)) && StripWs(s) == StripWs(d.tokens[k].value)
    ensures Moved(d, k, read)
  {
    hide *;
    WordyKind(d.tokens[k]);
    var start, end := d.starts[k], End(d, k);
    NeverCloses(s);
    OpenedFacts(s);
    PairsOfSlice(d.text, start, end);
    assert d.text[start] == s[0] && d.text[start + 1] == s[1];
    NoPairAtEnd(d.text);
    BlockMoves(d.text, start, end, d.language, read);
    NothingLeft(d.text);
    CommentIs(d, k, read, end);
  }

  lemma NoPairAtEnd(text: string)
    ensures forall i :: i >= |text| - 1 ==> !ClosePair(text, i)
  {
  }

  lemma NeverCloses(s: string)
    requires forall c :: !ClosesAt(s, c)
    ensures forall i :: 2 <= i ==> !ClosePair(s, i)
  {
    forall i: int | 2 <= i ensures !ClosePair(s, i) {
      NoneBefore(s, i);
    }
  }

  lemma {:induction false} NoneBefore(s: string, i: int)
    requires 2 <= i && forall c :: !ClosesAt(s, c)
    ensures forall j :: 2 <= j <= i ==> !ClosePair(s, j)
    decreases i
  {
    if i > 2 {
      NoneBefore(s, i - 1);
    }
    assert !ClosesAt(s, i);
  }

  lemma BlockMoved(d: Document, k: nat, read: seq<Token>)
    requires Valid(d) && k < |d.tokens| && d.tokens[k].kind.BlockComment?
    ensures |d.starts| == |d.tokens| && Moved(d, k, read)
  {
    hide *;
    TokenBoth(d, k);
    var s := BlockShown(d, k);
    ReindentCloses(s, d.tokens[k].value);
    if c :| ClosesAt(s, c) {
      BlockMovedClosed(d, k, read, s, c);
    } else {
      EndIs(d, k);
      BlockMovedOpen(d, k, read, s);
    }
  }

  // ---------------------------------------------------------- operators and marks move

  ghost predicate Visible(s: string) {
    forall i :: 0 <= i < |s| ==> !IsSpace(s[i])
  }

  lemma LongVisible()
    ensures forall o | o in LONG_OPERATORS :: Visible(o)
  {
  }

  lemma DoubleVisible()
    ensures forall o | o in DOUBLE_OPERATORS :: Visible(o)
  {
  }

  lemma AssignmentsVisible()
    ensures forall o | o in ASSIGNMENTS :: Visible(o)
  {
  }

  lemma ShortVisible()
    ensures forall o | o in SHORT_OPERATORS :: Visible(o)
  {
  }

  lemma OperatorsVisible()
    ensures forall o | o in OPERATORS :: Visible(o)
    ensures Visible("//") && Visible("/*")
  {
    LongVisible();
    DoubleVisible();
    AssignmentsVisible();
    ShortVisible();
    NotSpace();
    hide LONG_OPERATORS, DOUBLE_OPERATORS, ASSIGNMENTS, SHORT_OPERATORS, IsSpace;
  }

  lemma VisibleMeans(s: string)
    requires Visible(s)
    ensures forall i :: 0 <= i < |s| ==> !IsSpace(s[i])
  {
  }

  /** An operator or the start of a comment that the text shows here stands in what is ahead. */
  lemma ShownAhead(d: Document, k: nat, o: string)
    requires Valid(d) && k < |d.tokens| == |d.starts| && IsMark(d.tokens[k]) && Visible(o)
    requires d.starts[k] <= |d.text| && o <= d.text[d.starts[k]..]
    ensures o <= Ahead(d.tokens, k)
  {
    hide *;
    WordyKind(d.tokens[k]);
    VisibleMeans(o);
    AheadCovers(d, k, o);
  }

  lemma SurvivesMark(tokens: seq<Token>, k: nat, language: string)
    requires k < |tokens| && Survives(tokens, k, language) && IsMark(tokens[k])
    ensures !("//" <= Ahead(tokens, k)) && !("/*" <= Ahead(tokens, k))
    ensures Longest(tokens[k], Ahead(tokens, k))
    ensures HasRegex(language) && tokens[k].value != "" && tokens[k].value[0] == '/' ==> !CanStartRegex(tokens[..k])
  {
    hide Ahead, Longest, CanStartRegex, HasRegex;
    if tokens[k].value != "" && tokens[k].value[0] == '/' {
      assert tokens[k].value[..1] == "/";
    }
  }

  lemma LongestApplies(t: Token, ahead: string, rest: string)
    requires Longest(t, ahead) && forall o | o in OPERATORS && o <= rest :: o <= ahead
    ensures forall o | o in OPERATORS && o <= rest :: t.kind.Operator? && |o| <= |t.value|
  {
    hide OPERATORS;
  }

  lemma BareIs(text: string, at: nat, language: string, tokens: seq<Token>)
    requires at < |text| && !("//" <= text[at..]) && !("/*" <= text[at..])
    requires HasRegex(language) && text[at] == '/' ==> !CanStartRegex(tokens)
    ensures Bare(text, at, language, tokens)
  {
  }

  lemma MarkFirst(source: string, language: string, tokens: seq<Token>, k: nat, at: nat)
    requires k < |tokens| && ReadAt(source, language, tokens, k, at) && tokens[k].kind.Punctuation?
    ensures at < |source| && tokens[k].value == [source[at]]
    ensures !IsQuote(source[at]) && !StartsWord(source[at]) && !IsDigit(source[at])
  {
    MarksRead(source, language, tokens, k, at);
    hide NextToken, OPERATORS;
  }

  lemma MarkMoved(d: Document, k: nat, read: seq<Token>)
    requires Valid(d) && k < |d.tokens| && IsMark(d.tokens[k]) && Survives(d.tokens, k, d.language)
    requires CanStartRegex(read) == CanStartRegex(d.tokens[..k])
    ensures |d.starts| == |d.tokens| && Moved(d, k, read)
  {
    hide *;
    WordyKind(d.tokens[k]);
    var v := d.tokens[k].value;
    TokenBoth(d, k);
    NextCharacter(d, k);
    Origins(d);
    FollowedEnds(d.source, d.language, d.tokens, d.origins, k);
    SurvivesMark(d.tokens, k, d.language);
    OperatorsVisible();
    var at := d.starts[k];
    var rest := d.text[at..];
    forall o | o in OPERATORS && o <= rest ensures o <= Ahead(d.tokens, k) {
      ShownAhead(d, k, o);
    }
    LongestApplies(d.tokens[k], Ahead(d.tokens, k), rest);
    if "//" <= rest {
      ShownAhead(d, k, "//");
    }
    if "/*" <= rest {
      ShownAhead(d, k, "/*");
    }
    BareIs(d.text, at, d.language, read);
    StandsIs(d.text, at, v);
    assert rest[..|v|] == d.text[at..at + |v|];
    if d.tokens[k].kind.Operator? {
      OperatorRead(d.source, d.language, d.tokens, k, d.origins[k]);
      OperatorMoves(d.text, at, v, d.language, read);
    } else {
      MarkFirst(d.source, d.language, d.tokens, k, d.origins[k]);
      MarkMoves(d.text, at, d.language, read);
    }
    ExactMoved(d, k, read);
  }

  // ---------------------------------------------------------- the whole text

  lemma RegexAfterStarts()
    ensures forall v | v in REGEX_AFTER :: v != "" && v[0] != '/'
  {
  }

  lemma CommentStarts(source: string, language: string, tokens: seq<Token>, k: nat, at: nat)
    requires k < |tokens| && ReadAt(source, language, tokens, k, at) && IsComment(tokens[k])
    ensures at < |source| && source[at] == '/'
  {
    LineCommentsRead(source, language, tokens, k, at);
    BlockCommentsRead(source, language, tokens, k, at);
    hide NextToken;
  }

  /** A regular expression can follow what was read if it can follow the tokens. */
  lemma SoFarRegex(d: Document, read: seq<Token>)
    requires Valid(d) && SoFar(read, d.tokens) && |read| < |d.tokens|
    ensures CanStartRegex(read) == CanStartRegex(d.tokens[..|read|])
  {
    hide Valid, ReadAt, LaidAt, StripWs, TrimEnd, REGEX_AFTER, IsSpace, Stands, NextToken;
    if read != [] {
      var j := |read| - 1;
      assert Alike(read[j], d.tokens[j], false);
      TokenBoth(d, j);
      RegexAfterStarts();
      if IsComment(d.tokens[j]) {
        CommentStarts(d.source, d.language, d.tokens, j, d.origins[j]);
      }
    }
  }

  lemma TokenMoved(d: Document, k: nat, read: seq<Token>)
    requires Valid(d) && k < |d.tokens| && Survives(d.tokens, k, d.language)
    requires CanStartRegex(read) == CanStartRegex(d.tokens[..k])
    ensures |d.starts| == |d.tokens| && Moved(d, k, read)
  {
    hide *;
    WordyKind(d.tokens[k]);
    match d.tokens[k].kind {
      case Word => WordMoved(d, k, read);
      case Number => NumberMoved(d, k, read);
      case Literal => LiteralMoved(d, k, read);
      case LineComment => LineMoved(d, k, read);
      case BlockComment => BlockMoved(d, k, read);
      case Operator => MarkMoved(d, k, read);
      case Punctuation => MarkMoved(d, k, read);
    }
  }

  lemma LiteralMoved(d: Document, k: nat, read: seq<Token>)
    requires Valid(d) && k < |d.tokens| && d.tokens[k].kind.Literal?
    requires CanStartRegex(read) == CanStartRegex(d.tokens[..k])
    ensures |d.starts| == |d.tokens| && Moved(d, k, read)
  {
    hide *;
    TokenBoth(d, k);
    ReadInside(d.source, d.language, d.tokens, k, d.origins[k]);
    LiteralRead(d.source, d.language, d.tokens, k, d.origins[k]);
    var c := d.source[d.origins[k]];
    if c == '/' {
      RegexMoved(d, k, read);
    } else if Closes(d.source, d.origins[k] + 1, c) {
      ClosedMoved(d, k, read);
    } else {
      OpenMoved(d, k, read);
    }
  }

  lemma {:induction false} SkipSpace(text: string, language: string, from: nat, end: nat, read: seq<Token>)
    requires from <= end <= |text| && AllSpace(text[from..end])
    ensures ScanFrom(text, language, from, read) == ScanFrom(text, language, end, read)
    decreases end - from
  {
    hide NextToken, IsSpace;
    if from < end {
      FirstSpace(text, from, end);
      assert text[from + 1..end] == text[from..end][1..];
      SkipSpace(text, language, from + 1, end, read);
    }
  }

  lemma SoFarMore(read: seq<Token>, tokens: seq<Token>, t: Token)
    requires SoFar(read, tokens) && |read| < |tokens| && Alike(t, tokens[|read|], |read| + 1 == |tokens|)
    ensures SoFar(read + [t], tokens)
  {
    hide Alike;
  }

  lemma ScanStep(text: string, language: string, at: nat, end: nat, read: seq<Token>)
    requires at < |text| && !IsSpace(text[at])
    requires var t := NextToken(text, at, language, read); at + |t.value| <= end <= |text| && AllSpace(text[at + |t.value|..end])
    ensures ScanFrom(text, language, at, read) == ScanFrom(text, language, end, read + [NextToken(text, at, language, read)])
  {
    hide NextToken, IsSpace;
    var t := NextToken(text, at, language, read);
    SkipSpace(text, language, at + |t.value|, end, read + [t]);
  }

  lemma MovedMeans(d: Document, k: nat, read: seq<Token>)
    requires k < |d.tokens| == |d.starts| && Moved(d, k, read)
    ensures d.starts[k] < End(d, k) <= |d.text|
    ensures var t := NextToken(d.text, d.starts[k], d.language, read);
            && Alike(t, d.tokens[k], k + 1 == |d.tokens|) && d.starts[k] + |t.value| <= End(d, k)
            && AllSpace(d.text[d.starts[k] + |t.value|..End(d, k)])
  {
  }

  lemma {:induction false} ScanMoves(d: Document, read: seq<Token>)
    requires Valid(d) && |d.starts| == |d.tokens| && SoFar(read, d.tokens)
    requires forall k :: 0 <= k < |d.tokens| ==> Survives(d.tokens, k, d.language)
    requires StartOr(|d.text|, d.starts, |read|) <= |d.text|
    ensures SameTokens(ScanFrom(d.text, d.language, StartOr(|d.text|, d.starts, |read|), read), d.tokens)
    decreases |d.tokens| - |read|
  {
    var k := |read|;
    hide Valid, Survives, Alike, NextToken, IsSpace, AllSpace, ReadAt, LaidAt, Stands, CanStartRegex, Moved;
    if k < |d.tokens| {
      TokenBoth(d, k);
      SoFarRegex(d, read);
      TokenMoved(d, k, read);
      MovedMeans(d, k, read);
      var t := NextToken(d.text, d.starts[k], d.language, read);
      ScanStep(d.text, d.language, d.starts[k], End(d, k), read);
      SoFarMore(read, d.tokens, t);
      ScanMoves(d, read + [t]);
    }
  }

  /**
   Formatting keeps the program. A formatted text is scanned to the tokens of its document,
   whatever lines and spaces it has, if each of them survives being written together with
   those behind it that need not be set apart.
   */
  lemma Rescans(source: string, language: string, text: string)
    requires Weaves(false, text, Scan(source, language))
    requires forall k :: 0 <= k < |Scan(source, language)| ==> Survives(Scan(source, language), k, language)
    ensures SameTokens(Scan(text, language), Scan(source, language))
  {
    var tokens := Scan(source, language);
    var origins := ScanPlaces(source, language);
    hide Scan, ScanFrom, Survives, Placed, Weaves;
    var starts := WeaveStarts(text, tokens);
    var d := Document(source, language, tokens, origins, text, starts);
    assert Gap(text, 0, StartOr(|text|, starts, 0));
    hide Laid;
    assert Valid(d);
    ScanMoves(d, []);
    SkipSpace(text, language, 0, StartOr(|text|, starts, 0), []);
    ScanIs(text, language);
  }

  lemma ScanIs(text: string, language: string)
    ensures Scan(text, language) == ScanFrom(text, language, 0, [])
  {
  }

  // ---------------------------------------------------------- tokens that join

  lemma StripSlice(s: string, from: nat, middle: nat, end: nat)
    requires from <= middle <= end <= |s|
    ensures StripWs(s[..end]) == StripWs(s[..from]) + StripWs(s[from..middle]) + StripWs(s[middle..end])
  {
    hide StripWs;
    assert s[..end] == s[..from] + s[from..middle] + s[middle..end];
    StripConcat(s[..from] + s[from..middle], s[middle..end]);
    StripConcat(s[..from], s[from..middle]);
  }

  lemma StripTokensMore(tokens: seq<Token>, k: nat)
    requires k < |tokens|
    ensures StripTokens(tokens[..k + 1]) == StripTokens(tokens[..k]) + StripWs(tokens[k].value)
  {
    assert tokens[..k + 1][..k] == tokens[..k];
  }

  /** Before a token of a scan stand the visible characters of those before it. */
  lemma {:induction false} PlacedStrip(source: string, language: string, tokens: seq<Token>, starts: seq<nat>, k: nat)
    requires Placed(source, language, tokens, starts, |source|) && k < |tokens|
    ensures starts[k] < |source| && !IsSpace(source[starts[k]])
    ensures StripWs(source[..starts[k]]) == StripTokens(tokens[..k])
  {
    hide *;
    PlacedFacts(source, language, tokens, starts, k);
    if k == 0 {
      PlacedGap(source, language, tokens, starts);
      StripSpace(source[..starts[0]]);
      NoTokens(tokens);
    } else {
      var j := k - 1;
      PlacedStrip(source, language, tokens, starts, j);
      PlacedFacts(source, language, tokens, starts, j);
      TokenStands(source, language, tokens, j, starts[j]);
      StandsIs(source, starts[j], tokens[j].value);
      StripSlice(source, starts[j], starts[j] + |tokens[j].value|, starts[k]);
      StripSpace(source[starts[j] + |tokens[j].value|..starts[k]]);
      StripTokensMore(tokens, j);
      assert StripTokens(tokens[..j]) + StripWs(tokens[j].value) + "" == StripTokens(tokens[..j]) + StripWs(tokens[j].value);
    }
  }

  lemma PlacedGap(source: string, language: string, tokens: seq<Token>, starts: seq<nat>)
    requires Placed(source, language, tokens, starts, |source|) && tokens != []
    ensures starts != [] && starts[0] <= |source| && AllSpace(source[..starts[0]])
  {
    assert Gap(source, 0, StartOr(|source|, starts, 0));
    assert source[0..starts[0]] == source[..starts[0]];
  }

  /** And so do they before a token that the text shows. */
  lemma {:induction false} LaidStrip(d: Document, k: nat)
    requires Valid(d) && k < |d.tokens|
    ensures |d.starts| == |d.tokens| && d.starts[k] < |d.text| && !IsSpace(d.text[d.starts[k]])
    ensures StripWs(d.text[..d.starts[k]]) == StripTokens(d.tokens[..k])
  {
    hide *;
    TokenBoth(d, k);
    if k == 0 {
      FirstGap(d);
      StripSpace(d.text[..d.starts[0]]);
      NoTokens(d.tokens);
    } else {
      var j := k - 1;
      LaidStrip(d, j);
      TokenBoth(d, j);
      EndIs(d, j);
      ShownStrip(d.text, d.tokens, j, d.starts[j], d.starts[k]);
      StripSlice(d.text, d.starts[j], d.starts[k], d.starts[k]);
      NothingStripped(d.text, d.starts[k]);
      StripTokensMore(d.tokens, j);
      assert StripTokens(d.tokens[..j]) + StripWs(d.tokens[j].value) + "" == StripTokens(d.tokens[..j]) + StripWs(d.tokens[j].value);
    }
  }

  lemma FirstGap(d: Document)
    requires Valid(d) && d.tokens != []
    ensures d.starts != [] && d.starts[0] <= |d.text| && AllSpace(d.text[..d.starts[0]])
  {
    assert Gap(d.text, 0, StartOr(|d.text|, d.starts, 0));
    assert d.text[0..d.starts[0]] == d.text[..d.starts[0]];
  }

  lemma NoTokens(tokens: seq<Token>)
    ensures StripTokens(tokens[..0]) == ""
  {
  }

  lemma NothingStripped(s: string, at: nat)
    requires at <= |s|
    ensures StripWs(s[at..at]) == ""
  {
  }

  lemma ShownStrip(text: string, tokens: seq<Token>, k: nat, start: nat, end: nat)
    requires k < |tokens| && LaidAt(text, tokens, k, start, end)
    ensures StripWs(text[start..end]) == StripWs(tokens[k].value)
  {
    ShowsStrip(false, text[start..end], tokens[k]);
  }

  /** Two visible characters with the same visible text before them are one. */
  lemma SamePlace(s: string, p: nat, q: nat)
    requires p < |s| && q < |s| && !IsSpace(s[p]) && !IsSpace(s[q]) && StripWs(s[..p]) == StripWs(s[..q])
    ensures p == q
  {
    if p < q {
      LaterPlace(s, p, q);
    } else if q < p {
      LaterPlace(s, q, p);
    }
  }

  lemma LaterPlace(s: string, p: nat, q: nat)
    requires p < q < |s| && !IsSpace(s[p])
    ensures StripWs(s[..p]) != StripWs(s[..q])
  {
    StripSlice(s, p, q, q);
    NothingStripped(s, q);
    StripSpace(s[p..q]);
    assert s[p..q][0] == s[p];
    hide StripWs, IsSpace;
  }

  lemma SameVisible(a: Token, b: Token, last: bool)
    requires Alike(a, b, last)
    ensures StripWs(a.value) == StripWs(b.value)
  {
    TrimEndSplits(a.value);
    TrimEndSplits(b.value);
    hide TrimEnd, StripWs, IsSpace;
  }

  lemma {:induction false} SameStrip(a: seq<Token>, b: seq<Token>, k: nat)
    requires SameTokens(a, b) && k <= |a|
    ensures StripTokens(a[..k]) == StripTokens(b[..k])
  {
    if k == 0 {
      NoTokens(a);
      NoTokens(b);
    } else {
      SameStrip(a, b, k - 1);
      SameVisible(a[k - 1], b[k - 1], k == |b|);
      StripTokensMore(a, k - 1);
      StripTokensMore(b, k - 1);
    }
  }

  /** Tokens scanned alike stand where the text shows them. */
  lemma SameStarts(d: Document, read: seq<Token>, places: seq<nat>, k: nat)
    requires Valid(d) && Placed(d.text, d.language, read, places, |d.text|) && SameTokens(read, d.tokens) && k < |d.tokens|
    ensures |places| == |read| == |d.tokens| == |d.starts| && places[k] == d.starts[k]
  {
    hide StripWs, StripTokens, IsSpace, Alike, ReadAt, Gap, Valid;
    PlacedStrip(d.text, d.language, read, places, k);
    LaidStrip(d, k);
    SameStrip(read, d.tokens, k);
    SamePlace(d.text, places[k], d.starts[k]);
  }

  /** Written together these two start a longer operator, or a comment. */
  ghost predicate Joins(a: Token, b: Token) {
    && IsTight(a) && IsTight(b)
    && exists o :: (o in OPERATORS || o == "//" || o == "/*") && |o| > |a.value| && o <= a.value + b.value
  }

  /** An operator is shown to the letter. */
  lemma OperatorShown(d: Document, k: nat)
    requires Valid(d) && k < |d.tokens| && d.tokens[k].kind.Operator?
    ensures |d.starts| == |d.tokens|
    ensures var v, e := d.tokens[k].value, d.starts[k] + |d.tokens[k].value|;
            e <= End(d, k) <= |d.text| && d.text[d.starts[k]..e] == v && AllSpace(d.text[e..End(d, k)])
  {
    hide *;
    WordyKind(d.tokens[k]);
    NextCharacter(d, k);
    Origins(d);
    FollowedEnds(d.source, d.language, d.tokens, d.origins, k);
    StandsIs(d.text, d.starts[k], d.tokens[k].value);
  }

  lemma JoinedText(d: Document, k: nat)
    requires Valid(d) && k + 1 < |d.tokens| && SetTight(d.tokens[k], d.tokens[k + 1])
    ensures |d.starts| == |d.tokens| && d.starts[k] <= |d.text|
    ensures d.tokens[k].value + d.tokens[k + 1].value <= d.text[d.starts[k]..]
  {
    hide *;
    TightKinds(d.tokens[k], d.tokens[k + 1]);
    OperatorShown(d, k);
    OperatorShown(d, k + 1);
    EndIs(d, k);
    TokenBoth(d, k + 1);
    TightDivides(d.text, d.tokens, k, d.starts[k + 1], End(d, k + 1));
    var a, b := d.tokens[k].value, d.tokens[k + 1].value;
    var e := d.starts[k] + |a|;
    if e < d.starts[k + 1] {
      LastSpace(d.text, e, d.starts[k + 1]);
    }
    var rest := d.text[d.starts[k]..];
    assert rest[..|a| + |b|] == d.text[d.starts[k]..e] + d.text[e..e + |b|];
  }

  lemma TightKinds(a: Token, b: Token)
    requires SetTight(a, b)
    ensures a.kind.Operator? && b.kind.Operator?
  {
  }

  lemma TightDivides(text: string, tokens: seq<Token>, k: nat, start: nat, end: nat)
    requires k + 1 < |tokens| && SetTight(tokens[k], tokens[k + 1]) && LaidAt(text, tokens, k + 1, start, end)
    ensures 0 < start <= |text| && !IsSpace(text[start - 1])
  {
    hide IsSpace, Shows, SetTight, SetApart;
    var two := tokens[..k + 2];
    assert two[|two| - 2] == tokens[k] && two[|two| - 1] == tokens[k + 1];
    assert text[..start][|text[..start]| - 1] == text[start - 1];
  }

  lemma LastSpace(text: string, from: nat, end: nat)
    requires from < end <= |text| && AllSpace(text[from..end])
    ensures IsSpace(text[end - 1])
  {
    assert text[from..end][end - 1 - from] == text[end - 1];
  }

  lemma SameOperator(a: Token, b: Token, last: bool)
    requires Alike(a, b, last) && b.kind.Operator?
    ensures a == b
  {
  }

  /** A token with a longer operator or a comment at its place is not the operator that the document has. */
  lemma JoinedOtherwise(d: Document, places: seq<nat>, k: nat, o: string)
    requires Valid(d) && Placed(d.text, d.language, Scan(d.text, d.language), places, |d.text|)
    requires k < |d.tokens| == |d.starts| && d.tokens[k].kind.Operator? && d.starts[k] <= |d.text| && o <= d.text[d.starts[k]..]
    requires (o in OPERATORS || o == "//" || o == "/*") && |o| > |d.tokens[k].value|
    ensures !SameTokens(Scan(d.text, d.language), d.tokens)
  {
    hide *;
    var read := Scan(d.text, d.language);
    if SameTokens(read, d.tokens) {
      SameStarts(d, read, places, k);
      SameAt(read, d.tokens, k);
      SameOperator(read[k], d.tokens[k], k + 1 == |d.tokens|);
      PlacedFacts(d.text, d.language, read, places, k);
      if o in OPERATORS {
        OperatorsLongest(d.text, d.language, places, k, o);
      } else {
        var rest := d.text[d.starts[k]..];
        assert rest[0] == o[0] && rest[1] == o[1];
        LineCommentsRead(d.text, d.language, read, k, places[k]);
        BlockCommentsRead(d.text, d.language, read, k, places[k]);
      }
    }
  }

  lemma SameAt(a: seq<Token>, b: seq<Token>, k: nat)
    requires SameTokens(a, b) && k < |a|
    ensures |a| == |b| && Alike(a[k], b[k], k + 1 == |b|)
  {
  }

  /** Two operators that join are written together, and are never scanned as two again. */
  lemma JoinsBreak(source: string, language: string, text: string, k: nat)
    requires Weaves(false, text, Scan(source, language))
    requires JoinsNext(Scan(source, language), k)
    ensures !SameTokens(Scan(text, language), Scan(source, language))
  {
    var tokens := Scan(source, language);
    var origins := ScanPlaces(source, language);
    var places := ScanPlaces(text, language);
    hide Scan, Placed, Weaves, Laid, OPERATORS, IsTight;
    var starts := WeaveStarts(text, tokens);
    var d := Document(source, language, tokens, origins, text, starts);
    assert Valid(d);
    hide Valid;
    JoinedText(d, k);
    var a, b := tokens[k].value, tokens[k + 1].value;
    var o :| (o in OPERATORS || o == "//" || o == "/*") && |o| > |a| && o <= a + b;
    TightKinds(tokens[k], tokens[k + 1]);
    JoinedOtherwise(d, places, k, o);
  }

  ghost predicate AllSurvive(tokens: seq<Token>, language: string) {
    forall k :: 0 <= k < |tokens| ==> Survives(tokens, k, language)
  }

  ghost predicate JoinsNext(tokens: seq<Token>, k: nat) {
    k + 1 < |tokens| && Joins(tokens[k], tokens[k + 1])
  }

  /** Every token survives or joins the next one. */
  ghost predicate SurviveOrJoin(tokens: seq<Token>, language: string) {
    forall k :: 0 <= k < |tokens| ==> Survives(tokens, k, language) || JoinsNext(tokens, k)
  }

  lemma SomeJoins(tokens: seq<Token>, language: string) returns (k: nat)
    requires SurviveOrJoin(tokens, language) && !AllSurvive(tokens, language)
    ensures JoinsNext(tokens, k)
  {
    hide Survives, JoinsNext;
    var j :| 0 <= j < |tokens| && !Survives(tokens, j, language);
    k := j;
  }

  /**
   Formatting keeps the program, exactly when. A formatted text of a document is scanned to
   the tokens of the document, whatever lines and spaces it has, if all of them survive;
   and if one does not because it joins the next, it is not.
   */
  lemma RescansIff(source: string, language: string, text: string)
    requires Weaves(false, text, Scan(source, language)) && SurviveOrJoin(Scan(source, language), language)
    ensures SameTokens(Scan(text, language), Scan(source, language)) <==> AllSurvive(Scan(source, language), language)
  {
    var tokens := Scan(source, language);
    hide Scan, Weaves, Survives, JoinsNext, SameTokens;
    if AllSurvive(tokens, language) {
      Rescans(source, language, text);
    } else {
      var k := SomeJoins(tokens, language);
      JoinsBreak(source, language, text, k);
    }
  }

  // ---------------------------------------------------------- a sum that becomes an increment

  /** The tokens of "a + +b". */
  const SUM := [Token(Word, "a"), Token(Operator, "+"), Token(Operator, "+"), Token(Word, "b")]

  lemma PlusOperators(o: string)
    requires o in OPERATORS && o != "" && o[0] == '+'
    ensures o in {"+", "++", "+="}
  {
    LongOnes(o);
    DoubleOnes(o);
    AssignmentOnes(o);
    ShortOnes(o);
    hide LONG_OPERATORS, DOUBLE_OPERATORS, ASSIGNMENTS, SHORT_OPERATORS;
  }

  /** A plus that no plus and no equals sign follows is an operator of its own. */
  lemma PlusScanned(source: string, index: nat, language: string, tokens: seq<Token>)
    requires index + 1 < |source| && source[index] == '+' && source[index + 1] !in {'+', '='}
    ensures NextToken(source, index, language, tokens) == Token(Operator, "+")
  {
    var rest := source[index..];
    ShortOnes("+");
    assert rest[..1] == "+";
    PlusThere();
    forall o | o in OPERATORS && o <= rest ensures |o| <= 1 {
      OperatorsMarked(o);
      PlusOperators(o);
    }
    BareIs(source, index, language, tokens);
    hide NextToken, OPERATORS, Marked;
    OperatorMoves(source, index, "+", language, tokens);
  }

  lemma PlusThere()
    ensures "+" in OPERATORS && "++" in OPERATORS
  {
    KnownOperators("+");
    KnownOperators("++");
  }

  lemma LetterMoves(source: string, index: nat, language: string, tokens: seq<Token>)
    requires index < |source| && StartsWord(source[index])
    requires index + 1 < |source| ==> !InWord(source[index + 1])
    ensures NextToken(source, index, language, tokens) == Token(Word, [source[index]])
  {
    assert source[index..index + 1] == [source[index]];
    hide NextToken;
    WordMoves(source, index, [source[index]], language, tokens);
  }

  /** In every language. */
  lemma ScanSum(language: string)
    ensures Scan("a + +b", language) == SUM
  {
    var s, q := "a + +b", SUM;
    assert IsSpace(' ') && !IsSpace('a') && !IsSpace('+') && !IsSpace('b');
    LetterMoves(s, 0, language, []);
    PlusScanned(s, 2, language, q[..1]);
    PlusScanned(s, 4, language, q[..2]);
    LetterMoves(s, 5, language, q[..3]);
    assert ['a'] == "a" && ['b'] == "b";
    assert [] + [q[0]] == q[..1] && q[..1] + [q[1]] == q[..2] && q[..2] + [q[2]] == q[..3] && q[..3] + [q[3]] == q;
    hide NextToken, IsSpace;
    assert ScanFrom(s, language, 6, q) == q;
    assert ScanFrom(s, language, 5, q[..3]) == q;
    assert ScanFrom(s, language, 4, q[..2]) == q;
    assert ScanFrom(s, language, 3, q[..2]) == q;
    assert ScanFrom(s, language, 2, q[..1]) == q;
    assert ScanFrom(s, language, 1, q[..1]) == q;
  }

  /** However "a + +b" is formatted, the result has other tokens: the two signs become an increment. */
  lemma SumBreaks(language: string, text: string)
    requires Weaves(false, text, Scan("a + +b", language))
    ensures !SameTokens(Scan(text, language), Scan("a + +b", language))
  {
    ScanSum(language);
    PlusThere();
    assert SUM[1].value + SUM[2].value == "++" && "++" <= "++";
    hide Scan, Weaves, SameTokens, OPERATORS;
    assert Joins(SUM[1], SUM[2]) && JoinsNext(SUM, 1);
    JoinsBreak("a + +b", language, text, 1);
  }
}
