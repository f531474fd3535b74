/**
 What the scanner's tokens are, told without its tables and loops: operators are read as
 long as they go, words and numbers as a whole, and literals up to their own end.
 */
module TokenLaws {
  import opened WhiteSpace
  import opened Comments
  import opened Tokens

  // ---------------------------------------------------------- the longest operator

  lemma {:induction false} FirstOfNone(operators: seq<string>, text: string)
    requires "" !in operators
    ensures FirstOperator(operators, text) == "" ==> forall o | o in operators :: !(o <= text)
    ensures FirstOperator(operators, text) != "" ==> FirstOperator(operators, text) in operators
  {
    if operators != [] {
      FirstOfNone(operators[1..], text);
      assert operators == [operators[0]] + operators[1..];
    }
  }

  lemma {:induction false} FirstOfParts(first: seq<string>, rest: seq<string>, text: string)
    requires "" !in first
    ensures FirstOperator(first + rest, text)
         == if FirstOperator(first, text) != "" then FirstOperator(first, text) else FirstOperator(rest, text)
  {
    if first == [] {
      assert first + rest == rest;
    } else {
      assert (first + rest)[1..] == first[1..] + rest;
      FirstOfParts(first[1..], rest, text);
    }
  }

  lemma LongLengths()
    ensures forall o | o in LONG_OPERATORS :: |o| >= 3 && o[0] != '.' && (o != ">>>=" ==> |o| == 3)
    ensures LONG_OPERATORS[0] == ">>>="
  {
  }

  lemma DoubleLengths()
    ensures forall o | o in DOUBLE_OPERATORS :: |o| == 2 && o[0] != '.'
  {
  }

  lemma AssignmentLengths()
    ensures forall o | o in ASSIGNMENTS :: o != "..." ==> |o| == 2 && o[0] != '.'
    ensures "..." in ASSIGNMENTS
  {
  }

  lemma ShortLengths()
    ensures forall o | o in SHORT_OPERATORS :: |o| == 1 && o[0] != '.'
  {
  }

  lemma Prefixes(x: string, y: string, text: string)
    requires x <= text && y <= text && |x| == |y|
    ensures x == y
  {
    assert x == text[..|x|] && y == text[..|y|];
  }

  /** The operator that is found is the longest that the text starts with. */
  lemma MaximalMunch(text: string, o: string)
    requires o in OPERATORS && o <= text
    ensures |o| <= |FirstOperator(OPERATORS, text)|
  {
    LongLengths();
    DoubleLengths();
    AssignmentLengths();
    ShortLengths();
    FourFirst(text);
    Falling(LONG_OPERATORS, DOUBLE_OPERATORS, ASSIGNMENTS, SHORT_OPERATORS, text, o);
  }

  /** Operators in a table whose parts get shorter, but for one that shares its first character with no other. */
  lemma Falling(l: seq<string>, d: seq<string>, a: seq<string>, s: seq<string>, text: string, o: string)
    requires forall x | x in l :: |x| >= 3 && x[0] != '.' && (x != ">>>=" ==> |x| == 3)
    requires ">>>=" <= text && ">>>=" in l ==> FirstOperator(l, text) == ">>>="
    requires forall x | x in d :: |x| == 2 && x[0] != '.'
    requires forall x | x in a :: x != "..." ==> |x| == 2 && x[0] != '.'
    requires forall x | x in s :: |x| == 1 && x[0] != '.'
    requires o in l + d + a + s && o <= text
    ensures |o| <= |FirstOperator(l + d + a + s, text)|
  {
    FirstOfParts(l + d + a, s, text);
    FirstOfParts(l + d, a, text);
    FirstOfParts(l, d, text);
    FirstOfNone(l, text);
    FirstOfNone(d, text);
    FirstOfNone(a, text);
    FirstOfNone(s, text);
    hide FirstOperator;
    if o == "..." {
      assert text[0] == '.';
      assert o in a;
      assert FirstOperator(a, text) == "...";
    }
  }

  lemma FourFirst(text: string)
    ensures ">>>=" <= text ==> FirstOperator(LONG_OPERATORS, text) == ">>>="
  {
  }

  // ---------------------------------------------------------- the operators there are

  lemma LongOnes(o: string)
    ensures o in LONG_OPERATORS <==> o in {">>>=", "<<=", ">>=", "===", "!==", ">>>", "**=", "&&=", "||=", "??="}
  {
  }

  lemma DoubleOnes(o: string)
    ensures o in DOUBLE_OPERATORS <==> o in {"::", "->", "=>", "==", "!=", "<=", ">=", "&&", "||", "++", "--"}
  {
  }

  lemma AssignmentOnes(o: string)
    ensures o in ASSIGNMENTS <==> o in {"+=", "-=", "*=", "/=", "%=", "&=", "|=", "^=", "<<", ">>", "**", "??", "?.", "..."}
  {
  }

  lemma ShortOnes(o: string)
    ensures o in SHORT_OPERATORS <==> o in {"=", "+", "-", "*", "/", "%", "!", "&", "|", "^", "~", "?"}
  {
  }

  lemma KnownOperators(o: string)
    ensures o in OPERATORS <==>
              o in {">>>=", "<<=", ">>=", "===", "!==", ">>>", "**=", "&&=", "||=", "??=",
                    "::", "->", "=>", "==", "!=", "<=", ">=", "&&", "||", "++", "--",
                    "+=", "-=", "*=", "/=", "%=", "&=", "|=", "^=", "<<", ">>", "**", "??", "?.", "...",
                    "=", "+", "-", "*", "/", "%", "!", "&", "|", "^", "~", "?"}
  {
    LongOnes(o);
    DoubleOnes(o);
    AssignmentOnes(o);
    ShortOnes(o);
    hide LONG_OPERATORS, DOUBLE_OPERATORS, ASSIGNMENTS, SHORT_OPERATORS;
  }

  /** The first characters of operators open nothing else, but for the slash of a comment or a regular expression. */
  predicate Marked(o: string) {
    && o != "" && o[0] in {'>', '<', '=', '!', '*', '&', '|', '?', ':', '-', '+', '/', '%', '^', '.', '~'}
    && (o[0] == '/' ==> o == "/" || o == "/=")
  }

  lemma OperatorsMarked(o: string)
    requires o in OPERATORS
    ensures Marked(o)
  {
    LongOnes(o);
    DoubleOnes(o);
    AssignmentOnes(o);
    ShortOnes(o);
    hide LONG_OPERATORS, DOUBLE_OPERATORS, ASSIGNMENTS, SHORT_OPERATORS;
  }

  // ---------------------------------------------------------- where the tokens stand

  ghost predicate Gap(source: string, from: nat, to: nat) {
    from <= to <= |source| && AllSpace(source[from..to])
  }

  function StartOr(end: nat, starts: seq<nat>, k: nat): nat {
    if k < |starts| then starts[k] else end
  }

  /** The token with this number is what the scanner reads at `at`. */
  ghost predicate ReadAt(source: string, language: string, tokens: seq<Token>, k: nat, at: nat)
    requires k < |tokens|
  {
    at < |source| && !IsSpace(source[at]) && tokens[k] == NextToken(source, at, language, tokens[..k])
  }

  /** The tokens stand at `starts`, and up to `end` there is only white space around them. */
  ghost predicate Placed(source: string, language: string, tokens: seq<Token>, starts: seq<nat>, end: nat) {
    && |starts| == |tokens|
    && Gap(source, 0, StartOr(end, starts, 0))
    && (forall k :: 0 <= k < |tokens| ==> ReadAt(source, language, tokens, k, starts[k]))
    && (forall k :: 0 <= k < |tokens| ==> Gap(source, starts[k] + |tokens[k].value|, StartOr(end, starts, k + 1)))
  }

  lemma GapGrows(source: string, from: nat, to: nat)
    requires Gap(source, from, to) && to < |source| && IsSpace(source[to])
    ensures Gap(source, from, to + 1)
  {
    hide IsSpace;
    assert source[from..to + 1] == source[from..to] + [source[to]];
  }

  lemma PlacedSpace(source: string, language: string, tokens: seq<Token>, starts: seq<nat>, end: nat)
    requires Placed(source, language, tokens, starts, end) && end < |source| && IsSpace(source[end])
    ensures Placed(source, language, tokens, starts, end + 1)
  {
    hide Gap, IsSpace, ReadAt;
    if starts == [] {
      GapGrows(source, 0, end);
    } else {
      var n := |tokens| - 1;
      assert StartOr(end, starts, n + 1) == end;
      GapGrows(source, starts[n] + |tokens[n].value|, end);
      forall k | 0 <= k < |tokens| ensures Gap(source, starts[k] + |tokens[k].value|, StartOr(end + 1, starts, k + 1)) {
        if k < n {
          assert StartOr(end + 1, starts, k + 1) == StartOr(end, starts, k + 1);
        }
      }
    }
  }

  lemma PlacedToken(source: string, language: string, tokens: seq<Token>, starts: seq<nat>, end: nat)
    requires Placed(source, language, tokens, starts, end) && end < |source| && !IsSpace(source[end])
    ensures var token := NextToken(source, end, language, tokens);
            Placed(source, language, tokens + [token], starts + [end], end + |token.value|)
  {
    hide IsSpace, NextToken, StartOr, Gap;
    var token := NextToken(source, end, language, tokens);
    var t, s, e := tokens + [token], starts + [end], end + |token.value|;
    NothingBetween(source, e);
    StartsMore(starts, end, e);
    assert ReadAt(source, language, t, |tokens|, end) by {
      assert t[..|tokens|] == tokens;
    }
    forall k | 0 <= k < |tokens| ensures ReadAt(source, language, t, k, s[k]) {
      assert ReadAt(source, language, tokens, k, starts[k]);
      assert t[..k] == tokens[..k] && t[k] == tokens[k] && s[k] == starts[k];
    }
    hide ReadAt;
    forall k | 0 <= k < |t| ensures Gap(source, s[k] + |t[k].value|, StartOr(e, s, k + 1)) {
      if k < |tokens| {
        assert t[k] == tokens[k] && s[k] == starts[k];
      }
    }
  }

  lemma StartsMore(starts: seq<nat>, end: nat, e: nat)
    ensures forall k: nat :: k <= |starts| ==> StartOr(e, starts + [end], k) == StartOr(end, starts, k)
    ensures StartOr(e, starts + [end], |starts| + 1) == e
  {
  }

  lemma NothingBetween(source: string, at: nat)
    requires at <= |source|
    ensures Gap(source, at, at)
  {
  }

  lemma {:induction false} ScannedFrom(source: string, language: string, index: nat, tokens: seq<Token>, starts: seq<nat>)
    returns (all: seq<nat>)
    requires index <= |source| && Placed(source, language, tokens, starts, index)
    ensures Placed(source, language, ScanFrom(source, language, index, tokens), all, |source|)
    decreases |source| - index
  {
    hide IsSpace, NextToken, Placed;
    if index == |source| {
      all := starts;
    } else if IsSpace(source[index]) {
      PlacedSpace(source, language, tokens, starts, index);
      all := ScannedFrom(source, language, index + 1, tokens, starts);
    } else {
      var token := NextToken(source, index, language, tokens);
      PlacedToken(source, language, tokens, starts, index);
      all := ScannedFrom(source, language, index + |token.value|, tokens + [token], starts + [index]);
    }
  }

  /** The tokens stand one after the other in the source, each read where it stands, with white space alone around them. */
  lemma ScanPlaces(source: string, language: string) returns (starts: seq<nat>)
    ensures Placed(source, language, Scan(source, language), starts, |source|)
  {
    hide ScanFrom, ReadAt;
    NothingBetween(source, 0);
    starts := ScannedFrom(source, language, 0, [], []);
  }

  // ---------------------------------------------------------- operators

  lemma OperatorRead(source: string, language: string, tokens: seq<Token>, k: nat, at: nat)
    requires k < |tokens| && ReadAt(source, language, tokens, k, at) && tokens[k].kind.Operator?
    ensures tokens[k].value == FirstOperator(OPERATORS, source[at..]) && tokens[k].value in OPERATORS
  {
    hide OPERATORS, FirstOperator, RegexEnd, QuotedEnd, RunEnd, IndexOf, CanStartRegex, IsSpace;
    OperatorsNotEmpty();
    FirstOfNone(OPERATORS, source[at..]);
  }

  /** An operator in the source is read as long as it goes: no longer one starts where it does. */
  lemma OperatorsLongest(source: string, language: string, starts: seq<nat>, k: nat, o: string)
    requires Placed(source, language, Scan(source, language), starts, |source|)
    requires k < |starts| && Scan(source, language)[k].kind.Operator?
    requires o in OPERATORS && o <= source[starts[k]..]
    ensures |o| <= |Scan(source, language)[k].value|
  {
    hide Scan, OPERATORS, ReadAt, Gap;
    OperatorRead(source, language, Scan(source, language), k, starts[k]);
    ReadInside(source, language, Scan(source, language), k, starts[k]);
    MaximalMunch(source[starts[k]..], o);
  }

  /** Two operators that stand next to each other in the source do not join to one. */
  lemma NoJoin(source: string, language: string, starts: seq<nat>, k: nat)
    requires Placed(source, language, Scan(source, language), starts, |source|)
    requires k + 1 < |starts|
    requires var a, b := Scan(source, language)[k], Scan(source, language)[k + 1];
             a.kind.Operator? && b.kind.Operator? && starts[k + 1] == starts[k] + |a.value|
    ensures Scan(source, language)[k].value + Scan(source, language)[k + 1].value !in OPERATORS
  {
    var tokens := Scan(source, language);
    hide Scan, OPERATORS, ReadAt, Gap;
    var a, b, at := tokens[k].value, tokens[k + 1].value, starts[k];
    OperatorRead(source, language, tokens, k, at);
    OperatorRead(source, language, tokens, k + 1, at + |a|);
    ReadInside(source, language, tokens, k, at);
    ReadInside(source, language, tokens, k + 1, at + |a|);
    Joined(source[at..], source[at + |a|..], a, b);
    OperatorsNotEmpty();
    if a + b in OPERATORS {
      OperatorsLongest(source, language, starts, k, a + b);
    }
  }

  lemma ReadInside(source: string, language: string, tokens: seq<Token>, k: nat, at: nat)
    requires k < |tokens| && ReadAt(source, language, tokens, k, at)
    ensures at < |source|
  {
  }

  lemma Joined(text: string, rest: string, a: string, b: string)
    requires a <= text && |a| <= |text| && rest == text[|a|..] && b <= rest
    ensures a + b <= text
  {
    assert text == a + rest;
  }

  lemma MarkedVisible(o: string)
    requires Marked(o)
    ensures !IsSpace(o[0])
  {
  }

  /** Each of the operators scans by itself to one token, and there are no others. */
  lemma OperatorsScanAlone(o: string, language: string)
    ensures o in {">>>=", "<<=", ">>=", "===", "!==", ">>>", "**=", "&&=", "||=", "??=",
                  "::", "->", "=>", "==", "!=", "<=", ">=", "&&", "||", "++", "--",
                  "+=", "-=", "*=", "/=", "%=", "&=", "|=", "^=", "<<", ">>", "**", "??", "?.", "...",
                  "=", "+", "-", "*", "/", "%", "!", "&", "|", "^", "~", "?"}
       <==> Scan(o, language) == [Token(Operator, o)]
  {
    KnownOperators(o);
    hide OPERATORS;
    if o in OPERATORS {
      OperatorsMarked(o);
      MaximalMunch(o, o);
      AloneNext(o, language);
      MarkedVisible(o);
      assert ScanFrom(o, language, |o|, [] + [Token(Operator, o)]) == [Token(Operator, o)];
      hide NextToken, IsSpace;
    } else if Scan(o, language) == [Token(Operator, o)] {
      var starts := ScanPlaces(o, language);
      hide Scan;
      OperatorRead(o, language, [Token(Operator, o)], 0, starts[0]);
    }
  }

  lemma AloneNext(o: string, language: string)
    requires o in OPERATORS && Marked(o) && FirstOperator(OPERATORS, o) == o
    ensures NextToken(o, 0, language, []) == Token(Operator, o)
  {
    hide OPERATORS, FirstOperator, IsSpace;
    assert o[0..] == o;
    if o[0] == '/' {
      assert RegexEnd(o, 0, |o|) == 1;
      if |o| == 2 {
        assert o[1] == '=';
        assert !SlashAt(o, 0, 1) && !BreakAt(o, 0, 1);
        assert RegexEnd(o, 0, 1) == 1;
      }
    }
  }

  // ---------------------------------------------------------- comments, words, numbers and marks

  lemma {:induction false} RunMeans(source: string, index: nat, accept: char -> bool)
    requires index <= |source|
    ensures var end := RunEnd(source, index, accept);
            && (forall i :: index <= i < end ==> accept(source[i]))
            && (end < |source| ==> !accept(source[end]))
    decreases |source| - index
  {
    if index < |source| && accept(source[index]) {
      RunMeans(source, index + 1, accept);
    }
  }

  lemma {:induction false} IndexMeans(source: string, part: string, from: nat)
    requires from <= |source| && part != ""
    ensures forall i :: from <= i < IndexOf(source, part, from) ==> !(part <= source[i..])
    decreases |source| - from
  {
    if from < |source| && !StartsWithAt(source, part, from) {
      IndexMeans(source, part, from + 1);
    }
  }

  /** A word is the longest stretch of letters, digits, underscores and dollars that starts with no digit. */
  lemma WordsWhole(source: string, language: string, tokens: seq<Token>, k: nat, at: nat)
    requires k < |tokens| && ReadAt(source, language, tokens, k, at)
    ensures var c := source[at]; tokens[k].kind.Word? <==> 'A' <= c <= 'Z' || 'a' <= c <= 'z' || c in {'_', '$'}
    ensures tokens[k].kind.Word? ==>
              var end := at + |tokens[k].value|;
              && end <= |source| && tokens[k].value == source[at..end]
              && (forall i :: at <= i < end ==>
                    var c := source[i]; 'A' <= c <= 'Z' || 'a' <= c <= 'z' || '0' <= c <= '9' || c in {'_', '$'})
              && (end < |source| ==>
                    var c := source[end]; !('A' <= c <= 'Z' || 'a' <= c <= 'z' || '0' <= c <= '9' || c in {'_', '$'}))
  {
    RunMeans(source, at + 1, InWord);
    hide OPERATORS, FirstOperator, RegexEnd, QuotedEnd, RunEnd, IndexOf, CanStartRegex, IsSpace;
  }

  /** A number is the longest stretch of letters, digits, underscores and dots that starts with a digit. */
  lemma NumbersWhole(source: string, language: string, tokens: seq<Token>, k: nat, at: nat)
    requires k < |tokens| && ReadAt(source, language, tokens, k, at)
    ensures tokens[k].kind.Number? <==> '0' <= source[at] <= '9'
    ensures tokens[k].kind.Number? ==>
              var end := at + |tokens[k].value|;
              && end <= |source| && tokens[k].value == source[at..end]
              && (forall i :: at <= i < end ==>
                    var c := source[i]; 'A' <= c <= 'Z' || 'a' <= c <= 'z' || '0' <= c <= '9' || c in {'_', '.'})
              && (end < |source| ==>
                    var c := source[end]; !('A' <= c <= 'Z' || 'a' <= c <= 'z' || '0' <= c <= '9' || c in {'_', '.'}))
  {
    RunMeans(source, at + 1, InNumber);
    hide OPERATORS, FirstOperator, RegexEnd, QuotedEnd, RunEnd, IndexOf, CanStartRegex, IsSpace;
  }

  /** Two slashes open a comment that goes on to the end of the line. */
  lemma LineCommentsRead(source: string, language: string, tokens: seq<Token>, k: nat, at: nat)
    requires k < |tokens| && ReadAt(source, language, tokens, k, at)
    ensures tokens[k].kind.LineComment? <==> at + 1 < |source| && source[at] == '/' && source[at + 1] == '/'
    ensures tokens[k].kind.LineComment? ==>
              var end := at + |tokens[k].value|;
              && at + 2 <= end <= |source| && tokens[k].value == source[at..end]
              && (forall i :: at <= i < end ==> source[i] != '\n') && (end < |source| ==> source[end] == '\n')
  {
    if at + 2 <= |source| {
      IndexMeans(source, "\n", at + 2);
      LineFound(source, at + 2);
    }
    hide OPERATORS, FirstOperator, RegexEnd, QuotedEnd, RunEnd, IndexOf, CanStartRegex, IsSpace;
  }

  lemma LineFound(source: string, from: nat)
    requires from <= |source| && forall i :: from <= i < IndexOf(source, "\n", from) ==> !("\n" <= source[i..])
    ensures var end := IndexOf(source, "\n", from);
            && (forall i :: from <= i < end ==> source[i] != '\n') && (end < |source| ==> source[end] == '\n')
  {
    var end := IndexOf(source, "\n", from);
    forall i | from <= i < end ensures source[i] != '\n' {
      assert source[i..][..1] == [source[i]];
    }
    if end < |source| {
      assert source[end..][0] == source[end];
    }
  }

  /** A slash and an asterisk open a comment that goes on to the first asterisk and slash behind them, or to the end. */
  lemma BlockCommentsRead(source: string, language: string, tokens: seq<Token>, k: nat, at: nat)
    requires k < |tokens| && ReadAt(source, language, tokens, k, at)
    ensures tokens[k].kind.BlockComment? <==> at + 1 < |source| && source[at] == '/' && source[at + 1] == '*'
    ensures tokens[k].kind.BlockComment? ==>
              var end := at + |tokens[k].value|;
              && at + 2 <= end <= |source| && tokens[k].value == source[at..end]
              && (forall i :: at + 2 <= i && i + 2 < end ==> !(source[i] == '*' && source[i + 1] == '/'))
              && ((at + 4 <= end && source[end - 2] == '*' && source[end - 1] == '/')
                  || (end == |source| && forall i :: at + 2 <= i && i + 2 <= end ==> !(source[i] == '*' && source[i + 1] == '/')))
  {
    if at + 2 <= |source| {
      IndexMeans(source, "*/", at + 2);
      CloseFound(source, at + 2);
    }
    hide OPERATORS, FirstOperator, RegexEnd, QuotedEnd, RunEnd, IndexOf, CanStartRegex, IsSpace;
  }

  lemma CloseFound(source: string, from: nat)
    requires from <= |source| && forall i :: from <= i < IndexOf(source, "*/", from) ==> !("*/" <= source[i..])
    ensures var end := IndexOf(source, "*/", from);
            && (forall i :: from <= i < end && i + 1 < |source| ==> !(source[i] == '*' && source[i + 1] == '/'))
            && (end < |source| ==> end + 2 <= |source| && source[end] == '*' && source[end + 1] == '/')
  {
    var end := IndexOf(source, "*/", from);
    forall i | from <= i < end && i + 1 < |source| ensures !(source[i] == '*' && source[i + 1] == '/') {
      assert source[i..][..2] == [source[i], source[i + 1]];
    }
    if end < |source| {
      assert source[end..][0] == source[end] && source[end..][1] == source[end + 1];
    }
  }

  /** A mark is one character that starts nothing else. */
  lemma MarksRead(source: string, language: string, tokens: seq<Token>, k: nat, at: nat)
    requires k < |tokens| && ReadAt(source, language, tokens, k, at)
    ensures tokens[k].kind.Punctuation? ==>
              var c := source[at];
              && tokens[k].value == [c] && !('A' <= c <= 'Z' || 'a' <= c <= 'z' || '0' <= c <= '9' || c in {'_', '$', '\"', '\'', '`', '/', '*'})
              && forall o | o in OPERATORS :: !(o <= source[at..])
  {
    hide OPERATORS, FirstOperator, RegexEnd, QuotedEnd, RunEnd, IndexOf, CanStartRegex, IsSpace;
    if tokens[k].kind.Punctuation? {
      NoOperator(source[at..]);
    }
  }

  lemma NoOperator(text: string)
    requires text != "" && FirstOperator(OPERATORS, text) == ""
    ensures !IsOpener(text[0]) && forall o | o in OPERATORS :: !(o <= text)
  {
    hide OPERATORS, FirstOperator;
    OperatorsNotEmpty();
    FirstOfNone(OPERATORS, text);
    forall i | 0 <= i < |OPERATORS| ensures !(OPERATORS[i] <= text) {
      assert OPERATORS[i] in OPERATORS;
    }
    NotAnOperator(text);
  }

  // ---------------------------------------------------------- literals

  /** A character that stands for itself, or one behind a backslash. */
  datatype Atom = Plain(c: char) | Escape(c: char)

  function Spell(atoms: seq<Atom>): string {
    if atoms == [] then "" else SpellAtom(atoms[0]) + Spell(atoms[1..])
  }

  function SpellAtom(atom: Atom): string {
    match atom
    case Plain(c) => [c]
    case Escape(c) => ['\\', c]
  }

  /** Unescaped, neither the backslash nor one of `stops` stands in the text. */
  ghost predicate Spells(atoms: seq<Atom>, stops: set<char>) {
    forall i :: 0 <= i < |atoms| && atoms[i].Plain? ==> atoms[i].c != '\\' && atoms[i].c !in stops
  }

  lemma {:induction false} QuotedRuns(source: string, index: nat, quote: char, atoms: seq<Atom>)
    requires index <= |source| && Spell(atoms) + [quote] <= source[index..] && Spells(atoms, {quote}) && quote != '\\'
    ensures QuotedEnd(source, index, quote) == index + |Spell(atoms)| + 1
    decreases |atoms|
  {
    if atoms == [] {
      assert source[index..][0] == source[index] == quote;
    } else {
      var first := SpellAtom(atoms[0]);
      var next := index + |first|;
      assert Spell(atoms) + [quote] == first + (Spell(atoms[1..]) + [quote]);
      Follows(source, index, first, Spell(atoms[1..]) + [quote]);
      QuotedRuns(source, next, quote, atoms[1..]);
    }
  }

  lemma Follows(source: string, index: nat, first: string, rest: string)
    requires index <= |source| && first + rest <= source[index..]
    ensures index + |first| <= |source| && source[index..index + |first|] == first && rest <= source[index + |first|..]
    ensures forall i :: 0 <= i < |first| ==> source[index + i] == first[i]
  {
    var tail := source[index..];
    assert tail[..|first|] == (first + rest)[..|first|];
    assert tail[|first|..] == source[index + |first|..];
    assert forall i :: 0 <= i < |first| ==> tail[i] == first[i];
    assert tail[|first|..][..|rest|] == (first + rest)[|first|..];
  }

  /** A quoted literal is read up to its closing quote, over everything that is escaped. */
  lemma QuotedReads(source: string, language: string, tokens: seq<Token>, at: nat, quote: char, atoms: seq<Atom>)
    requires at < |source| && quote in {'\"', '\'', '`'} && Spells(atoms, {quote})
    requires [quote] + Spell(atoms) + [quote] <= source[at..]
    ensures NextToken(source, at, language, tokens) == Token(Literal, [quote] + Spell(atoms) + [quote])
  {
    var whole := [quote] + Spell(atoms) + [quote];
    assert whole == [quote] + (Spell(atoms) + [quote]);
    Follows(source, at, [quote], Spell(atoms) + [quote]);
    QuotedRuns(source, at + 1, quote, atoms);
    assert source[at..][..|whole|] == source[at..at + |whole|];
    hide Spell, Spells, OPERATORS, FirstOperator, RegexEnd, QuotedEnd, RunEnd, IndexOf, CanStartRegex, IsSpace;
  }

  // ---------------------------------------------------------- regular expressions

  /** One atom, or a class of atoms in brackets. */
  datatype Piece = One(atom: Atom) | Class(atoms: seq<Atom>)

  function SpellPiece(piece: Piece): string {
    match piece
    case One(atom) => SpellAtom(atom)
    case Class(atoms) => "[" + Spell(atoms) + "]"
  }

  function SpellAll(pieces: seq<Piece>): string {
    if pieces == [] then "" else SpellPiece(pieces[0]) + SpellAll(pieces[1..])
  }

  /** Unescaped, a slash stands only in a class, a bracket only where it opens or closes one, and a line feed nowhere. */
  ghost predicate IsPiece(piece: Piece) {
    match piece
    case One(atom) => Spells([atom], {'/', '[', '\n'})
    case Class(atoms) => Spells(atoms, {']', '\n'})
  }

  /** Nothing from `from` up to `to` ends the regular expression begun at `start`. */
  ghost predicate Unended(source: string, start: nat, from: nat, end: nat) {
    start < from <= end <= |source| && forall k :: from <= k < end ==> !SlashAt(source, start, k) && !BreakAt(source, start, k)
  }

  lemma {:induction false} UnendedRuns(source: string, start: nat, from: nat, end: nat)
    requires Unended(source, start, from, end)
    ensures RegexEnd(source, start, from) == RegexEnd(source, start, end)
    decreases end
  {
    if from < end {
      UnendedRuns(source, start, from, end - 1);
    }
  }

  lemma AtomKeeps(source: string, start: nat, k: nat, inClass: bool, atom: Atom)
    requires start < k <= |source| && RegexState(source, start, k) == (false, inClass)
    requires SpellAtom(atom) <= source[k..] && Spells([atom], if inClass then {']', '\n'} else {'/', '[', '\n'})
    ensures var next := k + |SpellAtom(atom)|;
            Unended(source, start, k, next) && RegexState(source, start, next) == (false, inClass)
  {
    assert [atom][0] == atom;
    Follows(source, k, SpellAtom(atom), "");
    if atom.Escape? {
      assert RegexState(source, start, k + 1) == (true, inClass);
      assert RegexState(source, start, k + 2) == (false, inClass);
    }
  }

  lemma {:induction false} ClassKeeps(source: string, start: nat, k: nat, atoms: seq<Atom>)
    requires start < k <= |source| && RegexState(source, start, k) == (false, true)
    requires Spell(atoms) <= source[k..] && Spells(atoms, {']', '\n'})
    ensures var next := k + |Spell(atoms)|;
            Unended(source, start, k, next) && RegexState(source, start, next) == (false, true)
    decreases |atoms|
  {
    hide RegexState, SlashAt, BreakAt;
    if atoms != [] {
      var first := SpellAtom(atoms[0]);
      Follows(source, k, first, Spell(atoms[1..]));
      assert Spells([atoms[0]], {']', '\n'}) && Spells(atoms[1..], {']', '\n'});
      assert first <= source[k..];
      AtomKeeps(source, start, k, true, atoms[0]);
      ClassKeeps(source, start, k + |first|, atoms[1..]);
    }
  }

  lemma PieceKeeps(source: string, start: nat, k: nat, piece: Piece)
    requires start < k <= |source| && RegexState(source, start, k) == (false, false)
    requires SpellPiece(piece) <= source[k..] && IsPiece(piece)
    ensures var next := k + |SpellPiece(piece)|;
            Unended(source, start, k, next) && RegexState(source, start, next) == (false, false)
  {
    hide Spell, SpellAtom, Spells, RegexState, Unended;
    match piece
    case One(atom) =>
      AtomKeeps(source, start, k, false, atom);
    case Class(atoms) =>
      ClassPieceKeeps(source, start, k, atoms);
  }

  lemma ClassPieceKeeps(source: string, start: nat, k: nat, atoms: seq<Atom>)
    requires start < k <= |source| && RegexState(source, start, k) == (false, false)
    requires "[" + Spell(atoms) + "]" <= source[k..] && Spells(atoms, {']', '\n'})
    ensures var next := k + |Spell(atoms)| + 2;
            Unended(source, start, k, next) && RegexState(source, start, next) == (false, false)
  {
    var body := Spell(atoms);
    hide Spell, RegexState, Spells, SlashAt, BreakAt;
    assert "[" + body + "]" == "[" + (body + "]");
    Follows(source, k, "[", body + "]");
    Follows(source, k + 1, body, "]");
    assert source[k + 0] == '[';
    BracketSteps(source, start, k, false);
    assert body <= source[k + 1..];
    ClassKeeps(source, start, k + 1, atoms);
    var end := k + 1 + |body|;
    assert source[end..][0] == source[end] == ']';
    BracketSteps(source, start, end, true);
  }

  lemma BracketSteps(source: string, start: nat, k: nat, inClass: bool)
    requires start < k < |source| && RegexState(source, start, k) == (false, inClass)
    requires source[k] == if inClass then ']' else '['
    ensures RegexState(source, start, k + 1) == (false, !inClass) && !SlashAt(source, start, k) && !BreakAt(source, start, k)
  {
  }

  lemma {:induction false} PiecesKeep(source: string, start: nat, k: nat, pieces: seq<Piece>)
    requires start < k <= |source| && RegexState(source, start, k) == (false, false)
    requires SpellAll(pieces) <= source[k..] && forall i :: 0 <= i < |pieces| ==> IsPiece(pieces[i])
    ensures var next := k + |SpellAll(pieces)|;
            Unended(source, start, k, next) && RegexState(source, start, next) == (false, false)
    decreases |pieces|
  {
    hide RegexState, SlashAt, BreakAt, IsPiece, SpellPiece;
    if pieces != [] {
      var first := SpellPiece(pieces[0]);
      Follows(source, k, first, SpellAll(pieces[1..]));
      assert first <= source[k..];
      PieceKeeps(source, start, k, pieces[0]);
      PiecesKeep(source, start, k + |first|, pieces[1..]);
    }
  }

  /**
   In JavaScript and TypeScript a slash that can open a regular expression does so if one
   follows, and it is read up to its closing slash and the letters behind that.
   */
  lemma RegexReads(source: string, language: string, tokens: seq<Token>, at: nat, pieces: seq<Piece>, flags: string)
    requires at < |source| && language in {"JavaScript", "TypeScript"}
    requires tokens == [] || tokens[|tokens| - 1].value in {
               "(", "[", "{", "=", ":", ",", ";", "!", "&&", "||", "?", "=>", "return", "case", "throw", "yield", "await"}
    requires pieces != [] && pieces[0] != One(Plain('*')) && forall i :: 0 <= i < |pieces| ==> IsPiece(pieces[i])
    requires forall i :: 0 <= i < |flags| ==> 'A' <= flags[i] <= 'Z' || 'a' <= flags[i] <= 'z'
    requires var regex := "/" + SpellAll(pieces) + "/" + flags;
             && regex <= source[at..]
             && (at + |regex| < |source| ==> var c := source[at + |regex|]; !('A' <= c <= 'Z' || 'a' <= c <= 'z'))
    ensures NextToken(source, at, language, tokens) == Token(Literal, "/" + SpellAll(pieces) + "/" + flags)
  {
    var body := SpellAll(pieces);
    var regex := "/" + body + "/" + flags;
    BodyOpens(pieces);
    assert HasRegex(language) && CanStartRegex(tokens);
    assert forall i :: 0 <= i < |flags| ==> IsLetter(flags[i]);
    assert at + |regex| < |source| ==> !IsLetter(source[at + |regex|]);
    hide *;
    RegexStands(source, at, body, flags);
    RegexEnds(source, at, pieces, flags);
    assert source[at + 1 + 0] == body[0];
    RegexNext(source, language, tokens, at, at + |regex|);
  }

  lemma RegexNext(source: string, language: string, tokens: seq<Token>, at: nat, end: nat)
    requires at + 1 < end <= |source| && HasRegex(language) && CanStartRegex(tokens)
    requires source[at] == '/' && source[at + 1] !in {'/', '*'} && RegexEnd(source, at, at + 1) == end
    ensures NextToken(source, at, language, tokens) == Token(Literal, source[at..end])
  {
    hide OPERATORS, FirstOperator, QuotedEnd, RunEnd, RegexEnd, IndexOf, IsSpace, CanStartRegex, HasRegex;
  }

  lemma RegexStands(source: string, at: nat, body: string, flags: string)
    requires at < |source| && "/" + body + "/" + flags <= source[at..]
    ensures var close := at + 1 + |body|;
            && close + 1 + |flags| <= |source| && source[at] == source[close] == '/'
            && body <= source[at + 1..] && flags <= source[close + 1..]
            && source[at..close + 1 + |flags|] == "/" + body + "/" + flags
    ensures forall i :: 0 <= i < |body| ==> source[at + 1 + i] == body[i]
  {
    var regex := "/" + body + "/" + flags;
    assert regex == "/" + (body + ("/" + flags));
    Follows(source, at, "/", body + ("/" + flags));
    Follows(source, at + 1, body, "/" + flags);
    var close := at + 1 + |body|;
    Follows(source, close, "/", flags);
    assert body <= source[at + 1..];
    assert source[at..][..|regex|] == source[at..at + |regex|];
  }

  lemma RegexEnds(source: string, at: nat, pieces: seq<Piece>, flags: string)
    requires at < |source| && (forall i :: 0 <= i < |pieces| ==> IsPiece(pieces[i])) && "/" + SpellAll(pieces) + "/" + flags <= source[at..]
    requires forall i :: 0 <= i < |flags| ==> IsLetter(flags[i])
    requires var end := at + |SpellAll(pieces)| + 2 + |flags|; end < |source| ==> !IsLetter(source[end])
    ensures RegexEnd(source, at, at + 1) == at + |SpellAll(pieces)| + 2 + |flags|
  {
    var body := SpellAll(pieces);
    var close := at + 1 + |body|;
    hide SpellAll, IsPiece, SpellPiece, RunEnd;
    RegexStands(source, at, body, flags);
    PiecesKeep(source, at, at + 1, pieces);
    UnendedRuns(source, at, at + 1, close);
    FlagsRun(source, close + 1, flags);
    assert SlashAt(source, at, close);
  }

  lemma BodyOpens(pieces: seq<Piece>)
    requires pieces != [] && pieces[0] != One(Plain('*')) && IsPiece(pieces[0])
    ensures SpellAll(pieces) != "" && SpellAll(pieces)[0] !in {'/', '*'}
  {
    match pieces[0]
    case One(atom) =>
      assert [atom][0] == atom;
    case Class(atoms) =>
  }

  lemma {:induction false} FlagsRun(source: string, index: nat, flags: string)
    requires index <= |source| && flags <= source[index..]
    requires forall i :: 0 <= i < |flags| ==> IsLetter(flags[i])
    requires index + |flags| < |source| ==> !IsLetter(source[index + |flags|])
    ensures RunEnd(source, index, IsLetter) == index + |flags|
    decreases |flags|
  {
    if flags != "" {
      assert flags == [flags[0]] + flags[1..];
      Follows(source, index, [flags[0]], flags[1..]);
      FlagsRun(source, index + 1, flags[1..]);
    }
  }
}
