/**
 Colouring the output of `git commit` and `git status` line by line. Which lines are
 which is left to recognisers; what is proved is what happens to the text.
 */
module GitColors {
  import opened Text
  import opened TerminalAnsi

  const GREEN := Some(Named(2, false))
  const RED := Some(Named(1, false))
  const YELLOW := Some(Named(3, false))

  function Plain(foreground: Option<Color>): Style {
    Style(foreground, None, false)
  }

  // ---------------------------------------------------------- lines

  /** `match(/[^\n]*\n|[^\n]+$/g)`: the lines with their line feeds. */
  function Lines(text: string): seq<string> {
    if text == "" then []
    else var n := LineLength(text); [text[..n]] + Lines(text[n..])
  }

  function LineLength(text: string): (n: nat)
    requires text != ""
    ensures 0 < n <= |text|
  {
    if text[0] == '\n' || |text| == 1 then 1 else 1 + LineLength(text[1..])
  }

  function JoinAll(lines: seq<string>): string {
    if lines == [] then "" else lines[0] + JoinAll(lines[1..])
  }

  lemma {:induction false} LinesSpell(text: string)
    ensures JoinAll(Lines(text)) == text
    ensures forall i :: 0 <= i < |Lines(text)| ==> Lines(text)[i] != ""
    decreases |text|
  {
    hide LineLength;
    if text != "" {
      var n := LineLength(text);
      LinesSpell(text[n..]);
      assert Lines(text)[1..] == Lines(text[n..]);
      assert text[..n] + text[n..] == text;
    }
  }

  predicate EndsLine(line: string) {
    line != "" && line[|line| - 1] == '\n'
  }

  /** `replace(/\r?\n$/, "")` */
  function StripBreak(line: string): (s: string)
    ensures s <= line
  {
    if !EndsLine(line) then line
    else if |line| >= 2 && line[|line| - 2] == '\r' then line[..|line| - 2]
    else line[..|line| - 1]
  }

  // ---------------------------------------------------------- git commit

  /** The regular expressions of the colouriser: a summary is given by its length, counts by where they start and end. */
  datatype CommitWords = CommitWords(
    isHeader: string -> bool, isCreated: string -> bool, isDeleted: string -> bool,
    summary: string -> nat, counts: string -> seq<(nat, nat)>, isDeletion: string -> bool)

  /** Matches of a global search: in order, apart, inside the text. */
  ghost predicate InOrder(matches: seq<(nat, nat)>, from: nat, length: nat)
    decreases |matches|
  {
    if matches == [] then from <= length
    else from <= matches[0].0 <= matches[0].1 <= length && InOrder(matches[1..], matches[0].1, length)
  }

  ghost predicate SoundWords(words: CommitWords) {
    && (forall s :: words.summary(s) <= |s|)
    && (forall s :: InOrder(words.counts(s), 0, |s|))
  }

  function CountPieces(words: CommitWords, remainder: string, matches: seq<(nat, nat)>, cursor: nat): seq<Segment>
    requires InOrder(matches, cursor, |remainder|)
    decreases |matches|
  {
    if matches == [] then [Segment(remainder[cursor..], PLAIN)]
    else
      var found := remainder[matches[0].0..matches[0].1];
      [Segment(remainder[cursor..matches[0].0], PLAIN), Segment(found, Plain(if words.isDeletion(found) then RED else GREEN))]
      + CountPieces(words, remainder, matches[1..], matches[0].1)
  }

  /** The coloured pieces of one line. */
  function CommitPieces(words: CommitWords, line: string): seq<Segment>
    requires SoundWords(words)
  {
    if words.isHeader(line) then [Segment(line, Style(GREEN, None, true))]
    else if words.isCreated(line) then [Segment(line, Plain(GREEN))]
    else if words.isDeleted(line) then [Segment(line, Plain(RED))]
    else
      var n := words.summary(StripBreak(line));
      if n == 0 then [Segment(line, PLAIN)]
      else [Segment(line[..n], Plain(GREEN))] + CountPieces(words, line[n..], words.counts(line[n..]), 0)
  }

  function AllCommitPieces(words: CommitWords, lines: seq<string>): seq<Segment>
    requires SoundWords(words)
  {
    if lines == [] then [] else CommitPieces(words, lines[0]) + AllCommitPieces(words, lines[1..])
  }

  /** What the commit output is shown as: plain unless some line reports a commit. */
  function CommitColors(words: CommitWords, text: string): seq<Segment>
    requires SoundWords(words)
  {
    if exists line | line in Lines(text) :: words.isHeader(line) then AllCommitPieces(words, Lines(text))
    else [Segment(text, PLAIN)]
  }

  lemma TextOfConcat(a: seq<Segment>, b: seq<Segment>)
    ensures TextOf(a + b) == TextOf(a) + TextOf(b)
  {
    FlattenConcat(a, b);
    LettersConcat(Flatten(a), Flatten(b));
  }

  lemma TextOfOne(segment: Segment)
    ensures TextOf([segment]) == segment.text
  {
    assert [segment][..0] == [];
    assert Flatten([segment]) == [] + Cells(segment.text, segment.style);
    LettersOfCells(segment.text, segment.style);
    assert [] + Cells(segment.text, segment.style) == Cells(segment.text, segment.style);
  }

  lemma {:induction false} CountsSpell(words: CommitWords, remainder: string, matches: seq<(nat, nat)>, cursor: nat)
    requires InOrder(matches, cursor, |remainder|)
    ensures TextOf(CountPieces(words, remainder, matches, cursor)) == remainder[cursor..]
    decreases |matches|
  {
    hide TextOf;
    if matches == [] {
      TextOfOne(Segment(remainder[cursor..], PLAIN));
    } else {
      var (from, to) := matches[0];
      var found := remainder[from..to];
      var a, b := Segment(remainder[cursor..from], PLAIN), Segment(found, Plain(if words.isDeletion(found) then RED else GREEN));
      CountsSpell(words, remainder, matches[1..], to);
      TextOfOne(a);
      TextOfOne(b);
      TextOfConcat([a], [b]);
      assert [a] + [b] == [a, b];
      TextOfConcat([a, b], CountPieces(words, remainder, matches[1..], to));
      assert remainder[cursor..from] + remainder[from..to] + remainder[to..] == remainder[cursor..];
    }
  }

  lemma CommitSpells(words: CommitWords, line: string)
    requires SoundWords(words)
    ensures TextOf(CommitPieces(words, line)) == line
  {
    hide TextOf, CountPieces;
    var pieces := CommitPieces(words, line);
    if |pieces| == 1 && pieces[0].text == line && pieces == [pieces[0]] {
      TextOfOne(pieces[0]);
    } else {
      var n := words.summary(StripBreak(line));
      var first := Segment(line[..n], Plain(GREEN));
      TextOfOne(first);
      CountsSpell(words, line[n..], words.counts(line[n..]), 0);
      TextOfConcat([first], CountPieces(words, line[n..], words.counts(line[n..]), 0));
      assert line[n..][0..] == line[n..] && line[..n] + line[n..] == line;
    }
  }

  lemma {:induction false} AllCommitSpells(words: CommitWords, lines: seq<string>)
    requires SoundWords(words)
    ensures TextOf(AllCommitPieces(words, lines)) == JoinAll(lines)
  {
    hide TextOf, CommitPieces, SoundWords;
    if lines == [] {
      assert TextOf([]) == "" by {
        NothingToRead();
      }
    } else {
      CommitSpells(words, lines[0]);
      AllCommitSpells(words, lines[1..]);
      TextOfConcat(CommitPieces(words, lines[0]), AllCommitPieces(words, lines[1..]));
    }
  }

  lemma NothingToRead()
    ensures TextOf([]) == ""
  {
  }

  /** The colouriser never changes the text. */
  lemma CommitColorsSpell(words: CommitWords, text: string)
    requires SoundWords(words)
    ensures TextOf(CommitColors(words, text)) == text
  {
    LinesSpell(text);
    AllCommitSpells(words, Lines(text));
    TextOfOne(Segment(text, PLAIN));
  }

  /** Append a list of pieces one by one. */
  method AppendAll(segments: seq<Segment>, pieces: seq<Segment>) returns (result: seq<Segment>)
    requires Tidy(segments)
    ensures Tidy(result) && Flatten(result) == Flatten(segments) + Flatten(pieces)
  {
    hide Tidy, Flatten, Cells, Appended;
    result := segments;
    NothingFlat();
    for i := 0 to |pieces|
      invariant Tidy(result) && Flatten(result) == Flatten(segments) + Flatten(pieces[..i])
    {
      AppendedFacts(result, pieces[i].text, pieces[i].style);
      assert pieces[..i + 1] == pieces[..i] + [pieces[i]];
      FlattenMore(pieces[..i], pieces[i]);
      Associative(Flatten(segments), Flatten(pieces[..i]), Cells(pieces[i].text, pieces[i].style));
      result := Appended(result, pieces[i].text, pieces[i].style);
    }
    assert pieces[..|pieces|] == pieces;
  }

  method ColorizeGitCommitOutput(words: CommitWords, text: string) returns (segments: seq<Segment>)
    requires SoundWords(words)
    ensures Flatten(segments) == Flatten(CommitColors(words, text)) && Tidy(segments)
    ensures TextOf(segments) == text
  {
    CommitColorsSpell(words, text);
    var lines := Lines(text);
    segments := [];
    assert Tidy(segments);
    hide Tidy, Flatten, SoundWords, CommitPieces, Lines;
    NothingFlat();
    if !exists line | line in lines :: words.isHeader(line) {
      segments := AppendAll(segments, [Segment(text, PLAIN)]);
      return;
    }
    for i := 0 to |lines|
      invariant Tidy(segments)
      invariant Flatten(segments) + Flatten(AllCommitPieces(words, lines[i..])) == Flatten(AllCommitPieces(words, lines))
    {
      ghost var before, rest := segments, AllCommitPieces(words, lines[i + 1..]);
      assert lines[i..][0] == lines[i] && lines[i..][1..] == lines[i + 1..];
      segments := AppendAll(segments, CommitPieces(words, lines[i]));
      FlattenConcat(CommitPieces(words, lines[i]), rest);
      Associative(Flatten(before), Flatten(CommitPieces(words, lines[i])), Flatten(rest));
    }
    assert lines[|lines|..] == [];
  }

  /** Commit output in its own colours, and in the colouriser's where it has none: the text stays what the terminal shows. */
  method ShowCommitOutput(words: CommitWords, text: string, state: Style) returns (segments: seq<Segment>)
    requires SoundWords(words)
    ensures TextOf(segments) == Letters(Styled(text, state)) && Tidy(segments)
  {
    hide Flatten, Styled, CommitColors, Tidy, Zip, Letters;
    var parsed, after := ParseTerminalAnsi(text, state);
    var visible := ReadText(parsed);
    var colors := ColorizeGitCommitOutput(words, visible);
    segments := MergeTerminalColorSegments(parsed, colors);
    ZipKeepsText(Flatten(parsed), Flatten(colors));
  }

  /** `segments.map(segment => segment.text).join("")` */
  method ReadText(segments: seq<Segment>) returns (text: string)
    ensures text == TextOf(segments)
  {
    hide TextOf;
    NothingToRead();
    text := "";
    for i := 0 to |segments|
      invariant text == TextOf(segments[..i])
    {
      assert segments[..i + 1] == segments[..i] + [segments[i]];
      TextOfConcat(segments[..i], [segments[i]]);
      TextOfOne(segments[i]);
      text := text + segments[i].text;
    }
    assert segments[..|segments|] == segments;
  }

  // ---------------------------------------------------------- git status

  datatype Section = StagedSection | UnstagedSection | UntrackedSection | ConflictSection

  /** The headings and the lines of the long format, by their regular expressions. */
  datatype StatusWords = StatusWords(section: string -> Option<Section>, isVerbose: string -> bool, isUntracked: string -> bool)

  datatype RecordKind = Untracked | Conflict | Mixed | Staged | Unstaged

  datatype Record = Record(kind: RecordKind, rest: string)

  const STATUS_CODES: set<char> := {' ', 'M', 'A', 'R', 'C', 'U', 'D', '?', '!'}

  /** What `.` does not match. */
  predicate IsTerminator(c: char) {
    c == '\n' || c == '\r' || c as int == 0x2028 || c as int == 0x2029
  }

  function DotRun(s: string): (n: nat)
    ensures n <= |s|
    ensures forall i :: 0 <= i < n ==> !IsTerminator(s[i])
    ensures n < |s| ==> IsTerminator(s[n])
  {
    if s != "" && !IsTerminator(s[0]) then 1 + DotRun(s[1..]) else 0
  }

  /** A record of the short format: two status columns, a space and a path up to the first line terminator. */
  function StatusRecord(line: string): Option<Record> {
    if |line| < 4 || line[0] !in STATUS_CODES || line[1] !in STATUS_CODES || line[2] != ' ' || DotRun(line[3..]) == 0 then None
    else
      var first, second := line[0], line[1];
      var rest := line[3..3 + DotRun(line[3..])];
      if (first == ' ' && second == ' ') || (first == '!' && second == '!') then None
      else if first == '?' && second == '?' then Some(Record(Untracked, rest))
      else if first == 'U' || second == 'U' || (first == 'A' && second == 'A') || (first == 'D' && second == 'D')
      then Some(Record(Conflict, rest))
      else if first != ' ' && second != ' ' then Some(Record(Mixed, rest))
      else Some(Record(if first != ' ' then Staged else Unstaged, rest))
  }

  /** The path with a line feed if the line has one: anything between the two is dropped. */
  function PathText(line: string, rest: string): string {
    rest + if EndsLine(line) then "\n" else ""
  }

  function StatusPieces(words: StatusWords, section: Option<Section>, line: string): seq<Segment> {
    var record := if section.None? then StatusRecord(line) else None;
    if words.section(line).Some? then [Segment(line, PLAIN)]
    else if record.Some? then
      var first, second, path := line[..1], line[1..2], PathText(line, record.value.rest);
      match record.value.kind
      case Untracked => [Segment(line, Plain(RED))]
      case Conflict => [Segment(line, Plain(RED))]
      case Mixed => [Segment(first, Plain(GREEN)), Segment(second, Plain(RED)), Segment(" ", PLAIN), Segment(path, Plain(YELLOW))]
      case Staged => [Segment(first, Plain(GREEN)), Segment(second, PLAIN), Segment(" ", PLAIN), Segment(path, Plain(GREEN))]
      case Unstaged => [Segment(first, PLAIN), Segment(second, Plain(RED)), Segment(" ", PLAIN), Segment(path, Plain(RED))]
    else if section.Some? && words.isVerbose(line) then
      [Segment(line, Plain(if section.value.StagedSection? then GREEN else RED))]
    else if section.Some? && (section.value.UntrackedSection? || section.value.ConflictSection?) && words.isUntracked(line) then
      [Segment(line, Plain(RED))]
    else [Segment(line, PLAIN)]
  }

  function NextSection(words: StatusWords, section: Option<Section>, line: string): Option<Section> {
    if words.section(line).Some? then words.section(line) else section
  }

  function AllStatusPieces(words: StatusWords, section: Option<Section>, lines: seq<string>): seq<Segment>
    decreases |lines|
  {
    if lines == [] then []
    else StatusPieces(words, section, lines[0]) + AllStatusPieces(words, NextSection(words, section, lines[0]), lines[1..])
  }

  method ColorizeGitStatusOutput(words: StatusWords, text: string) returns (segments: seq<Segment>)
    ensures Flatten(segments) == Flatten(AllStatusPieces(words, None, Lines(text))) && Tidy(segments)
  {
    var lines := Lines(text);
    segments := [];
    assert Tidy(segments);
    hide Tidy, Flatten, StatusPieces, Lines;
    NothingFlat();
    var section := None;
    for i := 0 to |lines|
      invariant Tidy(segments)
      invariant Flatten(segments) + Flatten(AllStatusPieces(words, section, lines[i..])) == Flatten(AllStatusPieces(words, None, lines))
    {
      var line := lines[i];
      ghost var before, rest := segments, AllStatusPieces(words, NextSection(words, section, line), lines[i + 1..]);
      assert lines[i..][0] == line && lines[i..][1..] == lines[i + 1..];
      segments := AppendAll(segments, StatusPieces(words, section, line));
      FlattenConcat(StatusPieces(words, section, line), rest);
      Associative(Flatten(before), Flatten(StatusPieces(words, section, line)), Flatten(rest));
      section := NextSection(words, section, line);
    }
    assert lines[|lines|..] == [];
  }

  /** A short record of a changed file whose path ends in something other than the end of the line or one line feed. */
  predicate Lossy(words: StatusWords, section: Option<Section>, line: string) {
    && words.section(line).None? && section.None?
    && var record := StatusRecord(line);
       record.Some? && record.value.kind in {Mixed, Staged, Unstaged}
       && line[3 + |record.value.rest|..] !in {"", "\n"}
  }

  lemma RecordShape(line: string)
    requires StatusRecord(line).Some?
    ensures var rest := StatusRecord(line).value.rest;
            |line| >= 4 && line[2] == ' ' && |rest| + 3 <= |line| && line[3..3 + |rest|] == rest
            && (3 + |rest| == |line| ==> !EndsLine(line))
  {
    var n := DotRun(line[3..]);
    if 3 + n == |line| {
      assert line[3..][n - 1] == line[|line| - 1];
    }
  }

  /** The path is shown whole exactly when nothing but one line feed follows it. */
  lemma PathKept(line: string, rest: string)
    requires |rest| + 3 <= |line| && line[3..3 + |rest|] == rest && (3 + |rest| == |line| ==> !EndsLine(line))
    ensures if line[3 + |rest|..] in {"", "\n"} then PathText(line, rest) == line[3..] else |PathText(line, rest)| + 3 < |line|
  {
    var tail := line[3 + |rest|..];
    assert line[3..] == rest + tail;
    assert tail != "" ==> tail[|tail| - 1] == line[|line| - 1];
    assert |tail| == 1 && EndsLine(line) ==> tail == "\n";
    assert rest + "" == rest;
  }

  /** One line keeps its text unless it is lossy, and then it gets shorter. */
  lemma StatusSpells(words: StatusWords, section: Option<Section>, line: string)
    ensures var shown := TextOf(StatusPieces(words, section, line));
            if Lossy(words, section, line) then |shown| < |line| else shown == line
  {
    hide TextOf, StatusRecord;
    var pieces := StatusPieces(words, section, line);
    if |pieces| == 1 {
      assert pieces == [pieces[0]] && pieces[0].text == line;
      TextOfOne(pieces[0]);
    } else {
      RecordShape(line);
      var rest := StatusRecord(line).value.rest;
      FourSpell(pieces);
      PathKept(line, rest);
      assert line == line[..1] + line[1..2] + " " + line[3..];
    }
  }

  lemma FourSpell(pieces: seq<Segment>)
    requires |pieces| == 4
    ensures TextOf(pieces) == pieces[0].text + pieces[1].text + pieces[2].text + pieces[3].text
  {
    hide TextOf;
    TextOfOne(pieces[0]);
    TextOfOne(pieces[1]);
    TextOfOne(pieces[2]);
    TextOfOne(pieces[3]);
    TextOfConcat([pieces[0]], [pieces[1]]);
    TextOfConcat([pieces[0]] + [pieces[1]], [pieces[2]]);
    TextOfConcat([pieces[0]] + [pieces[1]] + [pieces[2]], [pieces[3]]);
    assert pieces == [pieces[0]] + [pieces[1]] + [pieces[2]] + [pieces[3]];
  }

  /** The section in force at line `k`. */
  function SectionAt(words: StatusWords, section: Option<Section>, lines: seq<string>, k: nat): Option<Section>
    requires k <= |lines|
    decreases k
  {
    if k == 0 then section else SectionAt(words, NextSection(words, section, lines[0]), lines[1..], k - 1)
  }

  ghost predicate SomeLossy(words: StatusWords, section: Option<Section>, lines: seq<string>) {
    exists k :: 0 <= k < |lines| && Lossy(words, SectionAt(words, section, lines, k), lines[k])
  }

  lemma SomeLossyStep(words: StatusWords, section: Option<Section>, lines: seq<string>)
    requires lines != []
    ensures SomeLossy(words, section, lines)
            <==> Lossy(words, section, lines[0]) || SomeLossy(words, NextSection(words, section, lines[0]), lines[1..])
  {
    hide Lossy, NextSection;
    var next, rest := NextSection(words, section, lines[0]), lines[1..];
    if Lossy(words, section, lines[0]) {
      assert Lossy(words, SectionAt(words, section, lines, 0), lines[0]);
    }
    if SomeLossy(words, next, rest) {
      var k :| 0 <= k < |rest| && Lossy(words, SectionAt(words, next, rest, k), rest[k]);
      assert Lossy(words, SectionAt(words, section, lines, k + 1), lines[k + 1]);
    }
    if SomeLossy(words, section, lines) {
      var k :| 0 <= k < |lines| && Lossy(words, SectionAt(words, section, lines, k), lines[k]);
      if k > 0 {
        assert Lossy(words, SectionAt(words, next, rest, k - 1), rest[k - 1]);
      }
    }
  }

  lemma {:induction false} AllStatusSpells(words: StatusWords, section: Option<Section>, lines: seq<string>)
    ensures var shown := TextOf(AllStatusPieces(words, section, lines));
            if SomeLossy(words, section, lines) then |shown| < |JoinAll(lines)| else shown == JoinAll(lines)
    decreases |lines|
  {
    hide TextOf, StatusPieces, NextSection, Lossy;
    if lines == [] {
      NothingToRead();
    } else {
      var next := NextSection(words, section, lines[0]);
      StatusSpells(words, section, lines[0]);
      AllStatusSpells(words, next, lines[1..]);
      SomeLossyStep(words, section, lines);
      hide SomeLossy;
      TextOfConcat(StatusPieces(words, section, lines[0]), AllStatusPieces(words, next, lines[1..]));
    }
  }

  /**
   The status colouriser keeps the text exactly when no short record of a changed file has
   a line terminator other than one final line feed after its path: a carriage return
   there is dropped.
   */
  lemma StatusKeepsTextIff(words: StatusWords, text: string, segments: seq<Segment>)
    requires Flatten(segments) == Flatten(AllStatusPieces(words, None, Lines(text)))
    ensures TextOf(segments) == text <==> !SomeLossy(words, None, Lines(text))
  {
    LinesSpell(text);
    AllStatusSpells(words, None, Lines(text));
  }

  /** " M a\r\n" loses its carriage return. */
  lemma CarriageReturnDropped(words: StatusWords)
    requires words.section(" M a\r\n").None?
    ensures Lossy(words, None, " M a\r\n")
  {
    var line := " M a\r\n";
    assert line[3..] == "a\r\n" && line[3..][1..] == "\r\n";
    assert DotRun("\r\n") == 0 && DotRun(line[3..]) == 1;
    assert line[3..4] == "a";
    assert StatusRecord(line) == Some(Record(Unstaged, "a"));
    assert line[4..] == "\r\n";
  }

  // ---------------------------------------------------------- colours by column

  lemma FlatOne(segment: Segment)
    ensures Flatten([segment]) == Cells(segment.text, segment.style)
  {
    assert [segment][..0] == [];
    assert Flatten([segment]) == [] + Cells(segment.text, segment.style);
    assert [] + Cells(segment.text, segment.style) == Cells(segment.text, segment.style);
  }

  lemma FlatFour(a: Segment, b: Segment, c: Segment, d: Segment)
    ensures Flatten([a, b, c, d])
         == Cells(a.text, a.style) + Cells(b.text, b.style) + Cells(c.text, c.style) + Cells(d.text, d.style)
  {
    hide Flatten, Cells;
    FlatOne(a);
    FlatOne(b);
    FlatOne(c);
    FlatOne(d);
    FlattenConcat([a], [b]);
    FlattenConcat([a] + [b], [c]);
    FlattenConcat([a] + [b] + [c], [d]);
    assert [a] + [b] + [c] + [d] == [a, b, c, d];
  }

  lemma {:induction false} DotRunAll(s: string)
    requires forall i :: 0 <= i < |s| ==> !IsTerminator(s[i])
    ensures DotRun(s) == |s|
  {
    if s != "" {
      DotRunAll(s[1..]);
    }
  }

  /**
   A short record by its columns: green for a change in the index, red for one in the
   worktree, and the path in the colour of the one there is, or yellow for both; untracked
   and conflicting files are red throughout.
   */
  lemma StatusColumns(words: StatusWords, x: char, y: char, path: string)
    requires var line := [x, y, ' '] + path; words.section(line).None?
    requires path != "" && forall i :: 0 <= i < |path| ==> path[i] !in {'\n', '\r', '\U{2028}', '\U{2029}'}
    requires x in {' ', 'M', 'A', 'R', 'C', 'D', 'U'} && y in {' ', 'M', 'A', 'R', 'C', 'D', 'U'} && (x != ' ' || y != ' ')
    ensures var line := [x, y, ' '] + path;
            Flatten(StatusPieces(words, None, line)) ==
              if x == 'U' || y == 'U' || (x == y && x in {'A', 'D'}) then Cells(line, Style(Some(Named(1, false)), None, false))
              else
                Cells([x], Style(if x != ' ' then Some(Named(2, false)) else None, None, false))
                + Cells([y], Style(if y != ' ' then Some(Named(1, false)) else None, None, false))
                + Cells(" ", PLAIN)
                + Cells(path, Style(Some(Named(if x == ' ' then 1 else if y == ' ' then 2 else 3, false)), None, false))
  {
    var line := [x, y, ' '] + path;
    ColumnsRead(x, y, path);
    hide Flatten, Cells, StatusRecord, EndsLine;
    var pieces := StatusPieces(words, None, line);
    if |pieces| == 1 {
      FlatOne(pieces[0]);
    } else {
      FlatFour(pieces[0], pieces[1], pieces[2], pieces[3]);
    }
  }

  lemma ColumnsRead(x: char, y: char, path: string)
    requires path != "" && forall i :: 0 <= i < |path| ==> path[i] !in {'\n', '\r', '\U{2028}', '\U{2029}'}
    requires x in {' ', 'M', 'A', 'R', 'C', 'D', 'U'} && y in {' ', 'M', 'A', 'R', 'C', 'D', 'U'} && (x != ' ' || y != ' ')
    ensures var line := [x, y, ' '] + path;
            && line[..1] == [x] && line[1..2] == [y] && PathText(line, path) == path
            && StatusRecord(line) == Some(Record(
                 if x == 'U' || y == 'U' || (x == y && x in {'A', 'D'}) then Conflict
                 else if x == ' ' then Unstaged else if y == ' ' then Staged else Mixed, path))
  {
    var line := [x, y, ' '] + path;
    assert line[3..] == path && line[3..3 + |path|] == path;
    DotRunAll(path);
    assert line[|line| - 1] == path[|path| - 1];
    assert path + "" == path;
    hide DotRun;
  }

  lemma UntrackedColumns(words: StatusWords, path: string)
    requires words.section("?? " + path).None?
    requires path != "" && forall i :: 0 <= i < |path| ==> path[i] !in {'\n', '\r', '\U{2028}', '\U{2029}'}
    ensures Flatten(StatusPieces(words, None, "?? " + path)) == Cells("?? " + path, Style(Some(Named(1, false)), None, false))
  {
    var line := "?? " + path;
    assert line[3..] == path;
    DotRunAll(path);
    hide Flatten, Cells, DotRun;
    FlatOne(Segment(line, Plain(RED)));
  }

  predicate Covers(m: (nat, nat), i: nat) { m.0 <= i < m.1 }

  /** A match is red if it counts deletions and green if not. */
  predicate CountedAs(words: CommitWords, remainder: string, m: (nat, nat), style: Style) {
    m.0 <= m.1 <= |remainder|
    && style == Style(Some(Named(if words.isDeletion(remainder[m.0..m.1]) then 1 else 2, false)), None, false)
  }

  /** The style at this place is that of the match that covers it, or plain. */
  ghost predicate StyleAt(words: CommitWords, remainder: string, matches: seq<(nat, nat)>, i: nat, style: Style) {
    && (forall m :: m in matches && Covers(m, i) ==> CountedAs(words, remainder, m, style))
    && ((forall m :: m in matches ==> !Covers(m, i)) ==> style == PLAIN)
  }

  /** The counts of a commit, character by character. */
  lemma {:induction false} CountAt(words: CommitWords, remainder: string, matches: seq<(nat, nat)>, cursor: nat, i: nat)
    requires InOrder(matches, cursor, |remainder|) && cursor <= i < |remainder|
    ensures var cells := Flatten(CountPieces(words, remainder, matches, cursor));
            |cells| == |remainder| - cursor && cells[i - cursor].c == remainder[i]
            && StyleAt(words, remainder, matches, i, cells[i - cursor].style)
    decreases |matches|
  {
    hide *;
    CountLength(words, remainder, matches, cursor);
    if matches == [] {
      CountNone(words, remainder, cursor, i);
    } else {
      var (from, to) := matches[0];
      CountFlat(words, remainder, matches, cursor);
      FirstInOrder(matches, cursor, |remainder|);
      CountLength(words, remainder, matches[1..], to);
      if i >= to {
        CountAt(words, remainder, matches[1..], to, i);
        StyleLater(words, remainder, matches, i, Flatten(CountPieces(words, remainder, matches[1..], to))[i - to].style);
      } else {
        var found := Plain(if words.isDeletion(remainder[from..to]) then RED else GREEN);
        StyleFirst(words, remainder, matches, i, if i < from then PLAIN else found);
        CellAt(remainder[cursor..from], PLAIN, remainder[from..to], found, i - cursor);
      }
    }
  }

  lemma CellAt(a: string, x: Style, b: string, y: Style, k: nat)
    requires k < |a| + |b|
    ensures |Cells(a, x)| == |a| && |Cells(b, y)| == |b|
    ensures (Cells(a, x) + Cells(b, y))[k] == if k < |a| then Cell(a[k], x) else Cell(b[k - |a|], y)
  {
  }

  lemma CountNone(words: CommitWords, remainder: string, cursor: nat, i: nat)
    requires cursor <= i < |remainder|
    ensures var cells := Flatten(CountPieces(words, remainder, [], cursor));
            |cells| == |remainder| - cursor && cells[i - cursor] == Cell(remainder[i], PLAIN)
    ensures StyleAt(words, remainder, [], i, PLAIN)
  {
    FlatOne(Segment(remainder[cursor..], PLAIN));
    hide Flatten;
  }

  lemma FirstInOrder(matches: seq<(nat, nat)>, cursor: nat, length: nat)
    requires InOrder(matches, cursor, length) && matches != []
    ensures cursor <= matches[0].0 <= matches[0].1 <= length && InOrder(matches[1..], matches[0].1, length)
    ensures forall m :: m in matches[1..] ==> matches[0].1 <= m.0 && m.1 <= length
  {
    InOrderBounds(matches[1..], matches[0].1, length);
  }

  lemma StyleLater(words: CommitWords, remainder: string, matches: seq<(nat, nat)>, i: nat, style: Style)
    requires matches != [] && matches[0].1 <= i && StyleAt(words, remainder, matches[1..], i, style)
    ensures StyleAt(words, remainder, matches, i, style)
  {
    hide CountedAs;
    assert matches == [matches[0]] + matches[1..];
  }

  lemma StyleFirst(words: CommitWords, remainder: string, matches: seq<(nat, nat)>, i: nat, style: Style)
    requires matches != [] && i < matches[0].1 && forall m :: m in matches[1..] ==> matches[0].1 <= m.0
    requires matches[0].0 <= matches[0].1 <= |remainder|
    requires style == if i < matches[0].0 then PLAIN
                      else Plain(if words.isDeletion(remainder[matches[0].0..matches[0].1]) then RED else GREEN)
    ensures StyleAt(words, remainder, matches, i, style)
  {
    assert matches == [matches[0]] + matches[1..];
    assert matches[0] in matches;
  }

  lemma CountFlat(words: CommitWords, remainder: string, matches: seq<(nat, nat)>, cursor: nat)
    requires InOrder(matches, cursor, |remainder|) && matches != []
    ensures var (from, to) := matches[0];
            Flatten(CountPieces(words, remainder, matches, cursor))
            == Cells(remainder[cursor..from], PLAIN)
               + Cells(remainder[from..to], Plain(if words.isDeletion(remainder[from..to]) then RED else GREEN))
               + Flatten(CountPieces(words, remainder, matches[1..], to))
  {
    hide Flatten, Cells;
    var (from, to) := matches[0];
    var found := remainder[from..to];
    var a, b := Segment(remainder[cursor..from], PLAIN), Segment(found, Plain(if words.isDeletion(found) then RED else GREEN));
    var rest := CountPieces(words, remainder, matches[1..], to);
    FlatOne(a);
    FlatOne(b);
    FlattenConcat([a], [b]);
    FlattenConcat([a] + [b], rest);
    assert [a] + [b] == [a, b];
  }

  /** One cell for each character. */
  lemma CountLength(words: CommitWords, remainder: string, matches: seq<(nat, nat)>, cursor: nat)
    requires InOrder(matches, cursor, |remainder|)
    ensures |Flatten(CountPieces(words, remainder, matches, cursor))| == |remainder| - cursor
  {
    CountsSpell(words, remainder, matches, cursor);
    InOrderBounds(matches, cursor, |remainder|);
    hide Flatten, CountPieces, InOrder;
  }

  lemma {:induction false} InOrderBounds(matches: seq<(nat, nat)>, from: nat, length: nat)
    requires InOrder(matches, from, length)
    ensures from <= length && forall m :: m in matches ==> from <= m.0 <= m.1 <= length
    decreases |matches|
  {
    if matches != [] {
      InOrderBounds(matches[1..], matches[0].1, length);
    }
  }

  /** A line of commit output by its kind: the header green and bold, a created file green, a deleted one red, a summary green up to its counts. */
  lemma CommitLineColors(words: CommitWords, line: string)
    requires SoundWords(words)
    ensures var cells, green := Flatten(CommitPieces(words, line)), Style(Some(Named(2, false)), None, false);
            var n := words.summary(StripBreak(line));
            cells ==
              if words.isHeader(line) then Cells(line, green.(bold := true))
              else if words.isCreated(line) then Cells(line, green)
              else if words.isDeleted(line) then Cells(line, green.(foreground := Some(Named(1, false))))
              else if n == 0 then Cells(line, PLAIN)
              else Cells(line[..n], green) + Flatten(CountPieces(words, line[n..], words.counts(line[n..]), 0))
  {
    var pieces := CommitPieces(words, line);
    hide Flatten, Cells, CountPieces;
    if words.isHeader(line) || words.isCreated(line) || words.isDeleted(line) || words.summary(StripBreak(line)) == 0 {
      FlatOne(pieces[0]);
    } else {
      var n := words.summary(StripBreak(line));
      FlatOne(Segment(line[..n], Plain(GREEN)));
      FlattenConcat([Segment(line[..n], Plain(GREEN))], CountPieces(words, line[n..], words.counts(line[n..]), 0));
    }
  }
}
