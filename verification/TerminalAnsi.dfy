/**
 ANSI colours of terminal output: a streaming style parser and what it means per
 character.
 */
module TerminalAnsi {
  import opened Text

  // ---------------------------------------------------------- styles

  datatype Color = Named(index: nat, bright: bool) | Rgb(red: nat, green: nat, blue: nat)

  datatype Style = Style(foreground: Option<Color>, background: Option<Color>, bold: bool)

  const PLAIN := Style(None, None, false)

  predicate ProperColor(c: Color) {
    match c
    case Named(index, _) => index < 8
    case Rgb(r, g, b) => r <= 255 && g <= 255 && b <= 255
  }

  predicate ProperStyle(s: Style) {
    (s.foreground.Some? ==> ProperColor(s.foreground.value)) && (s.background.Some? ==> ProperColor(s.background.value))
  }

  function PowerOf6(n: nat): (p: nat)
    ensures p > 0
  {
    if n == 0 then 1 else 6 * PowerOf6(n - 1)
  }

  /** One component of the colour cube. */
  function Component(index: nat, position: nat): nat
    requires 16 <= index
  {
    var value := ((index - 16) / PowerOf6(position)) % 6;
    if value == 0 then 0 else 55 + value * 40
  }

  /** The 256-colour palette: 16 names, a 6 by 6 by 6 cube, 24 shades of grey. */
  function PaletteColor(index: nat): (c: Option<Color>)
    ensures c.Some? <==> index <= 255
    ensures c.Some? ==> ProperColor(c.value)
  {
    if index > 255 then None
    else if index < 16 then Some(Named(index % 8, index >= 8))
    else if index >= 232 then
      var shade := 8 + 10 * (index - 232);
      Some(Rgb(shade, shade, shade))
    else Some(Rgb(Component(index, 2), Component(index, 1), Component(index, 0)))
  }

  /** Put a colour in front for code 38, behind for 48. */
  function Painted(state: Style, code: nat, color: Option<Color>): Style {
    if color.None? then state else if code == 38 then state.(foreground := color) else state.(background := color)
  }

  /** A code that stands for itself. */
  function Simple(state: Style, code: nat): Style {
    if code == 0 then PLAIN
    else if code == 1 then state.(bold := true)
    else if code == 22 then state.(bold := false)
    else if code == 39 then state.(foreground := None)
    else if code == 49 then state.(background := None)
    else if 30 <= code <= 37 then state.(foreground := Some(Named(code - 30, false)))
    else if 40 <= code <= 47 then state.(background := Some(Named(code - 40, false)))
    else if 90 <= code <= 97 then state.(foreground := Some(Named(code - 90, true)))
    else if 100 <= code <= 107 then state.(background := Some(Named(code - 100, true)))
    else state
  }

  predicate Extended(codes: seq<nat>, i: nat, mode: nat) {
    i + 1 < |codes| && codes[i] in {38, 48} && codes[i + 1] == mode
  }

  /** How many codes the one at `i` takes. */
  function Width(codes: seq<nat>, i: nat): nat {
    if Extended(codes, i, 5) && i + 2 < |codes| then 3
    else if Extended(codes, i, 2) && i + 5 <= |codes| then 5
    else 1
  }

  /** What the codes starting at `i` do, as far as they belong together. */
  function OneCode(state: Style, codes: seq<nat>, i: nat): Style
    requires i < |codes|
  {
    if Width(codes, i) == 3 then Painted(state, codes[i], PaletteColor(codes[i + 2]))
    else if Width(codes, i) == 5 then
      var r, g, b := codes[i + 2], codes[i + 3], codes[i + 4];
      Painted(state, codes[i], if r <= 255 && g <= 255 && b <= 255 then Some(Rgb(r, g, b)) else None)
    else Simple(state, codes[i])
  }

  function Sgr(state: Style, codes: seq<nat>, i: nat): Style
    decreases if i < |codes| then |codes| - i else 0
  {
    if i >= |codes| then state else Sgr(OneCode(state, codes, i), codes, i + Width(codes, i))
  }

  lemma {:induction false} SgrProper(state: Style, codes: seq<nat>, i: nat)
    requires ProperStyle(state)
    ensures ProperStyle(Sgr(state, codes, i))
    decreases if i < |codes| then |codes| - i else 0
  {
    if i < |codes| {
      SgrProper(OneCode(state, codes, i), codes, i + Width(codes, i));
    }
  }

  function Numeral(digits: string): nat {
    if digits == "" then 0
    else
      var d := digits[|digits| - 1];
      10 * Numeral(digits[..|digits| - 1]) + if '0' <= d <= '9' then d as nat - '0' as nat else 0
  }

  function Numerals(parts: seq<string>): seq<nat> {
    seq(|parts|, i requires 0 <= i < |parts| => Numeral(parts[i]))
  }

  function Codes(parameters: string): seq<nat> {
    if parameters == "" then [0] else Numerals(Split(parameters, ';'))
  }

  /** `applySgr`: the state after one escape. */
  function Restyle(state: Style, parameters: string): Style {
    Sgr(state, Codes(parameters), 0)
  }

  method ApplySgr(previous: Style, parameters: string) returns (state: Style)
    ensures state == Restyle(previous, parameters)
  {
    hide Codes;
    state := previous;
    var codes := Codes(parameters);
    var i := 0;
    while i < |codes|
      invariant Sgr(state, codes, i) == Sgr(previous, codes, 0)
      decreases |codes| - i
    {
      var code := codes[i];
      if i + 1 < |codes| && code in {38, 48} && codes[i + 1] == 5 && i + 2 < |codes| {
        state := Painted(state, code, PaletteColor(codes[i + 2]));
        i := i + 2;
      } else if i + 1 < |codes| && code in {38, 48} && codes[i + 1] == 2 && i + 5 <= |codes| {
        var r, g, b := codes[i + 2], codes[i + 3], codes[i + 4];
        if r <= 255 && g <= 255 && b <= 255 {
          state := Painted(state, code, Some(Rgb(r, g, b)));
        }
        i := i + 4;
      } else {
        state := Simple(state, code);
      }
      i := i + 1;
    }
  }

  // ---------------------------------------------------------- escapes

  const ESC := '\U{1b}'

  predicate IsParameter(c: char) { '0' <= c <= '9' || c == ';' }

  function ParametersLength(text: string): (n: nat)
    ensures n <= |text|
  {
    if text != "" && IsParameter(text[0]) then 1 + ParametersLength(text[1..]) else 0
  }

  /** The length of the escape a text starts with; 0 if it starts with none. */
  function EscapeLength(text: string): (n: nat)
    ensures n <= |text|
  {
    if |text| >= 2 && text[0] == ESC && text[1] == '[' then
      var n := ParametersLength(text[2..]);
      if n + 2 < |text| && text[n + 2] == 'm' then n + 3 else 0
    else 0
  }

  /** The parameters of an escape of length `n`. */
  function Parameters(text: string, n: nat): string
    requires 3 <= n <= |text|
  {
    text[2..n - 1]
  }

  lemma EscapeIsLong(text: string)
    ensures EscapeLength(text) > 0 ==> EscapeLength(text) >= 3
  {
  }

  /** A character and the style it is shown in. */
  datatype Cell = Cell(c: char, style: Style)

  function Cells(text: string, style: Style): seq<Cell> {
    seq(|text|, i requires 0 <= i < |text| => Cell(text[i], style))
  }

  /** What a terminal shows of the text, character by character. */
  function Styled(text: string, state: Style): seq<Cell>
    decreases |text|
  {
    if text == "" then []
    else
      var n := EscapeLength(text);
      if n >= 3 then Styled(text[n..], Restyle(state, Parameters(text, n)))
      else [Cell(text[0], state)] + Styled(text[1..], state)
  }

  function FinalStyle(text: string, state: Style): Style
    decreases |text|
  {
    if text == "" then state
    else
      var n := EscapeLength(text);
      if n >= 3 then FinalStyle(text[n..], Restyle(state, Parameters(text, n)))
      else FinalStyle(text[1..], state)
  }

  // ---------------------------------------------------------- segments

  datatype Segment = Segment(text: string, style: Style)

  function Flatten(segments: seq<Segment>): seq<Cell>
    decreases |segments|
  {
    if segments == [] then []
    else Flatten(segments[..|segments| - 1]) + Cells(segments[|segments| - 1].text, segments[|segments| - 1].style)
  }

  lemma FlattenMore(segments: seq<Segment>, segment: Segment)
    ensures Flatten(segments + [segment]) == Flatten(segments) + Cells(segment.text, segment.style)
  {
    assert (segments + [segment])[..|segments|] == segments;
  }

  /** No escape starts in the first `n` characters. */
  ghost predicate Quiet(text: string, n: nat)
    requires n <= |text|
  {
    forall i :: 0 <= i < n ==> EscapeLength(text[i..]) < 3
  }

  /** A stretch without escapes is shown as it is. */
  lemma {:induction false} QuietShown(text: string, n: nat, state: Style)
    requires n <= |text| && Quiet(text, n)
    ensures Styled(text, state) == Cells(text[..n], state) + Styled(text[n..], state)
    ensures FinalStyle(text, state) == FinalStyle(text[n..], state)
  {
    hide EscapeLength;
    if n == 0 {
      assert text[0..] == text;
      assert Cells(text[..0], state) == [];
    } else {
      assert EscapeLength(text[0..]) < 3 && text[0..] == text;
      forall i | 0 <= i < n - 1 ensures EscapeLength(text[1..][i..]) < 3 {
        assert text[1..][i..] == text[i + 1..];
      }
      QuietShown(text[1..], n - 1, state);
      assert text[1..][n - 1..] == text[n..];
      assert [Cell(text[0], state)] + Cells(text[1..][..n - 1], state) == Cells(text[..n], state);
      Associative([Cell(text[0], state)], Cells(text[1..][..n - 1], state), Styled(text[n..], state));
    }
  }

  /** The next escape at or after `start`, or the end of the text. */
  method NextEscape(text: string, start: nat) returns (at: nat)
    requires start <= |text|
    ensures start <= at <= |text|
    ensures Quiet(text[start..], at - start)
    ensures at < |text| ==> EscapeLength(text[at..]) >= 3
  {
    hide EscapeLength;
    at := start;
    while at < |text| && EscapeLength(text[at..]) < 3
      invariant start <= at <= |text|
      invariant forall i :: 0 <= i < at - start ==> EscapeLength(text[start..][i..]) < 3
    {
      assert text[start..][at - start..] == text[at..];
      at := at + 1;
    }
  }

  lemma StretchShown(text: string, start: nat, at: nat, state: Style)
    requires start <= at <= |text| && Quiet(text[start..], at - start)
    ensures Styled(text[start..], state) == Cells(text[start..at], state) + Styled(text[at..], state)
    ensures FinalStyle(text[start..], state) == FinalStyle(text[at..], state)
  {
    hide EscapeLength, Cells, Quiet, Styled, FinalStyle;
    var rest := text[start..];
    QuietShown(rest, at - start, state);
    assert rest[..at - start] == text[start..at] && rest[at - start..] == text[at..];
  }

  lemma EscapeHidden(text: string, at: nat, n: nat, state: Style)
    requires at <= |text| && n == EscapeLength(text[at..]) >= 3
    ensures Styled(text[at..], state) == Styled(text[at + n..], Restyle(state, Parameters(text[at..], n)))
    ensures FinalStyle(text[at..], state) == FinalStyle(text[at + n..], Restyle(state, Parameters(text[at..], n)))
  {
    hide EscapeLength, Restyle;
    assert text[at..][n..] == text[at + n..];
  }

  /** Parse a piece of output from a given state: the segments shown and the state for the next piece. */
  method ParseTerminalAnsi(text: string, initial: Style) returns (segments: seq<Segment>, state: Style)
    ensures Flatten(segments) == Styled(text, initial)
    ensures state == FinalStyle(text, initial)
    ensures forall i :: 0 <= i < |segments| ==> segments[i].text != ""
  {
    hide EscapeLength, Flatten, Cells, Restyle, Quiet, Styled, FinalStyle, Parameters;
    segments, state := [], initial;
    var start := 0;
    assert text[0..] == text;
    NothingFlat();
    while true
      invariant 0 <= start <= |text|
      invariant Flatten(segments) + Styled(text[start..], state) == Styled(text, initial)
      invariant FinalStyle(text[start..], state) == FinalStyle(text, initial)
      invariant forall i :: 0 <= i < |segments| ==> segments[i].text != ""
      decreases |text| - start
    {
      var at := NextEscape(text, start);
      StretchShown(text, start, at, state);
      Associative(Flatten(segments), Cells(text[start..at], state), Styled(text[at..], state));
      NoCells(state);
      if at > start {
        FlattenMore(segments, Segment(text[start..at], state));
        segments := segments + [Segment(text[start..at], state)];
      }
      if at == |text| {
        assert text[at..] == "";
        break;
      }
      var n := EscapeLength(text[at..]);
      EscapeHidden(text, at, n, state);
      state := ApplySgr(state, Parameters(text[at..], n));
      start := at + n;
    }
  }

  lemma NothingFlat()
    ensures Flatten([]) == []
  {
  }

  lemma NoCells(state: Style)
    ensures Cells("", state) == [] && Styled("", state) == [] && FinalStyle("", state) == state
  {
  }

  // ---------------------------------------------------------- streaming

  /** Cutting the text at `cut` cuts an escape in two. */
  ghost predicate CutsEscape(text: string, cut: nat) {
    exists i :: 0 <= i < cut <= |text| && EscapeLength(text[i..]) > cut - i
  }

  /** An escape that ends where `a` ends or before does not care what follows. */
  lemma {:induction false} ParametersOfPrefix(a: string, b: string)
    ensures ParametersLength(a) < |a| ==> ParametersLength(a + b) == ParametersLength(a)
    ensures ParametersLength(a) == |a| ==> ParametersLength(a + b) == |a| + ParametersLength(b)
  {
    if a == "" {
      assert a + b == b;
    } else {
      ParametersOfPrefix(a[1..], b);
      assert (a + b)[1..] == a[1..] + b;
    }
  }

  lemma EscapeOfPrefix(a: string, b: string)
    requires a != ""
    ensures EscapeLength(a) > 0 ==> EscapeLength(a + b) == EscapeLength(a)
    ensures EscapeLength(a + b) <= |a| ==> EscapeLength(a) == EscapeLength(a + b)
  {
    if |a| >= 2 {
      ParametersOfPrefix(a[2..], b);
      assert (a + b)[2..] == a[2..] + b;
    }
  }

  /** Pieces that do not cut an escape are shown as the whole is. */
  lemma {:induction false} StreamingKeeps(a: string, b: string, state: Style)
    requires !CutsEscape(a + b, |a|)
    ensures Styled(a + b, state) == Styled(a, state) + Styled(b, FinalStyle(a, state))
    ensures FinalStyle(a + b, state) == FinalStyle(b, FinalStyle(a, state))
    decreases |a|
  {
    hide EscapeLength, Restyle;
    if a == "" {
      assert a + b == b;
    } else {
      EscapeOfPrefix(a, b);
      EscapeIsLong(a);
      EscapeIsLong(a + b);
      assert (a + b)[0..] == a + b;
      var n := EscapeLength(a);
      assert EscapeLength(a + b) <= |a|;
      var k := if n > 0 then n else 1;
      assert (a + b)[k..] == a[k..] + b;
      CutLater(a, b, k);
      if n > 0 {
        assert Parameters(a + b, n) == Parameters(a, n);
        StreamingKeeps(a[n..], b, Restyle(state, Parameters(a, n)));
      } else {
        StreamingKeeps(a[1..], b, state);
        Associative([Cell(a[0], state)], Styled(a[1..], state), Styled(b, FinalStyle(a[1..], state)));
      }
    }
  }

  lemma CutLater(a: string, b: string, k: nat)
    requires k <= |a| && !CutsEscape(a + b, |a|)
    ensures !CutsEscape(a[k..] + b, |a| - k)
  {
    hide EscapeLength;
    forall i | 0 <= i < |a| - k ensures EscapeLength((a[k..] + b)[i..]) <= |a| - k - i {
      assert (a[k..] + b)[i..] == (a + b)[k + i..];
    }
  }

  // ---------------------------------------------------------- exactly when

  /** Nothing in a text without an escape character is hidden. */
  lemma {:induction false} AllShown(text: string, state: Style)
    requires ESC !in text
    ensures |Styled(text, state)| == |text|
    decreases |text|
  {
    if text != "" {
      assert EscapeLength(text) == 0;
      AllShown(text[1..], state);
    }
  }

  /** How much is shown does not depend on the state. */
  lemma {:induction false} ShownLength(text: string, s: Style, t: Style)
    ensures |Styled(text, s)| == |Styled(text, t)|
    decreases |text|
  {
    hide EscapeLength, Restyle;
    if text != "" {
      var n := EscapeLength(text);
      if n >= 3 {
        ShownLength(text[n..], Restyle(s, Parameters(text, n)), Restyle(t, Parameters(text, n)));
      } else {
        ShownLength(text[1..], s, t);
      }
    }
  }

  lemma {:induction false} ParametersAreParameters(text: string)
    ensures forall i :: 0 <= i < ParametersLength(text) ==> IsParameter(text[i])
  {
    if text != "" && IsParameter(text[0]) {
      ParametersAreParameters(text[1..]);
    }
  }

  /** Past its first character an escape holds no escape character. */
  lemma EscapeInside(text: string)
    ensures forall i :: 1 <= i < EscapeLength(text) ==> text[i] != ESC
    ensures EscapeLength(text) > 0 ==> text[0] == ESC
  {
    if EscapeLength(text) > 0 {
      ParametersAreParameters(text[2..]);
      forall i | 1 <= i < EscapeLength(text) ensures text[i] != ESC {
        if 2 <= i < EscapeLength(text) - 1 {
          assert text[2..][i - 2] == text[i];
        }
      }
    }
  }

  /** Cut inside the escape it starts with, a text shows more in two pieces than in one. */
  lemma CutShowsMore(a: string, b: string, s: Style, t: Style)
    requires a != "" && EscapeLength(a + b) > |a|
    ensures |Styled(a, s)| + |Styled(b, t)| > |Styled(a + b, s)|
  {
    var whole, n := a + b, EscapeLength(a + b);
    EscapeInside(whole);
    EscapeIsLong(whole);
    var tail, rest := b[..n - |a|], b[n - |a|..];
    assert b == tail + rest && whole[n..] == rest;
    forall i | 0 <= i < |tail| ensures tail[i] != ESC {
      assert tail[i] == whole[|a| + i];
    }
    forall i | 1 <= i < |a| ensures a[i] != ESC {
      assert a[i] == whole[i];
    }
    EscapeOfPrefix(a, b);
    hide EscapeLength, Restyle;
    assert EscapeLength(a) == 0;
    assert ESC !in a[1..];
    AllShown(a[1..], s);
    TailQuiet(tail, rest);
    StreamingKeeps(tail, rest, t);
    AllShown(tail, t);
    ShownLength(rest, FinalStyle(tail, t), Restyle(s, Parameters(whole, n)));
  }

  lemma TailQuiet(tail: string, rest: string)
    requires ESC !in tail
    ensures !CutsEscape(tail + rest, |tail|)
  {
    forall i | 0 <= i < |tail| ensures EscapeLength((tail + rest)[i..]) == 0 {
      assert (tail + rest)[i..][0] == tail[i];
    }
  }

  /** An escape that starts before an escape character ends before it. */
  lemma NoneAcross(text: string, i: nat)
    requires i < |text| && text[i] == ESC
    ensures !CutsEscape(text[..i] + text[i..], i)
  {
    assert text[..i] + text[i..] == text;
    forall j | 0 <= j < i ensures EscapeLength(text[j..]) <= i - j {
      EscapeInside(text[j..]);
      assert text[j..][i - j] == ESC;
    }
  }

  /** The first escape that a cut goes through, and what is before it. */
  lemma FirstCut(a: string, b: string) returns (i: nat)
    requires CutsEscape(a + b, |a|)
    ensures i < |a| && EscapeLength((a + b)[i..]) > |a| - i
    ensures !CutsEscape(a[..i] + (a[i..] + b), i) && !CutsEscape(a[..i] + a[i..], i)
  {
    hide EscapeLength;
    var whole := a + b;
    i :| 0 <= i < |a| && EscapeLength(whole[i..]) > |a| - i;
    EscapeInside(whole[i..]);
    assert whole[i..][0] == whole[i] == a[i];
    hide CutsEscape;
    assert whole[..i] == a[..i] && whole[i..] == a[i..] + b;
    NoneAcross(whole, i);
    NoneAcross(a, i);
  }

  /**
   Parsing a stream in two pieces, the second from the state the first leaves, shows what
   parsing it whole shows, exactly when the cut is not inside an escape.
   */
  lemma StreamingIff(a: string, b: string, state: Style)
    ensures Styled(a + b, state) == Styled(a, state) + Styled(b, FinalStyle(a, state)) <==> !CutsEscape(a + b, |a|)
    ensures !CutsEscape(a + b, |a|) ==> FinalStyle(a + b, state) == FinalStyle(b, FinalStyle(a, state))
  {
    hide EscapeLength, Restyle, Styled, FinalStyle;
    if !CutsEscape(a + b, |a|) {
      StreamingKeeps(a, b, state);
    } else {
      var i := FirstCut(a, b);
      var head, tail := a[..i], a[i..];
      assert head + (tail + b) == a + b && head + tail == a;
      StreamingKeeps(head, tail + b, state);
      StreamingKeeps(head, tail, state);
      assert (a + b)[i..] == tail + b;
      CutShowsMore(tail, b, FinalStyle(head, state), FinalStyle(a, state));
    }
  }

  // ---------------------------------------------------------- tidy lists of segments

  /** No segment is empty, and neighbours differ in style. */
  ghost predicate Tidy(segments: seq<Segment>) {
    && (forall i :: 0 <= i < |segments| ==> segments[i].text != "")
    && (forall i :: 0 < i < |segments| ==> segments[i].style != segments[i - 1].style)
  }

  /** Extend the last segment if the style is the same, and start a new one otherwise. */
  function Appended(segments: seq<Segment>, text: string, style: Style): seq<Segment> {
    if text == "" then segments
    else
      var n := |segments| - 1;
      if segments != [] && segments[n].style == style
      then segments[..n] + [Segment(segments[n].text + text, style)]
      else segments + [Segment(text, style)]
  }

  lemma AppendedTidy(segments: seq<Segment>, text: string, style: Style)
    requires Tidy(segments)
    ensures Tidy(Appended(segments, text, style))
  {
  }

  lemma CellsConcat(a: string, b: string, style: Style)
    ensures Cells(a + b, style) == Cells(a, style) + Cells(b, style)
  {
  }

  lemma AppendedFlat(segments: seq<Segment>, text: string, style: Style)
    ensures Flatten(Appended(segments, text, style)) == Flatten(segments) + Cells(text, style)
  {
    NoCells(style);
    hide Cells;
    if text != "" {
      var n := |segments| - 1;
      if segments != [] && segments[n].style == style {
        FlattenMore(segments[..n], Segment(segments[n].text + text, style));
        CellsConcat(segments[n].text, text, style);
        Associative(Flatten(segments[..n]), Cells(segments[n].text, style), Cells(text, style));
      } else {
        FlattenMore(segments, Segment(text, style));
      }
    }
  }

  lemma AppendedFacts(segments: seq<Segment>, text: string, style: Style)
    requires Tidy(segments)
    ensures Tidy(Appended(segments, text, style))
    ensures Flatten(Appended(segments, text, style)) == Flatten(segments) + Cells(text, style)
  {
    hide Tidy, Flatten, Cells, Appended;
    AppendedTidy(segments, text, style);
    AppendedFlat(segments, text, style);
  }

  // ---------------------------------------------------------- merging

  /** Native colours first, the fallback where there is none. */
  function Over(native: Style, fallback: Style): Style {
    Style(if native.foreground.Some? then native.foreground else fallback.foreground,
          if native.background.Some? then native.background else fallback.background,
          native.bold || fallback.bold)
  }

  /** The characters of the first list, each in its own style over that of the second, as far as both go. */
  function Zip(native: seq<Cell>, fallback: seq<Cell>): seq<Cell> {
    var n := if |native| <= |fallback| then |native| else |fallback|;
    seq(n, i requires 0 <= i < n => Cell(native[i].c, Over(native[i].style, fallback[i].style)))
  }

  /** The characters a list of segments holds from a position on. */
  function From(segments: seq<Segment>, index: nat, offset: nat): seq<Cell>
    requires index <= |segments| && (index < |segments| ==> offset <= |segments[index].text|)
    decreases |segments| - index
  {
    if index == |segments| then []
    else Cells(segments[index].text[offset..], segments[index].style) + From(segments, index + 1, 0)
  }

  lemma {:induction false} FromIsFlat(segments: seq<Segment>, index: nat)
    requires index <= |segments|
    ensures Flatten(segments) == Flatten(segments[..index]) + From(segments, index, 0)
    decreases |segments| - index
  {
    if index == |segments| {
      assert segments[..index] == segments;
    } else {
      FromIsFlat(segments, index + 1);
      assert segments[..index + 1] == segments[..index] + [segments[index]];
      FlattenMore(segments[..index], segments[index]);
      assert segments[index].text[0..] == segments[index].text;
      Associative(Flatten(segments[..index]), Cells(segments[index].text, segments[index].style), From(segments, index + 1, 0));
    }
  }

  lemma ZipTogether(n1: seq<Cell>, f1: seq<Cell>, n2: seq<Cell>, f2: seq<Cell>)
    requires |n1| == |f1|
    ensures Zip(n1 + n2, f1 + f2) == Zip(n1, f1) + Zip(n2, f2)
  {
  }

  /** Moving on within the current segment, or to the start of the next. */
  lemma FromSteps(segments: seq<Segment>, index: nat, offset: nat, length: nat)
    requires index < |segments| && offset + length <= |segments[index].text|
    ensures From(segments, index, offset)
            == Cells(segments[index].text[offset..offset + length], segments[index].style)
               + (if offset + length == |segments[index].text| then From(segments, index + 1, 0)
                  else From(segments, index, offset + length))
  {
    var text, style := segments[index].text, segments[index].style;
    var now, later := text[offset..offset + length], text[offset + length..];
    assert text[offset..] == now + later;
    assert Cells(text[offset..], style) == Cells(now, style) + Cells(later, style);
    Associative(Cells(now, style), Cells(later, style), From(segments, index + 1, 0));
    if offset + length == |text| {
      assert Cells(later, style) == [];
      assert Cells(now, style) + [] == Cells(now, style);
    }
  }

  /** Two segmentations of one text, walked together. */
  method MergeTerminalColorSegments(native: seq<Segment>, fallback: seq<Segment>) returns (result: seq<Segment>)
    ensures Flatten(result) == Zip(Flatten(native), Flatten(fallback))
    ensures Tidy(result)
  {
    hide Flatten, From, Cells, Zip, Appended, Tidy, Over;
    result := [];
    var nativeIndex: nat, fallbackIndex: nat := 0, 0;
    var nativeOffset: nat, fallbackOffset: nat := 0, 0;
    MergeStarts(native, fallback);
    while nativeIndex < |native| && fallbackIndex < |fallback|
      invariant 0 <= nativeIndex <= |native| && 0 <= fallbackIndex <= |fallback|
      invariant nativeIndex < |native| ==> 0 <= nativeOffset <= |native[nativeIndex].text|
      invariant fallbackIndex < |fallback| ==> 0 <= fallbackOffset <= |fallback[fallbackIndex].text|
      invariant Tidy(result)
      invariant Flatten(result) + Zip(From(native, nativeIndex, nativeOffset), From(fallback, fallbackIndex, fallbackOffset))
             == Zip(Flatten(native), Flatten(fallback))
      decreases |native| - nativeIndex + |fallback| - fallbackIndex
    {
      var n, f := native[nativeIndex], fallback[fallbackIndex];
      var length := if |n.text| - nativeOffset <= |f.text| - fallbackOffset then |n.text| - nativeOffset else |f.text| - fallbackOffset;
      var text := n.text[nativeOffset..nativeOffset + length];
      ghost var shown := f.text[fallbackOffset..fallbackOffset + length];
      var style := Over(n.style, f.style);
      FromSteps(native, nativeIndex, nativeOffset, length);
      FromSteps(fallback, fallbackIndex, fallbackOffset, length);
      ghost var before := result;
      AppendedFacts(result, text, style);
      result := Appended(result, text, style);
      nativeOffset, fallbackOffset := nativeOffset + length, fallbackOffset + length;
      if nativeOffset == |n.text| {
        nativeIndex, nativeOffset := nativeIndex + 1, 0;
      }
      if fallbackOffset == |f.text| {
        fallbackIndex, fallbackOffset := fallbackIndex + 1, 0;
      }
      ghost var nativeRest, fallbackRest := From(native, nativeIndex, nativeOffset), From(fallback, fallbackIndex, fallbackOffset);
      ZipPiece(text, n.style, shown, f.style);
      ZipTogether(Cells(text, n.style), Cells(shown, f.style), nativeRest, fallbackRest);
      Associative(Flatten(before), Cells(text, style), Zip(nativeRest, fallbackRest));
    }
    NothingLeft(native, nativeIndex, fallback, fallbackIndex, nativeOffset, fallbackOffset);
  }

  lemma MergeStarts(native: seq<Segment>, fallback: seq<Segment>)
    ensures Flatten([]) == [] && Tidy([])
    ensures Flatten(native) == From(native, 0, 0) && Flatten(fallback) == From(fallback, 0, 0)
  {
    FromIsFlat(native, 0);
    FromIsFlat(fallback, 0);
    assert native[..0] == [] && fallback[..0] == [];
  }

  lemma ZipPiece(text: string, native: Style, shown: string, fallback: Style)
    requires |text| == |shown|
    ensures |Cells(text, native)| == |Cells(shown, fallback)|
    ensures Zip(Cells(text, native), Cells(shown, fallback)) == Cells(text, Over(native, fallback))
  {
  }

  lemma NothingLeft(native: seq<Segment>, i: nat, fallback: seq<Segment>, j: nat, p: nat, q: nat)
    requires i <= |native| && j <= |fallback| && (i == |native| || j == |fallback|)
    requires (i < |native| ==> p <= |native[i].text|) && (j < |fallback| ==> q <= |fallback[j].text|)
    ensures Zip(From(native, i, p), From(fallback, j, q)) == []
  {
  }

  // ---------------------------------------------------------- the text of a list of segments

  function Letters(cells: seq<Cell>): string {
    seq(|cells|, i requires 0 <= i < |cells| => cells[i].c)
  }

  function TextOf(segments: seq<Segment>): string {
    Letters(Flatten(segments))
  }

  lemma LettersOfCells(text: string, style: Style)
    ensures Letters(Cells(text, style)) == text
  {
  }

  lemma LettersConcat(a: seq<Cell>, b: seq<Cell>)
    ensures Letters(a + b) == Letters(a) + Letters(b)
  {
  }

  /** Merging two colourings of one text keeps the text and loses no character. */
  lemma ZipKeepsText(native: seq<Cell>, fallback: seq<Cell>)
    requires Letters(native) == Letters(fallback)
    ensures Letters(Zip(native, fallback)) == Letters(native)
    ensures |Zip(native, fallback)| == |native| == |fallback|
    ensures forall i :: 0 <= i < |native| ==> Zip(native, fallback)[i] == Cell(native[i].c, Over(native[i].style, fallback[i].style))
  {
    assert |Letters(native)| == |native| && |Letters(fallback)| == |fallback|;
  }

  /** Every colour shown is one of the eight names or has components up to 255, whatever the escapes say. */
  lemma {:induction false} ShownProper(text: string, state: Style)
    requires ProperStyle(state)
    ensures forall i :: 0 <= i < |Styled(text, state)| ==> ProperStyle(Styled(text, state)[i].style)
    ensures ProperStyle(FinalStyle(text, state))
    decreases |text|
  {
    hide EscapeLength, Sgr, Codes, ProperStyle;
    if text != "" {
      var n := EscapeLength(text);
      if n >= 3 {
        SgrProper(state, Codes(Parameters(text, n)), 0);
        ShownProper(text[n..], Restyle(state, Parameters(text, n)));
      } else {
        ShownProper(text[1..], state);
      }
    }
  }

  lemma {:induction false} FlattenConcat(a: seq<Segment>, b: seq<Segment>)
    ensures Flatten(a + b) == Flatten(a) + Flatten(b)
    decreases |b|
  {
    hide Cells;
    if b == [] {
      assert a + b == a;
    } else {
      var n := |b| - 1;
      FlattenConcat(a, b[..n]);
      assert (a + b)[..|a + b| - 1] == a + b[..n];
      Associative(Flatten(a), Flatten(b[..n]), Cells(b[n].text, b[n].style));
    }
  }
}
