/**
 What the escapes of a terminal mean, told from the side of a program that writes them: a
 style spelled out in parameters is the style shown, whatever was in force before.
 */
module AnsiLaws {
  import opened Text
  import opened TerminalAnsi

  // ---------------------------------------------------------- spelling a style

  function Digit(d: nat): string
    requires d < 10
  {
    ["0123456789"[d]]
  }

  function Decimal(n: nat): string {
    if n < 10 then Digit(n) else Decimal(n / 10) + Digit(n % 10)
  }

  /** Parameters that set the colour in front or behind, or take it back. */
  function ColorParts(color: Option<Color>, front: bool): seq<string>
    requires color.Some? ==> ProperColor(color.value)
  {
    match color
    case None => [if front then "39" else "49"]
    case Some(Named(index, bright)) =>
      [(if front then if bright then "9" else "3" else if bright then "10" else "4") + Digit(index)]
    case Some(Rgb(r, g, b)) => [if front then "38" else "48", "2", Decimal(r), Decimal(g), Decimal(b)]
  }

  function StyleParts(t: Style): seq<string>
    requires ProperStyle(t)
  {
    [if t.bold then "1" else "22"] + ColorParts(t.foreground, true) + ColorParts(t.background, false)
  }

  /** The parameters of an escape that sets every part of the style. */
  function Spell(t: Style): string
    requires ProperStyle(t)
  {
    Join(StyleParts(t), ';')
  }

  // ---------------------------------------------------------- numerals

  lemma NumeralMore(digits: string, d: nat)
    requires d < 10
    ensures Numeral(digits + Digit(d)) == 10 * Numeral(digits) + d
  {
    assert (digits + Digit(d))[..|digits|] == digits;
  }

  lemma {:induction false} DecimalReads(n: nat)
    ensures Numeral(Decimal(n)) == n && Decimal(n) != ""
    ensures forall c | c in Decimal(n) :: '0' <= c <= '9'
  {
    if n < 10 {
      assert "" + Digit(n) == Digit(n);
      NumeralMore("", n);
    } else {
      DecimalReads(n / 10);
      NumeralMore(Decimal(n / 10), n % 10);
    }
  }

  lemma TwoDigits(a: nat, b: nat)
    requires a < 10 && b < 10
    ensures Numeral(Digit(a) + Digit(b)) == 10 * a + b
  {
    assert "" + Digit(a) == Digit(a);
    NumeralMore("", a);
    NumeralMore(Digit(a), b);
  }

  /** The codes that a program writes for a colour. */
  function ColorCodes(color: Option<Color>, front: bool): seq<nat> {
    match color
    case None => [if front then 39 else 49]
    case Some(Named(index, bright)) => [index + if front then if bright then 90 else 30 else if bright then 100 else 40]
    case Some(Rgb(r, g, b)) => [if front then 38 else 48, 2, r, g, b]
  }

  lemma KnownNumerals()
    ensures Numeral("1") == 1 && Numeral("2") == 2 && Numeral("22") == 22 && Numeral("38") == 38 && Numeral("39") == 39
    ensures Numeral("48") == 48 && Numeral("49") == 49 && Numeral("0") == 0 && Numeral("5") == 5
  {
    assert Digit(1) == "1" && Digit(2) == "2" && Digit(0) == "0" && Digit(5) == "5";
    DecimalReads(1);
    DecimalReads(2);
    DecimalReads(0);
    DecimalReads(5);
    TwoDigits(2, 2);
    TwoDigits(3, 8);
    TwoDigits(3, 9);
    TwoDigits(4, 8);
    TwoDigits(4, 9);
  }

  lemma NamedNumeral(index: nat, bright: bool, front: bool)
    requires index < 8
    ensures [Numeral(ColorParts(Some(Named(index, bright)), front)[0])] == ColorCodes(Some(Named(index, bright)), front)
  {
    assert Digit(3) == "3" && Digit(4) == "4" && Digit(9) == "9" && Digit(1) + Digit(0) == "10";
    TwoDigits(3, index);
    TwoDigits(4, index);
    TwoDigits(9, index);
    TwoDigits(1, 0);
    NumeralMore("10", index);
  }

  lemma ColorNumerals(color: Option<Color>, front: bool)
    requires color.Some? ==> ProperColor(color.value)
    ensures Numerals(ColorParts(color, front)) == ColorCodes(color, front)
  {
    KnownNumerals();
    match color
    case None =>
    case Some(Named(index, bright)) =>
      NamedNumeral(index, bright, front);
    case Some(Rgb(r, g, b)) =>
      DecimalReads(r);
      DecimalReads(g);
      DecimalReads(b);
  }

  ghost predicate AllDigits(part: string) {
    forall c | c in part :: '0' <= c <= '9'
  }

  lemma PartsAreDigits(t: Style)
    requires ProperStyle(t)
    ensures forall i :: 0 <= i < |StyleParts(t)| ==> AllDigits(StyleParts(t)[i]) && ';' !in StyleParts(t)[i]
  {
    ColorDigits(t.foreground, true);
    ColorDigits(t.background, false);
    hide ColorParts;
  }

  lemma ColorDigits(color: Option<Color>, front: bool)
    requires color.Some? ==> ProperColor(color.value)
    ensures forall i :: 0 <= i < |ColorParts(color, front)| ==> AllDigits(ColorParts(color, front)[i])
  {
    if color.Some? && color.value.Rgb? {
      DecimalReads(color.value.red);
      DecimalReads(color.value.green);
      DecimalReads(color.value.blue);
      hide Decimal;
    }
  }

  function StyleCodes(t: Style): seq<nat> {
    [if t.bold then 1 else 22] + ColorCodes(t.foreground, true) + ColorCodes(t.background, false)
  }

  lemma NumeralsConcat(a: seq<string>, b: seq<string>)
    ensures Numerals(a + b) == Numerals(a) + Numerals(b)
  {
  }

  lemma CodesOfSpell(t: Style)
    requires ProperStyle(t)
    ensures Codes(Spell(t)) == StyleCodes(t)
  {
    var first := [if t.bold then "1" else "22"];
    KnownNumerals();
    PartsAreDigits(t);
    SplitOfJoin(StyleParts(t), ';');
    ColorNumerals(t.foreground, true);
    ColorNumerals(t.background, false);
    NumeralsConcat(first + ColorParts(t.foreground, true), ColorParts(t.background, false));
    NumeralsConcat(first, ColorParts(t.foreground, true));
    SpellNotEmpty(t);
    hide Numeral, ColorParts, ColorCodes, Join, Split;
    assert Numerals(first) == [if t.bold then 1 else 22];
  }

  lemma SpellNotEmpty(t: Style)
    requires ProperStyle(t)
    ensures Spell(t) != ""
  {
    var parts := StyleParts(t);
    hide StyleParts;
    assert |parts| > 1 && parts[0] != "" by { FirstPart(t); }
  }

  lemma FirstPart(t: Style)
    requires ProperStyle(t)
    ensures |StyleParts(t)| > 1 && StyleParts(t)[0] != ""
  {
  }

  // ---------------------------------------------------------- what is spelled is shown

  lemma ColorIsTaken(state: Style, codes: seq<nat>, i: nat, color: Option<Color>, front: bool)
    requires i < |codes| && ColorCodes(color, front) <= codes[i..] && (color.Some? ==> ProperColor(color.value))
    ensures var taken := if front then state.(foreground := color) else state.(background := color);
            Sgr(state, codes, i) == Sgr(taken, codes, i + |ColorCodes(color, front)|)
  {
    var own := ColorCodes(color, front);
    assert forall k :: 0 <= k < |own| ==> own[k] == codes[i..][k] == codes[i + k];
  }

  lemma BoldIsTaken(s: Style, codes: seq<nat>, bold: bool)
    requires codes != [] && codes[0] == if bold then 1 else 22
    ensures Sgr(s, codes, 0) == Sgr(s.(bold := bold), codes, 1)
  {
  }

  /** Whatever was in force, an escape that spells a style out sets exactly that style. */
  lemma SpelledIsHeard(s: Style, t: Style)
    requires ProperStyle(t)
    ensures Restyle(s, Spell(t)) == t
  {
    CodesOfSpell(t);
    hide Sgr, Spell, Codes, StyleCodes;
    CodesAreHeard(s, t);
  }

  lemma Tails(x: seq<nat>, y: seq<nat>, z: seq<nat>)
    ensures (x + y + z)[|x|..] == y + z && (x + y + z)[|x| + |y|..] == z
  {
  }

  lemma CodesAreHeard(s: Style, t: Style)
    requires ProperStyle(t)
    ensures Sgr(s, StyleCodes(t), 0) == t
  {
    var codes := StyleCodes(t);
    var fore, back := ColorCodes(t.foreground, true), ColorCodes(t.background, false);
    var front := s.(bold := t.bold, foreground := t.foreground);
    assert |fore| > 0 && |back| > 0;
    hide Sgr, ColorCodes;
    BoldIsTaken(s, codes, t.bold);
    Tails([if t.bold then 1 else 22], fore, back);
    ColorIsTaken(s.(bold := t.bold), codes, 1, t.foreground, true);
    ColorIsTaken(front, codes, 1 + |fore|, t.background, false);
    AllTaken(front.(background := t.background), codes);
  }

  lemma AllTaken(state: Style, codes: seq<nat>)
    ensures Sgr(state, codes, |codes|) == state
  {
  }

  lemma {:induction false} SpellsParameters(parts: seq<string>)
    requires forall i :: 0 <= i < |parts| ==> AllDigits(parts[i])
    ensures forall c | c in Join(parts, ';') :: IsParameter(c)
  {
    if |parts| > 1 {
      SpellsParameters(parts[1..]);
    }
  }

  lemma {:induction false} ParametersRead(parameters: string, rest: string)
    requires (forall c | c in parameters :: IsParameter(c)) && rest != "" && !IsParameter(rest[0])
    ensures ParametersLength(parameters + rest) == |parameters|
  {
    if parameters == "" {
      assert parameters + rest == rest;
    } else {
      assert (parameters + rest)[1..] == parameters[1..] + rest;
      ParametersRead(parameters[1..], rest);
    }
  }

  lemma {:induction false} PlainShown(text: string, state: Style)
    requires '\U{1b}' !in text
    ensures Styled(text, state) == Cells(text, state)
  {
    if text != "" {
      PlainShown(text[1..], state);
    }
  }

  /** A text behind an escape that spells a style out is shown in that style, and the escape is not shown. */
  lemma SpelledIsShown(text: string, s: Style, t: Style)
    requires ProperStyle(t) && '\U{1b}' !in text
    ensures Styled("\U{1b}[" + Spell(t) + "m" + text, s) == Cells(text, t)
  {
    var parameters := Spell(t);
    PartsAreDigits(t);
    SpellsParameters(StyleParts(t));
    SpelledIsHeard(s, t);
    PlainShown(text, t);
    hide Spell, Restyle, Cells;
    ParametersRead(parameters, "m" + text);
    EscapeShown(parameters, text, s);
  }

  lemma EscapeShown(parameters: string, text: string, s: Style)
    requires ParametersLength(parameters + ("m" + text)) == |parameters|
    ensures Styled("\U{1b}[" + parameters + "m" + text, s) == Styled(text, Restyle(s, parameters))
  {
    hide Restyle, ParametersLength;
    var whole := "\U{1b}[" + parameters + "m" + text;
    var n := |parameters| + 3;
    assert whole[2..] == parameters + ("m" + text);
    assert whole[n - 1] == 'm';
    assert EscapeLength(whole) == n;
    assert Parameters(whole, n) == parameters;
    assert whole[n..] == text;
  }

  // ---------------------------------------------------------- the palette

  const LEVELS: seq<nat> := [0, 95, 135, 175, 215, 255]

  /** Six levels of red, green and blue each, the blue running fastest. */
  lemma PaletteCube(r: nat, g: nat, b: nat)
    requires r < 6 && g < 6 && b < 6
    ensures PaletteColor(16 + 36 * r + 6 * g + b) == Some(Rgb(LEVELS[r], LEVELS[g], LEVELS[b]))
  {
    var index := 16 + 36 * r + 6 * g + b;
    assert PowerOf6(0) == 1 && PowerOf6(1) == 6 && PowerOf6(2) == 36;
    SixthsOf(r, g, b);
    LevelOf(index, 2, r);
    LevelOf(index, 1, g);
    LevelOf(index, 0, b);
    hide Component, PowerOf6, LEVELS;
  }

  lemma SixthsOf(r: nat, g: nat, b: nat)
    requires r < 6 && g < 6 && b < 6
    ensures var v := 36 * r + 6 * g + b; v / 36 % 6 == r && v / 6 % 6 == g && v / 1 % 6 == b
  {
    var v := 36 * r + 6 * g + b;
    assert v / 36 == r && v / 6 == 6 * r + g;
  }

  lemma LevelOf(index: nat, position: nat, level: nat)
    requires index >= 16 && level < 6 && (index - 16) / PowerOf6(position) % 6 == level
    ensures Component(index, position) == LEVELS[level]
  {
  }

  lemma PaletteNames(index: nat, bright: bool)
    requires index < 8
    ensures PaletteColor(if bright then 8 + index else index) == Some(Named(index, bright))
  {
  }

  lemma PaletteGreys(k: nat)
    requires k < 24
    ensures PaletteColor(232 + k) == Some(Rgb(8 + 10 * k, 8 + 10 * k, 8 + 10 * k))
  {
  }

  /** An index picks its colour from the palette, in front or behind; one past the palette changes nothing. */
  lemma IndexIsHeard(s: Style, front: bool, n: nat)
    ensures Restyle(s, (if front then "38;5;" else "48;5;") + Decimal(n)) ==
              if n > 255 then s else if front then s.(foreground := PaletteColor(n)) else s.(background := PaletteColor(n))
  {
    var parts := [if front then "38" else "48", "5", Decimal(n)];
    KnownNumerals();
    DecimalReads(n);
    hide Numeral, Decimal;
    JoinThree(parts);
    assert Join(parts, ';') == (if front then "38;5;" else "48;5;") + Decimal(n);
    SplitOfJoin(parts, ';');
    hide Split, Join;
    var codes := Numerals(parts);
    assert codes == [if front then 38 else 48, 5, n];
    hide PaletteColor;
    assert Width(codes, 0) == 3;
    AllTaken(OneCode(s, codes, 0), codes);
  }

  lemma JoinThree(parts: seq<string>)
    requires |parts| == 3
    ensures Join(parts, ';') == parts[0] + ";" + parts[1] + ";" + parts[2]
  {
    assert Join(parts[1..][1..], ';') == parts[2];
  }

  /** An escape without parameters, or with a zero, takes everything back. */
  lemma ResetIsHeard(s: Style)
    ensures Restyle(s, "") == Restyle(s, "0") == PLAIN
  {
    KnownNumerals();
    AloneHeard(s, "0");
    AllTaken(PLAIN, [0]);
  }

  lemma AloneHeard(s: Style, part: string)
    requires part != "" && ';' !in part
    ensures Restyle(s, part) == Simple(s, Numeral(part))
  {
    SplitOfJoin([part], ';');
    hide Numeral, Simple, Split;
    assert Numerals([part]) == [Numeral(part)];
    AllTaken(OneCode(s, [Numeral(part)], 0), [Numeral(part)]);
  }

  /** Every other number by itself changes nothing. */
  lemma OthersAreIgnored(s: Style, n: nat)
    requires n !in {0, 1, 22, 39, 49} && !(30 <= n <= 37) && !(40 <= n <= 47) && !(90 <= n <= 97) && !(100 <= n <= 107)
    ensures Restyle(s, Decimal(n)) == s
  {
    DecimalReads(n);
    AloneHeard(s, Decimal(n));
  }

  /** Merging is layering: a plain layer changes nothing, the colours of an upper layer show, and layers may be merged in any grouping. */
  lemma LayersMerge(a: Style, b: Style, c: Style)
    ensures Over(PLAIN, a) == a == Over(a, PLAIN)
    ensures a.foreground.Some? ==> Over(a, b).foreground == a.foreground
    ensures a.background.Some? ==> Over(a, b).background == a.background
    ensures Over(Over(a, b), c) == Over(a, Over(b, c))
  {
  }
}
