/** 24-bit ANSI colour escapes and the colour transitions that draw the
    prompt's "bubbles" and chevrons. Besides the strings themselves, the module
    gives each string a reading as drawing pieces (`Piece`): the string a helper
    returns is the rendering of the pieces its contract names. */
module Terminal {
  import opened Text

  datatype Color = Color(red: int, green: int, blue: int)

  /** Which plane a colour escape sets. */
  datatype Where = Fore | Back

  const ESC: char := '\U{1B}'

  /** Control sequence introducer. */
  const CSI: string := [ESC, '[']

  /** The SGR selector: 38 sets the foreground, 48 the background. */
  function WhereCode(where: Where): int {
    match where
    case Fore => 38
    case Back => 48
  }

  /** `ESC[<38|48>;2;<red>;<green>;<blue>m`, each number in decimal: between
      the introducer and the final `m` lie exactly five `;`-separated fields. */
  function SetTerminalColor(color: Color, where: Where): (code: string)
    ensures |code| >= 3 && code[..2] == CSI && code[|code| - 1] == 'm'
    ensures Split(code[2..|code| - 1], ';') ==
      [IntToDecimal(WhereCode(where)), "2", IntToDecimal(color.red), IntToDecimal(color.green), IntToDecimal(color.blue)]
  {
    NoSemicolonInDecimal(WhereCode(where));
    NoSemicolonInDecimal(color.red);
    NoSemicolonInDecimal(color.green);
    NoSemicolonInDecimal(color.blue);
    EscapeFields(IntToDecimal(WhereCode(where)), IntToDecimal(color.red), IntToDecimal(color.green), IntToDecimal(color.blue));
    CSI + IntToDecimal(WhereCode(where)) + ";2;" + IntToDecimal(color.red) + ";" +
    IntToDecimal(color.green) + ";" + IntToDecimal(color.blue) + "m"
  }

  /** Reads a 24-bit colour escape back: the plane and the three channels, in order. */
  function DecodeColorCode(code: string): Option<(Color, Where)> {
    if |code| < 3 || code[..2] != CSI || code[|code| - 1] != 'm' then None
    else
      var fields := Split(code[2..|code| - 1], ';');
      if |fields| != 5 || fields[1] != "2" then None
      else
        var where := if fields[0] == "38" then Some(Fore) else if fields[0] == "48" then Some(Back) else None;
        match (where, ParseInt(fields[2]), ParseInt(fields[3]), ParseInt(fields[4]))
        case (Some(w), Some(r), Some(g), Some(b)) => Some((Color(r, g, b), w))
        case _ => None
  }

  lemma NoSemicolonInDecimal(i: int)
    ensures ';' !in IntToDecimal(i)
  {
  }

  /** The five parameters of a colour escape, separated by ';', split back apart. */
  lemma EscapeFields(w: string, r: string, g: string, b: string)
    requires ';' !in w && ';' !in r && ';' !in g && ';' !in b
    ensures var code := CSI + w + ";2;" + r + ";" + g + ";" + b + "m";
      |code| >= 3 && code[..2] == CSI && code[|code| - 1] == 'm' &&
      Split(code[2..|code| - 1], ';') == [w, "2", r, g, b]
  {
    var fields := [w, "2", r, g, b];
    var body := w + ";2;" + r + ";" + g + ";" + b;
    var code := CSI + w + ";2;" + r + ";" + g + ";" + b + "m";
    assert code == CSI + body + "m";
    assert code[2..|code| - 1] == body;
    calc {
      Join(fields, ';');
      w + [';'] + Join(["2", r, g, b], ';');
      { assert ["2", r, g, b][1..] == [r, g, b]; }
      w + [';'] + ("2" + [';'] + Join([r, g, b], ';'));
      { assert [r, g, b][1..] == [g, b]; }
      w + [';'] + ("2" + [';'] + (r + [';'] + Join([g, b], ';')));
      { assert [g, b][1..] == [b]; }
      w + [';'] + ("2" + [';'] + (r + [';'] + (g + [';'] + b)));
      body;
    }
    SplitJoin(fields, ';');
  }

  /** Every colour escape decodes to the colour and plane it was made from, so
      distinct colours or planes never produce the same escape. */
  lemma SetTerminalColorRoundTrip(color: Color, where: Where)
    ensures DecodeColorCode(SetTerminalColor(color, where)) == Some((color, where))
  {
    var w := IntToDecimal(WhereCode(where));
    assert NatToDecimal(3) == "3" && NatToDecimal(4) == "4";
    assert w == if where == Fore then "38" else "48";
    IntToDecimalRoundTrip(color.red);
    IntToDecimalRoundTrip(color.green);
    IntToDecimalRoundTrip(color.blue);
  }

  // ---------------------------------------------------------------------------
  // Drawing pieces

  datatype Piece =
    | SetFore(color: Color)
    | SetBack(color: Color)
    | ResetAll
    | Chars(chars: string)
    | Glyph(symbol: string)

  function PieceText(piece: Piece): string {
    match piece
    case SetFore(c) => SetTerminalColor(c, Fore)
    case SetBack(c) => SetTerminalColor(c, Back)
    case ResetAll => CSI + "0m"
    case Chars(s) => s
    case Glyph(s) => s
  }

  /** The text written for a sequence of pieces, in order. */
  function Render(pieces: seq<Piece>): string
    decreases |pieces|
  {
    if pieces == [] then "" else PieceText(pieces[0]) + Render(pieces[1..])
  }

  lemma {:induction false} RenderAppend(first: seq<Piece>, second: seq<Piece>)
    ensures Render(first + second) == Render(first) + Render(second)
    decreases |first|
  {
    if first == [] {
      assert first + second == second;
    } else {
      assert (first + second)[1..] == first[1..] + second;
      RenderAppend(first[1..], second);
    }
  }

  lemma RenderCons(piece: Piece, rest: seq<Piece>)
    ensures Render([piece] + rest) == PieceText(piece) + Render(rest)
  {
    assert ([piece] + rest)[1..] == rest;
  }

  lemma RenderOne(piece: Piece)
    ensures Render([piece]) == PieceText(piece)
  {
    RenderCons(piece, []);
    assert [piece] + [] == [piece];
    assert PieceText(piece) + "" == PieceText(piece);
  }

  lemma Regroup(w: string, x: string, y: string, z: string)
    ensures w + (x + (y + (z + ""))) == w + x + y + z
  {
  }

  /** Four pieces render as their texts in order. */
  lemma RenderFour(a: Piece, b: Piece, c: Piece, d: Piece)
    ensures Render([a, b, c, d]) == PieceText(a) + PieceText(b) + PieceText(c) + PieceText(d)
  {
    assert [a, b, c, d] == [a] + ([b] + ([c] + ([d] + [])));
    RenderCons(d, []);
    RenderCons(c, [d]);
    RenderCons(b, [c, d]);
    RenderCons(a, [b, c, d]);
    Regroup(PieceText(a), PieceText(b), PieceText(c), PieceText(d));
  }

  /** Rendering distributes over a concatenation of three, five, six or
      seven runs of pieces; callers compose the banners with these. */
  lemma RenderThree(a: seq<Piece>, b: seq<Piece>, c: seq<Piece>)
    ensures Render(a + b + c) == Render(a) + Render(b) + Render(c)
  {
    RenderAppend(a, b);
    RenderAppend(a + b, c);
  }

  lemma RenderFive(a: seq<Piece>, b: seq<Piece>, c: seq<Piece>, d: seq<Piece>, e: seq<Piece>)
    ensures Render(a + b + c + d + e) == Render(a) + Render(b) + Render(c) + Render(d) + Render(e)
  {
    RenderThree(a, b, c);
    RenderAppend(a + b + c, d);
    RenderAppend(a + b + c + d, e);
  }

  lemma RenderSix(a: seq<Piece>, b: seq<Piece>, c: seq<Piece>, d: seq<Piece>, e: seq<Piece>, f: seq<Piece>)
    ensures Render(a + b + c + d + e + f) ==
            Render(a) + Render(b) + Render(c) + Render(d) + Render(e) + Render(f)
  {
    RenderFive(a, b, c, d, e);
    RenderAppend(a + b + c + d + e, f);
  }

  lemma RenderSeven(a: seq<Piece>, b: seq<Piece>, c: seq<Piece>, d: seq<Piece>, e: seq<Piece>, f: seq<Piece>, g: seq<Piece>)
    ensures Render(a + b + c + d + e + f + g) ==
            Render(a) + Render(b) + Render(c) + Render(d) + Render(e) + Render(f) + Render(g)
  {
    RenderSix(a, b, c, d, e, f);
    RenderAppend(a + b + c + d + e + f, g);
  }

  function ColorPieces(fore: Color, back: Color): seq<Piece> {
    [SetFore(fore), SetBack(back)]
  }

  /** Enter a bubble: the symbol drawn in the new background colour, then the new colours. */
  function InPieces(symbol: string, fore: Color, back: Color): seq<Piece> {
    [SetFore(back), Glyph(symbol), SetFore(fore), SetBack(back)]
  }

  /** Leave a bubble onto another one: the symbol in the old background over the new one. */
  function OutOntoPieces(symbol: string, previousBack: Color, fore: Color, back: Color): seq<Piece> {
    [SetFore(previousBack), SetBack(back), Glyph(symbol), SetFore(fore)]
  }

  /** Leave the last bubble: the symbol in the old background over the terminal's own colours. */
  function OutPieces(symbol: string, previousBack: Color): seq<Piece> {
    [ResetAll, SetFore(previousBack), Glyph(symbol), ResetAll]
  }

  // ---------------------------------------------------------------------------
  // What the terminal draws with

  /** The terminal's current foreground and background; `None` is the
      terminal's own default colour. */
  datatype Pen = Pen(fore: Option<Color>, back: Option<Color>)

  const DEFAULT_PEN := Pen(None, None)

  /** The effect of one piece on the pen: an escape sets one plane, a reset
      restores both defaults, text and glyphs leave it alone. */
  function Apply(pen: Pen, piece: Piece): Pen {
    match piece
    case SetFore(c) => pen.(fore := Some(c))
    case SetBack(c) => pen.(back := Some(c))
    case ResetAll => DEFAULT_PEN
    case Chars(_) => pen
    case Glyph(_) => pen
  }

  /** The pen once every piece has been written, in order. */
  function PenAfter(pen: Pen, pieces: seq<Piece>): Pen
    decreases |pieces|
  {
    if pieces == [] then pen else PenAfter(Apply(pen, pieces[0]), pieces[1..])
  }

  lemma {:induction false} PenAfterAppend(pen: Pen, first: seq<Piece>, second: seq<Piece>)
    ensures PenAfter(pen, first + second) == PenAfter(PenAfter(pen, first), second)
    decreases |first|
  {
    if first == [] {
      assert first + second == second;
    } else {
      assert (first + second)[1..] == first[1..] + second;
      PenAfterAppend(Apply(pen, first[0]), first[1..], second);
    }
  }

  lemma PenAfterOne(pen: Pen, piece: Piece)
    ensures PenAfter(pen, [piece]) == Apply(pen, piece)
  {
    assert [piece][1..] == [];
  }

  lemma PenAfterFour(pen: Pen, a: Piece, b: Piece, c: Piece, d: Piece)
    ensures PenAfter(pen, [a, b]) == Apply(Apply(pen, a), b)
    ensures PenAfter(pen, [a, b, c, d]) == Apply(Apply(Apply(Apply(pen, a), b), c), d)
  {
    PenAfterOne(pen, a);
    PenAfterOne(Apply(pen, a), b);
    PenAfterOne(Apply(Apply(pen, a), b), c);
    PenAfterOne(Apply(Apply(Apply(pen, a), b), c), d);
    PenAfterAppend(pen, [a], [b]);
    assert [a] + [b] == [a, b];
    PenAfterAppend(pen, [a, b], [c]);
    assert [a, b] + [c] == [a, b, c];
    PenAfterAppend(pen, [a, b, c], [d]);
    assert [a, b, c] + [d] == [a, b, c, d];
  }

  /** Entering a bubble draws its symbol in the bubble's colour over whatever
      background was there, then writes in `fore` on the bubble's colour. */
  lemma TransitionInDraws(pen: Pen, symbol: string, fore: Color, back: Color)
    ensures var pieces := InPieces(symbol, fore, back);
      pieces[1] == Glyph(symbol) &&
      PenAfter(pen, pieces[..1]) == Pen(Some(back), pen.back) &&
      PenAfter(pen, pieces) == Pen(Some(fore), Some(back))
  {
    var pieces := InPieces(symbol, fore, back);
    assert pieces[..1] == [SetFore(back)];
    PenAfterOne(pen, SetFore(back));
    PenAfterFour(pen, SetFore(back), Glyph(symbol), SetFore(fore), SetBack(back));
  }

  /** Leaving a bubble onto another draws the symbol in the old bubble's
      colour over the new one, then writes in `fore` on the new colour. */
  lemma TransitionOutOntoDraws(pen: Pen, symbol: string, previousBack: Color, fore: Color, back: Color)
    ensures var pieces := OutOntoPieces(symbol, previousBack, fore, back);
      pieces[2] == Glyph(symbol) &&
      PenAfter(pen, pieces[..2]) == Pen(Some(previousBack), Some(back)) &&
      PenAfter(pen, pieces) == Pen(Some(fore), Some(back))
  {
    var pieces := OutOntoPieces(symbol, previousBack, fore, back);
    assert pieces[..2] == [SetFore(previousBack), SetBack(back)];
    PenAfterFour(pen, SetFore(previousBack), SetBack(back), Glyph(symbol), SetFore(fore));
  }

  /** Leaving the last bubble draws the symbol in the old bubble's colour over
      the terminal's own background, and leaves the terminal's defaults in place. */
  lemma TransitionOutDraws(pen: Pen, symbol: string, previousBack: Color)
    ensures var pieces := OutPieces(symbol, previousBack);
      pieces[2] == Glyph(symbol) &&
      PenAfter(pen, pieces[..2]) == Pen(Some(previousBack), None) &&
      PenAfter(pen, pieces) == DEFAULT_PEN
  {
    var pieces := OutPieces(symbol, previousBack);
    assert pieces[..2] == [ResetAll, SetFore(previousBack)];
    PenAfterFour(pen, ResetAll, SetFore(previousBack), Glyph(symbol), ResetAll);
  }

  // ---------------------------------------------------------------------------
  // The helpers of the prompt program

  function TextColor(color: Color): (code: string)
    ensures DecodeColorCode(code) == Some((color, Fore))
    ensures code == Render([SetFore(color)])
  {
    SetTerminalColorRoundTrip(color, Fore);
    RenderCons(SetFore(color), []);
    SetTerminalColor(color, Fore)
  }

  function BackColor(color: Color): (code: string)
    ensures DecodeColorCode(code) == Some((color, Back))
    ensures code == Render([SetBack(color)])
  {
    SetTerminalColorRoundTrip(color, Back);
    RenderCons(SetBack(color), []);
    SetTerminalColor(color, Back)
  }

  function SetColors(fore: Color, back: Color): (codes: string)
    ensures codes == Render(ColorPieces(fore, back))
  {
    RenderAppend([SetFore(fore)], [SetBack(back)]);
    TextColor(fore) + BackColor(back)
  }

  function ResetColors(): (code: string)
    ensures code == Render([ResetAll])
  {
    RenderCons(ResetAll, []);
    CSI + "0m"
  }

  function TransitionIn(symbol: string, fore: Color, back: Color): (s: string)
    ensures s == Render(InPieces(symbol, fore, back))
  {
    RenderFour(SetFore(back), Glyph(symbol), SetFore(fore), SetBack(back));
    TextColor(back) + symbol + SetColors(fore, back)
  }

  function TransitionOutOnto(symbol: string, previousBack: Color, fore: Color, back: Color): (s: string)
    ensures s == Render(OutOntoPieces(symbol, previousBack, fore, back))
  {
    RenderFour(SetFore(previousBack), SetBack(back), Glyph(symbol), SetFore(fore));
    SetColors(previousBack, back) + symbol + TextColor(fore)
  }

  function TransitionOut(symbol: string, previousBack: Color): (s: string)
    ensures s == Render(OutPieces(symbol, previousBack))
  {
    RenderFour(ResetAll, SetFore(previousBack), Glyph(symbol), ResetAll);
    ResetColors() + TextColor(previousBack) + symbol + ResetColors()
  }
}
