/** The rainbow frame: `borderColors` and `createRainbowBorder` of
    src/index.ts. Every border cell is one glyph painted with `chalk.rgb`;
    the top and bottom edges take their colours from gradients as wide as
    the card, the right and left edges from gradients as tall as it. */
module Border {
  import opened Ansi
  import opened Colors
  import opened Chalk
  import opened Gradient
  import Content

  // ---------------------------------------------------------------------
  // borderColors

  const TopHexes: seq<string> :=
    ["#03FFFF", "#00C8FF", "#0096FF", "#3164FF", "#6332FF", "#9601FF", "#C801FF", "#FF00DD", "#FF0096"]
  const RightHexes: seq<string> := ["#FF0096", "#FF3332", "#FF6400", "#FF9601", "#FFC803", "#FFFF00"]
  const BottomHexes: seq<string> := ["#03FFC8", "#03FF64", "#64FF33", "#C7FE04", "#FFFF00"]
  const LeftHexes: seq<string> := ["#03FFC8", "#03FFFF"]

  /** The anchors the palettes parse to. */
  const TopAnchors: seq<Color> :=
    [Color(3, 255, 255), Color(0, 200, 255), Color(0, 150, 255), Color(49, 100, 255), Color(99, 50, 255),
     Color(150, 1, 255), Color(200, 1, 255), Color(255, 0, 221), Color(255, 0, 150)]
  const RightAnchors: seq<Color> :=
    [Color(255, 0, 150), Color(255, 51, 50), Color(255, 100, 0), Color(255, 150, 1), Color(255, 200, 3),
     Color(255, 255, 0)]
  const BottomAnchors: seq<Color> :=
    [Color(3, 255, 200), Color(3, 255, 100), Color(100, 255, 51), Color(199, 254, 4), Color(255, 255, 0)]
  const LeftAnchors: seq<Color> := [Color(3, 255, 200), Color(3, 255, 255)]

  predicate AllInRange(cs: seq<Color>)
  {
    forall i :: 0 <= i < |cs| ==> InRange(cs[i])
  }

  /** Each palette is the `#RRGGBB` form of its anchors. */
  predicate Spells(hexes: seq<string>, anchors: seq<Color>)
  {
    |hexes| == |anchors| && AllInRange(anchors) &&
    forall i :: 0 <= i < |hexes| ==> hexes[i] == ToHex(anchors[i])
  }

  /** Hexes that spell their anchors parse back to them. */
  lemma SpelledParses(hexes: seq<string>, anchors: seq<Color>)
    requires Spells(hexes, anchors)
    ensures AllParse(hexes) && ParseAll(hexes) == anchors
  {
    forall i | 0 <= i < |hexes|
      ensures Parses(hexes[i]) && ParseHexColor(hexes[i]) == anchors[i]
    {
      ParseToHex(anchors[i]);
    }
  }

  lemma SpellsJoin(h1: seq<string>, a1: seq<Color>, h2: seq<string>, a2: seq<Color>)
    requires Spells(h1, a1) && Spells(h2, a2)
    ensures Spells(h1 + h2, a1 + a2)
  {
    assert forall i :: |h1| <= i < |h1 + h2| ==> (h1 + h2)[i] == h2[i - |h1|] && (a1 + a2)[i] == a2[i - |a1|];
  }

  // Each palette is checked against its anchors a few colours at a time.
  lemma TopSpelledHead() ensures Spells(TopHexes[..3], TopAnchors[..3]) { }
  lemma TopSpelledMiddle() ensures Spells(TopHexes[3..6], TopAnchors[3..6]) { }
  lemma TopSpelledTail() ensures Spells(TopHexes[6..], TopAnchors[6..]) { }
  lemma RightSpelledHead() ensures Spells(RightHexes[..3], RightAnchors[..3]) { }
  lemma RightSpelledTail() ensures Spells(RightHexes[3..], RightAnchors[3..]) { }
  lemma BottomSpelledHead() ensures Spells(BottomHexes[..3], BottomAnchors[..3]) { }
  lemma BottomSpelledTail() ensures Spells(BottomHexes[3..], BottomAnchors[3..]) { }
  lemma LeftSpelled() ensures Spells(LeftHexes, LeftAnchors) { }

  lemma TopSpelled()
    ensures Spells(TopHexes, TopAnchors)
  {
    TopSpelledHead();
    TopSpelledMiddle();
    TopSpelledTail();
    SpellsJoin(TopHexes[..3], TopAnchors[..3], TopHexes[3..6], TopAnchors[3..6]);
    SpellsJoin(TopHexes[..3] + TopHexes[3..6], TopAnchors[..3] + TopAnchors[3..6], TopHexes[6..], TopAnchors[6..]);
    assert TopHexes[..3] + TopHexes[3..6] + TopHexes[6..] == TopHexes;
    assert TopAnchors[..3] + TopAnchors[3..6] + TopAnchors[6..] == TopAnchors;
  }

  lemma RightSpelled()
    ensures Spells(RightHexes, RightAnchors)
  {
    RightSpelledHead();
    RightSpelledTail();
    SpellsJoin(RightHexes[..3], RightAnchors[..3], RightHexes[3..], RightAnchors[3..]);
    assert RightHexes[..3] + RightHexes[3..] == RightHexes;
    assert RightAnchors[..3] + RightAnchors[3..] == RightAnchors;
  }

  lemma BottomSpelled()
    ensures Spells(BottomHexes, BottomAnchors)
  {
    BottomSpelledHead();
    BottomSpelledTail();
    SpellsJoin(BottomHexes[..3], BottomAnchors[..3], BottomHexes[3..], BottomAnchors[3..]);
    assert BottomHexes[..3] + BottomHexes[3..] == BottomHexes;
    assert BottomAnchors[..3] + BottomAnchors[3..] == BottomAnchors;
  }

  lemma TopParses()
    ensures AllParse(TopHexes) && ParseAll(TopHexes) == TopAnchors
  {
    TopSpelled();
    SpelledParses(TopHexes, TopAnchors);
  }

  lemma RightParses()
    ensures AllParse(RightHexes) && ParseAll(RightHexes) == RightAnchors
  {
    RightSpelled();
    SpelledParses(RightHexes, RightAnchors);
  }

  lemma BottomParses()
    ensures AllParse(BottomHexes) && ParseAll(BottomHexes) == BottomAnchors
  {
    BottomSpelled();
    SpelledParses(BottomHexes, BottomAnchors);
  }

  lemma LeftParses()
    ensures AllParse(LeftHexes) && ParseAll(LeftHexes) == LeftAnchors
  {
    LeftSpelled();
    SpelledParses(LeftHexes, LeftAnchors);
  }


  // ---------------------------------------------------------------------
  // Painted cells

  const BorderChar: string := "\U{2501}"
  const VerticalChar: string := "\U{2503}"
  const TopLeft: string := "\U{250F}"
  const TopRight: string := "\U{2513}"
  const BottomLeft: string := "\U{2517}"
  const BottomRight: string := "\U{251B}"

  /** `chalk.rgb(c)(glyph)` as pieces. */
  function Cell(c: Color, glyph: string): (ps: seq<Piece>)
    ensures Visible(ps) == glyph
    ensures InRange(c) && ESC !in glyph ==> WellFormed(ps)
  {
    Rgb(c, Content.Plain(glyph))
  }

  /** A colouring function: the source's gradients hold one per cell. */
  type Painter = (Color, string) -> seq<Piece>

  /** The painter the card uses, `chalk.rgb`. */
  const RgbCell: Painter := (c: Color, glyph: string) => Cell(c, glyph)

  /** A painter that adds no visible text and keeps plain glyphs well formed. */
  ghost predicate Honest(cell: Painter)
  {
    forall c: Color, glyph: string ::
      Visible(cell(c, glyph)) == glyph && (InRange(c) && ESC !in glyph ==> WellFormed(cell(c, glyph)))
  }

  lemma RgbCellHonest()
    ensures Honest(RgbCell)
  {
    forall c: Color, glyph: string
      ensures Visible(RgbCell(c, glyph)) == glyph && (InRange(c) && ESC !in glyph ==> WellFormed(RgbCell(c, glyph)))
    {
      assert RgbCell(c, glyph) == Cell(c, glyph);
    }
  }

  /** One painted cell, as the string the colouring function returns. */
  function Paint(cell: Painter, c: Color, glyph: string): string
  {
    Render(cell(c, glyph))
  }

  /** The glyph painted once per gradient entry, in order. */
  function Paints(cell: Painter, g: seq<Color>, glyph: string): (parts: seq<string>)
    ensures |parts| == |g|
  {
    if g == [] then [] else Paints(cell, g[..|g| - 1], glyph) + [Paint(cell, g[|g| - 1], glyph)]
  }

  /** `parts.join("")`. */
  function Concat(parts: seq<string>): string
  {
    if parts == [] then [] else Concat(parts[..|parts| - 1]) + parts[|parts| - 1]
  }

  /** `rows.join("\n")`. */
  function JoinLines(rows: seq<string>): string
  {
    if |rows| <= 1 then Concat(rows)
    else JoinLines(rows[..|rows| - 1]) + "\n" + rows[|rows| - 1]
  }

  /** `n` copies of a glyph. */
  function Copies(glyph: string, n: nat): (s: string)
    ensures |s| == n * |glyph|
  {
    if n == 0 then [] else Copies(glyph, n - 1) + glyph
  }

  /** The pieces of a painted run. */
  function Run(cell: Painter, g: seq<Color>, glyph: string): seq<Piece>
  {
    if g == [] then [] else Run(cell, g[..|g| - 1], glyph) + cell(g[|g| - 1], glyph)
  }

  /** `g[k] || g.at(-1) || g[0]`: the entry at `k`, else the last one. */
  function Pick(g: seq<Color>, k: nat): (c: Color)
    requires |g| > 0
    ensures c in g
    ensures k < |g| ==> c == g[k]
    ensures k >= |g| ==> c == g[|g| - 1]
  {
    if k < |g| then g[k] else g[|g| - 1]
  }

  function Min(a: int, b: int): int { if a <= b then a else b }
  function Max(a: int, b: int): int { if a >= b then a else b }

  // ---------------------------------------------------------------------
  // Where the edges meet

  /** The top-right corner takes the first colour of the right edge, which
      is the pink the top edge ends on once it has two cells per anchor
      step. */
  lemma TopRightCornerMeets(width: nat, height: nat)
    requires width >= 16
    ensures TopGradient(width)[0] == Color(3, 255, 255)
    ensures TopGradient(width)[width - 1] == RightGradient(height)[0] == Color(255, 0, 150)
  {
    GradientFirst(TopAnchors, width);
    GradientLast(TopAnchors, width);
    GradientFirst(RightAnchors, height + 2);
  }

  /** The bottom-right corner takes the last colour of the right edge, the
      yellow the bottom edge also ends on, once both are long enough. */
  lemma BottomRightCornerMeets(width: nat, height: nat)
    requires width >= 8 && height >= 8
    ensures RightGradient(height)[height + 1] == BottomGradient(width)[width - 1] == Color(255, 255, 0)
  {
    GradientLast(RightAnchors, height + 2);
    GradientLast(BottomAnchors, width);
  }

  /** The left edge runs against its corners: its first entry is the
      bottom-left corner's colour and its last the top-left corner's, and
      the two differ. */
  lemma LeftEdgeReversed(width: nat, height: nat)
    requires width >= 1
    ensures LeftGradient(height)[0] == BottomGradient(width)[0] == Color(3, 255, 200)
    ensures LeftGradient(height)[height + 1] == TopGradient(width)[0] == Color(3, 255, 255)
  {
    GradientFirst(LeftAnchors, height + 2);
    GradientLast(LeftAnchors, height + 2);
    GradientFirst(BottomAnchors, width);
    GradientFirst(TopAnchors, width);
  }

  // ---------------------------------------------------------------------
  // The rows of the frame

  /** `${topLeftCorner}${topBorder}${topRightCorner}`. */
  function TopRow(cell: Painter, top: seq<Color>, right: seq<Color>): string
    requires |top| > 0 && |right| > 0
  {
    Paint(cell, top[0], TopLeft) + Concat(Paints(cell, top, BorderChar)) + Paint(cell, right[0], TopRight)
  }

  /** `${bottomLeftCorner}${bottomBorder}${bottomRightCorner}`; the right
      corner takes entry `min(height + 1, right.length - 1)`. */
  function BottomRow(cell: Painter, bottom: seq<Color>, right: seq<Color>, height: nat): string
    requires |bottom| > 0 && |right| > 0
  {
    Paint(cell, bottom[0], BottomLeft) + Concat(Paints(cell, bottom, BorderChar))
    + Paint(cell, right[Min(height + 1, |right| - 1)], BottomRight)
  }

  /** Columns of padding added after a line narrower than the inner width. */
  function ExtraPadding(line: string, width: int, lp: nat, rp: nat): nat
  {
    Max(0, width - lp - rp - |Stripped(line)|)
  }

  /** Content line `k` between its left and right border cells. */
  function ContentRow(cell: Painter, line: string, k: nat, left: seq<Color>, right: seq<Color>,
                      width: int, lp: nat, rp: nat): string
    requires |left| > 0 && |right| > 0
  {
    Paint(cell, Pick(left, k + 1), VerticalChar) + Content.Spaces(lp) + line
    + Content.Spaces(rp + ExtraPadding(line, width, lp, rp)) + Paint(cell, Pick(right, k + 1), VerticalChar)
  }

  /** The first `n` lines, each passed through `row` with its index. */
  function RowsOf(content: seq<string>, n: nat, row: (string, nat) -> string): (rows: seq<string>)
    requires n <= |content|
    ensures |rows| == n
  {
    if n == 0 then [] else RowsOf(content, n - 1, row) + [row(content[n - 1], n - 1)]
  }

  /** The `content.map` callback of a frame. */
  function Framer(cell: Painter, left: seq<Color>, right: seq<Color>, width: int, lp: nat, rp: nat)
    : (string, nat) -> string
    requires |left| > 0 && |right| > 0
  {
    (line: string, k: nat) => ContentRow(cell, line, k, left, right, width, lp, rp)
  }

  /** The four gradients of a frame `width` cells wide around `height` lines. */
  function TopGradient(width: nat): seq<Color> { GradientOf(TopAnchors, width) }
  function RightGradient(height: nat): seq<Color> { GradientOf(RightAnchors, height + 2) }
  function BottomGradient(width: nat): seq<Color> { GradientOf(BottomAnchors, width) }
  function LeftGradient(height: nat): seq<Color> { GradientOf(LeftAnchors, height + 2) }

  /** The fallbacks behind the side borders never act: both side gradients
      have `height + 2` entries, so the bottom-right clamp picks the last
      entry and every content row `k` finds entry `k + 1`. */
  lemma FallbacksInactive(height: nat, k: nat)
    requires k < height
    ensures Min(height + 1, |RightGradient(height)| - 1) == height + 1
    ensures Pick(LeftGradient(height), k + 1) == LeftGradient(height)[k + 1]
    ensures Pick(RightGradient(height), k + 1) == RightGradient(height)[k + 1]
  { }

  /** Every row of a frame with the given painter and edge gradients: top,
      one per content line, bottom. */
  function Frame(cell: Painter, content: seq<string>, top: seq<Color>, right: seq<Color>, bottom: seq<Color>,
                 left: seq<Color>, width: int, lp: nat, rp: nat): (rows: seq<string>)
    requires |top| > 0 && |right| > 0 && |bottom| > 0 && |left| > 0
    ensures |rows| == |content| + 2
  {
    [TopRow(cell, top, right)] + RowsOf(content, |content|, Framer(cell, left, right, width, lp, rp))
    + [BottomRow(cell, bottom, right, |content|)]
  }

  /** The rows of the card's frame, `width` cells wide around the content. */
  function FrameRows(content: seq<string>, width: nat, lp: nat, rp: nat): (rows: seq<string>)
    requires width >= 1
    ensures |rows| == |content| + 2
  {
    var h := |content|;
    Frame(RgbCell, content, TopGradient(width), RightGradient(h), BottomGradient(width), LeftGradient(h), width, lp, rp)
  }

  // ---------------------------------------------------------------------
  // createRainbowBorder

  /** `createRainbowBorder(content, width, leftPadding, rightPadding)`. A
      width of 0 leaves the top gradient empty, and the source then calls
      an undefined colouring function; hence `width >= 1`. */
  method CreateRainbowBorder(content: seq<string>, width: nat, leftPadding: nat, rightPadding: nat)
    returns (card: string)
    requires width >= 1
    ensures card == JoinLines(FrameRows(content, width, leftPadding, rightPadding))
  {
    var height := |content|;
    TopParses();
    RightParses();
    BottomParses();
    LeftParses();
    var topGradient := GenerateGradient(TopHexes, width);
    var rightGradient := GenerateGradient(RightHexes, height + 2);
    var bottomGradient := GenerateGradient(BottomHexes, width);
    var leftGradient := GenerateGradient(LeftHexes, height + 2);

    var topBorderChars := PaintRun(topGradient, BorderChar);
    var topBorder := Concat(topBorderChars);
    var bottomBorderChars := PaintRun(bottomGradient, BorderChar);
    var bottomBorder := Concat(bottomBorderChars);

    var topLeftCorner := Paint(RgbCell, topGradient[0], TopLeft);
    var topRightCorner := Paint(RgbCell, rightGradient[0], TopRight);
    var bottomLeftCorner := Paint(RgbCell, bottomGradient[0], BottomLeft);
    var bottomRightCornerIndex := Min(height + 1, |rightGradient| - 1);
    var bottomRightCorner := Paint(RgbCell, rightGradient[bottomRightCornerIndex], BottomRight);

    var lines := FrameLines(content, leftGradient, rightGradient, width, leftPadding, rightPadding);
    card := JoinLines([topLeftCorner + topBorder + topRightCorner] + lines
                      + [bottomLeftCorner + bottomBorder + bottomRightCorner]);
  }

  /** The loop that paints one glyph per gradient entry. */
  method PaintRun(gradient: seq<Color>, glyph: string) returns (chars: seq<string>)
    ensures chars == Paints(RgbCell, gradient, glyph)
  {
    chars := [];
    for i := 0 to |gradient|
      invariant chars == Paints(RgbCell, gradient[..i], glyph)
    {
      assert gradient[..i + 1][..i] == gradient[..i];
      chars := chars + [Paint(RgbCell, gradient[i], glyph)];
    }
    assert gradient[..|gradient|] == gradient;
  }

  /** `content.map(...)`: every content line framed, in order. */
  method FrameLines(content: seq<string>, leftGradient: seq<Color>, rightGradient: seq<Color>,
                    width: int, leftPadding: nat, rightPadding: nat) returns (lines: seq<string>)
    requires |leftGradient| > 0 && |rightGradient| > 0
    ensures lines == RowsOf(content, |content|, Framer(RgbCell, leftGradient, rightGradient, width, leftPadding, rightPadding))
  {
    lines := [];
    for lineIndex := 0 to |content|
      invariant lines == RowsOf(content, lineIndex, Framer(RgbCell, leftGradient, rightGradient, width, leftPadding, rightPadding))
    {
      var row := FrameLine(content[lineIndex], lineIndex, leftGradient, rightGradient, width, leftPadding, rightPadding);
      lines := lines + [row];
    }
  }

  /** The `content.map` callback: pad a line to the inner width and frame it. */
  method FrameLine(line: string, lineIndex: nat, leftGradient: seq<Color>, rightGradient: seq<Color>,
                   width: int, leftPadding: nat, rightPadding: nat) returns (row: string)
    requires |leftGradient| > 0 && |rightGradient| > 0
    ensures row == ContentRow(RgbCell, line, lineIndex, leftGradient, rightGradient, width, leftPadding, rightPadding)
  {
    var cleanLine := StripAnsi(line);
    var contentMaxWidth := width - leftPadding - rightPadding;
    var currentContentWidth := |cleanLine|;
    var extraRightPadding := Max(0, contentMaxWidth - currentContentWidth);
    var rightPaddingStr := Content.Spaces(rightPadding + extraRightPadding);
    var leftBorder := Paint(RgbCell, Pick(leftGradient, lineIndex + 1), VerticalChar);
    var rightBorder := Paint(RgbCell, Pick(rightGradient, lineIndex + 1), VerticalChar);
    row := leftBorder + Content.Spaces(leftPadding) + line + rightPaddingStr + rightBorder;
  }

  // ---------------------------------------------------------------------
  // What the frame shows

  lemma PlainRender(t: string)
    ensures Render(Content.Plain(t)) == t
  {
    assert Content.Plain(t)[1..] == [];
  }

  /** A painted run renders to the joined cells and shows the glyph once per
      entry. */
  lemma {:induction false} RunShown(cell: Painter, g: seq<Color>, glyph: string)
    requires Honest(cell)
    ensures Concat(Paints(cell, g, glyph)) == Render(Run(cell, g, glyph))
    ensures Visible(Run(cell, g, glyph)) == Copies(glyph, |g|)
    ensures AllInRange(g) && ESC !in glyph ==> WellFormed(Run(cell, g, glyph))
  {
    if g != [] {
      var init, c := g[..|g| - 1], g[|g| - 1];
      RunShown(cell, init, glyph);
      RenderAppend(Run(cell, init, glyph), cell(c, glyph));
      VisibleAppend(Run(cell, init, glyph), cell(c, glyph));
      if AllInRange(g) && ESC !in glyph {
        assert AllInRange(init) && InRange(c);
        WellFormedAppend(Run(cell, init, glyph), cell(c, glyph));
      }
    }
  }

  /** A glyph run between two corner cells shows as the two corners with the
      run between them. */
  lemma EdgeShown(cell: Painter, c1: Color, corner1: string, g: seq<Color>, c2: Color, corner2: string)
    requires Honest(cell)
    requires InRange(c1) && InRange(c2) && AllInRange(g)
    requires ESC !in corner1 && ESC !in corner2 && ESC !in BorderChar
    ensures Stripped(Paint(cell, c1, corner1) + Concat(Paints(cell, g, BorderChar)) + Paint(cell, c2, corner2))
         == corner1 + Copies(BorderChar, |g|) + corner2
  {
    var a, run, b := cell(c1, corner1), Run(cell, g, BorderChar), cell(c2, corner2);
    RunShown(cell, g, BorderChar);
    RenderAppend(a, run);
    RenderAppend(a + run, b);
    VisibleAppend(a, run);
    VisibleAppend(a + run, b);
    WellFormedAppend(a, run);
    WellFormedAppend(a + run, b);
    StrippedRender(a + run + b);
  }

  /** The top row shows `┏`, one `━` per column, `┓`. */
  lemma TopRowShown(cell: Painter, top: seq<Color>, right: seq<Color>)
    requires Honest(cell)
    requires |top| > 0 && |right| > 0 && AllInRange(top) && AllInRange(right)
    ensures Stripped(TopRow(cell, top, right)) == TopLeft + Copies(BorderChar, |top|) + TopRight
  {
    EdgeShown(cell, top[0], TopLeft, top, right[0], TopRight);
  }

  /** The bottom row shows `┗`, one `━` per column, `┛`. */
  lemma BottomRowShown(cell: Painter, bottom: seq<Color>, right: seq<Color>, height: nat)
    requires Honest(cell)
    requires |bottom| > 0 && |right| > 0 && AllInRange(bottom) && AllInRange(right)
    ensures Stripped(BottomRow(cell, bottom, right, height)) == BottomLeft + Copies(BorderChar, |bottom|) + BottomRight
  {
    EdgeShown(cell, bottom[0], BottomLeft, bottom, right[Min(height + 1, |right| - 1)], BottomRight);
  }

  /** A line showing `v`, framed by bars and padded to the inner width. */
  function ShownLine(v: string, width: int, lp: nat, rp: nat): string
  {
    VerticalChar + Content.Spaces(lp) + v + Content.Spaces(rp + Max(0, width - lp - rp - |v|)) + VerticalChar
  }

  /** Rendering, showing and well-formedness all split at a join. */
  lemma Joined(x: seq<Piece>, y: seq<Piece>)
    requires WellFormed(x) && WellFormed(y)
    ensures Render(x + y) == Render(x) + Render(y)
    ensures Visible(x + y) == Visible(x) + Visible(y)
    ensures WellFormed(x + y)
  {
    RenderAppend(x, y);
    VisibleAppend(x, y);
    WellFormedAppend(x, y);
  }

  /** Five well-formed piece lists render and show part by part. */
  lemma JoinedFive(a: seq<Piece>, b: seq<Piece>, c: seq<Piece>, d: seq<Piece>, e: seq<Piece>)
    requires WellFormed(a) && WellFormed(b) && WellFormed(c) && WellFormed(d) && WellFormed(e)
    ensures Render(a + b + c + d + e) == Render(a) + Render(b) + Render(c) + Render(d) + Render(e)
    ensures Visible(a + b + c + d + e) == Visible(a) + Visible(b) + Visible(c) + Visible(d) + Visible(e)
    ensures WellFormed(a + b + c + d + e)
  {
    Joined(a, b);
    Joined(a + b, c);
    Joined(a + b + c, d);
    Joined(a + b + c + d, e);
  }

  /** Five well-formed piece lists rendered one after another strip down
      to their five texts. */
  lemma FiveShown(a: seq<Piece>, b: seq<Piece>, c: seq<Piece>, d: seq<Piece>, e: seq<Piece>)
    requires WellFormed(a) && WellFormed(b) && WellFormed(c) && WellFormed(d) && WellFormed(e)
    ensures Stripped(Render(a) + Render(b) + Render(c) + Render(d) + Render(e))
         == Visible(a) + Visible(b) + Visible(c) + Visible(d) + Visible(e)
  {
    JoinedFive(a, b, c, d, e);
    StrippedRender(a + b + c + d + e);
  }

  /** A framed line shows a bar, the left padding, the line's own text, the
      right padding widened to the inner width, and a bar. */
  lemma ContentRowShown(cell: Painter, ps: seq<Piece>, k: nat, left: seq<Color>, right: seq<Color>,
                        width: int, lp: nat, rp: nat)
    requires Honest(cell) && WellFormed(ps)
    requires |left| > 0 && |right| > 0 && AllInRange(left) && AllInRange(right)
    ensures Stripped(ContentRow(cell, Render(ps), k, left, right, width, lp, rp)) == ShownLine(Visible(ps), width, lp, rp)
  {
    StrippedRender(ps);
    var pad1 := Content.Spaces(lp);
    var pad2 := Content.Spaces(rp + ExtraPadding(Render(ps), width, lp, rp));
    var a, d := cell(Pick(left, k + 1), VerticalChar), cell(Pick(right, k + 1), VerticalChar);
    var b, c := Content.Plain(pad1), Content.Plain(pad2);
    assert ESC !in pad1 && ESC !in pad2;
    PlainRender(pad1);
    PlainRender(pad2);
    FiveShown(a, b, ps, c, d);
  }

  /** Every gradient of the frame stays within 0..255. */
  lemma FrameInRange(width: nat, height: nat)
    ensures AllInRange(TopGradient(width)) && AllInRange(BottomGradient(width))
    ensures AllInRange(RightGradient(height)) && AllInRange(LeftGradient(height))
  {
    assert AllInRange(TopAnchors) && AllInRange(RightAnchors);
    assert AllInRange(BottomAnchors) && AllInRange(LeftAnchors);
    GradientInRange(TopAnchors, width);
    GradientInRange(BottomAnchors, width);
    GradientInRange(RightAnchors, height + 2);
    GradientInRange(LeftAnchors, height + 2);
  }

  lemma {:induction false} RowsOfAt(content: seq<string>, n: nat, row: (string, nat) -> string, k: nat)
    requires k < n <= |content|
    ensures RowsOf(content, n, row)[k] == row(content[k], k)
  {
    if k < n - 1 {
      RowsOfAt(content, n - 1, row, k);
    }
  }

  /** The edge gradients of a frame `width` cells wide, all in range. */
  predicate Edges(top: seq<Color>, right: seq<Color>, bottom: seq<Color>, left: seq<Color>, width: int)
  {
    |top| == width && |bottom| == width && |right| > 0 && |left| > 0 && width >= 1 &&
    AllInRange(top) && AllInRange(right) && AllInRange(bottom) && AllInRange(left)
  }

  /** Row `k + 1` frames content line `k`. */
  lemma FrameMiddleAt(cell: Painter, content: seq<string>, top: seq<Color>, right: seq<Color>, bottom: seq<Color>,
                      left: seq<Color>, width: int, lp: nat, rp: nat, k: nat)
    requires |top| > 0 && |right| > 0 && |bottom| > 0 && |left| > 0 && k < |content|
    ensures Frame(cell, content, top, right, bottom, left, width, lp, rp)[k + 1]
         == ContentRow(cell, content[k], k, left, right, width, lp, rp)
  {
    RowsOfAt(content, |content|, Framer(cell, left, right, width, lp, rp), k);
  }

  /** What row `r` of a frame around `lines` shows once escapes are stripped:
      the top edge, a bar-framed line padded to the inner width, or the
      bottom edge. */
  function ShownRow(lines: seq<seq<Piece>>, r: nat, width: int, lp: nat, rp: nat): string
    requires r < |lines| + 2
  {
    if r == 0 then TopLeft + Copies(BorderChar, Max(width, 0)) + TopRight
    else if r == |lines| + 1 then BottomLeft + Copies(BorderChar, Max(width, 0)) + BottomRight
    else ShownLine(Visible(lines[r - 1]), width, lp, rp)
  }

  /** The top row of a frame shows its top edge. */
  lemma TopShown(cell: Painter, content: seq<string>, lines: seq<seq<Piece>>, top: seq<Color>, right: seq<Color>,
                 bottom: seq<Color>, left: seq<Color>, width: int, lp: nat, rp: nat, r: nat)
    requires Honest(cell) && Edges(top, right, bottom, left, width) && r == 0
    ensures Stripped(Frame(cell, content, top, right, bottom, left, width, lp, rp)[r]) == ShownRow(lines, r, width, lp, rp)
  {
    TopRowShown(cell, top, right);
  }

  /** The last row of a frame shows its bottom edge. */
  lemma BottomShown(cell: Painter, content: seq<string>, lines: seq<seq<Piece>>, top: seq<Color>, right: seq<Color>,
                    bottom: seq<Color>, left: seq<Color>, width: int, lp: nat, rp: nat, r: nat)
    requires Honest(cell) && Edges(top, right, bottom, left, width) && |lines| == |content| && r == |content| + 1
    ensures Stripped(Frame(cell, content, top, right, bottom, left, width, lp, rp)[r]) == ShownRow(lines, r, width, lp, rp)
  {
    BottomRowShown(cell, bottom, right, |content|);
  }

  /** Row `r` between the edges shows content line `r - 1` padded between
      bars. */
  lemma MiddleShown(cell: Painter, content: seq<string>, lines: seq<seq<Piece>>, top: seq<Color>, right: seq<Color>,
                    bottom: seq<Color>, left: seq<Color>, width: int, lp: nat, rp: nat, r: nat)
    requires Honest(cell) && Edges(top, right, bottom, left, width) && |lines| == |content| && 0 < r <= |content|
    requires content[r - 1] == Render(lines[r - 1]) && WellFormed(lines[r - 1])
    ensures Stripped(Frame(cell, content, top, right, bottom, left, width, lp, rp)[r]) == ShownRow(lines, r, width, lp, rp)
  {
    var ps := lines[r - 1];
    var row := Frame(cell, content, top, right, bottom, left, width, lp, rp)[r];
    FrameMiddleAt(cell, content, top, right, bottom, left, width, lp, rp, r - 1);
    assert row == ContentRow(cell, Render(ps), r - 1, left, right, width, lp, rp);
    ContentRowShown(cell, ps, r - 1, left, right, width, lp, rp);
    assert Stripped(row) == ShownLine(Visible(ps), width, lp, rp);
  }

  /** Row by row, a frame shows its edges and its lines padded between bars. */
  lemma RowShown(cell: Painter, content: seq<string>, lines: seq<seq<Piece>>, top: seq<Color>, right: seq<Color>,
                 bottom: seq<Color>, left: seq<Color>, width: int, lp: nat, rp: nat, r: nat)
    requires Honest(cell) && Edges(top, right, bottom, left, width) && |lines| == |content| && r < |content| + 2
    requires forall k :: 0 <= k < |lines| ==> content[k] == Render(lines[k]) && WellFormed(lines[k])
    ensures Stripped(Frame(cell, content, top, right, bottom, left, width, lp, rp)[r]) == ShownRow(lines, r, width, lp, rp)
  {
    if r == 0 {
      TopShown(cell, content, lines, top, right, bottom, left, width, lp, rp, r);
    } else if r == |content| + 1 {
      BottomShown(cell, content, lines, top, right, bottom, left, width, lp, rp, r);
    } else {
      MiddleShown(cell, content, lines, top, right, bottom, left, width, lp, rp, r);
    }
  }

  /** The visible width of a framed line. */
  lemma ShownWidth(v: string, width: int, lp: nat, rp: nat)
    ensures |ShownLine(v, width, lp, rp)| == 2 + lp + rp + Max(width - lp - rp, |v|)
  {
  }

  /** Every shown row is `width + 2` characters when the lines fit. */
  lemma ShownRowWidth(lines: seq<seq<Piece>>, r: nat, width: int, lp: nat, rp: nat)
    requires width >= 1 && r < |lines| + 2
    requires 0 < r <= |lines| ==> |Visible(lines[r - 1])| <= width - lp - rp
    ensures |ShownRow(lines, r, width, lp, rp)| == width + 2
  {
    if 0 < r <= |lines| {
      ShownWidth(Visible(lines[r - 1]), width, lp, rp);
    }
  }

  /** Every gradient of the card's frame stays within 0..255 and spans it. */
  lemma CardEdges(width: nat, height: nat)
    requires width >= 1
    ensures Edges(TopGradient(width), RightGradient(height), BottomGradient(width), LeftGradient(height), width)
  {
    FrameInRange(width, height);
  }

  /** Row by row, the card's frame shows its edges and its lines padded
      between bars. */
  lemma FrameShown(content: seq<string>, lines: seq<seq<Piece>>, width: nat, lp: nat, rp: nat)
    requires width >= 1 && |lines| == |content|
    requires forall k :: 0 <= k < |lines| ==> content[k] == Render(lines[k]) && WellFormed(lines[k])
    ensures var rows := FrameRows(content, width, lp, rp);
      forall r :: 0 <= r < |rows| ==> Stripped(rows[r]) == ShownRow(lines, r, width, lp, rp)
  {
    var h := |content|;
    var top, right, bottom, left := TopGradient(width), RightGradient(h), BottomGradient(width), LeftGradient(h);
    CardEdges(width, h);
    RgbCellHonest();
    forall r | 0 <= r < h + 2
      ensures Stripped(Frame(RgbCell, content, top, right, bottom, left, width, lp, rp)[r]) == ShownRow(lines, r, width, lp, rp)
    {
      RowShown(RgbCell, content, lines, top, right, bottom, left, width, lp, rp, r);
    }
  }

  /** When every line is the rendering of well-formed pieces that fit the
      inner width, every row of the frame shows exactly `width + 2`
      characters: the frame is a rectangle. */
  lemma FrameAligned(content: seq<string>, lines: seq<seq<Piece>>, width: nat, lp: nat, rp: nat)
    requires width >= 1 && |lines| == |content|
    requires forall k :: 0 <= k < |lines| ==>
      content[k] == Render(lines[k]) && WellFormed(lines[k]) && |Visible(lines[k])| <= width - lp - rp
    ensures var rows := FrameRows(content, width, lp, rp);
      forall r :: 0 <= r < |rows| ==> |Stripped(rows[r])| == width + 2
  {
    FrameShown(content, lines, width, lp, rp);
    forall r | 0 <= r < |content| + 2
      ensures |ShownRow(lines, r, width, lp, rp)| == width + 2
    {
      ShownRowWidth(lines, r, width, lp, rp);
    }
  }
}
