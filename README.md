# termbio card renderer, modelled in Dafny

termbio prints a business card in the terminal. The person's greeting,
name and title are followed by their links. Links are grouped under
section headers. Each link is a label padded to a common column, then an
OSC 8 hyperlink. The whole card sits inside a rainbow frame. Every frame
cell is a box-drawing glyph painted with `chalk.rgb`. Its colour comes
from a gradient spread across that edge of the card.

This project models the rendering pipeline of `src/index.ts`. It has one
Dafny module per stage:

- `Colors` (colors.dfy) models `parseHexColor` and `interpolateColor`.
  - Colours are integer triples.
  - A short `#abc` code is read as `#aabbcc`.
  - Interpolation rounds exactly. Halves round up, as `Math.round` does.
- `Gradient` (gradient.dfy) models `generateGradientFromColors`.
  - `steps` is split across the anchor pairs. The remainder goes to the
    earliest segments.
  - The result is padded with the last anchor and cut to exactly `steps`.
  - The method keeps the source's loops. It is proved equal to the
    function `GradientOf`, and the properties are proved about that
    function.
- `Ansi` (ansi.dfy) models `stripAnsi`.
  - It removes three escape shapes until nothing changes: the OSC 8
    hyperlink opener `ESC ]8;;url ESC \`, the hyperlink closer, and
    control sequences `ESC [ digits-or-semicolons letter` (section 5.4 of
    ECMA-48; the style sequences are SGR, section 8.3.117).
  - Each global regex replacement is a left-to-right scan.
  - Strings that carry escapes are built as lists of pieces: text, SGR
    sequence, hyperlink opener. The central lemma is that stripping a
    rendered well-formed piece list leaves exactly its text.
- `Chalk` (chalk.dfy) is the part of the chalk library the card relies on.
  - Each style wraps its argument between an opening SGR sequence and a
    closing one.
  - `rgb` opens with `38;2;r;g;b`.
- `Content` (content.dfy) models `getFinalUrl`, `formatLink`,
  `calculateMaxLabelWidth` and `buildContent`.
  - The content lines are described by a layout: six prelude lines, a
    header whenever a link opens a new section (with a blank line before
    it if a section came before), one row per link, and a closing blank
    line.
- `Border` (border.dfy) models the palettes and `createRainbowBorder`.
  - The frame's rows are a function of a painter: the source's colouring
    closures.
  - The card is drawn with the painter that applies `chalk.rgb`.
- `Card` (card.dfy) models `main`'s width arithmetic and call sequence:
  measure the widest stripped line, add the paddings 3 and 5, and frame
  the content.

The main results:

- the card is a rectangle: for link texts without escape characters,
  every row is `cardWidth + 2` characters wide once stripped
  (`Card.CardAligned`);
- it is no wider than it needs to be (`Card.CardTight`);
- every link row puts its display text at column `labelWidth + 2`
  (`Content.RowColumn`).

The left edge of the frame runs against its corners
(`Border.LeftEdgeReversed`):

- its gradient starts at the bottom-left corner's colour `#03FFC8` and
  ends at the top-left corner's colour `#03FFFF`;
- the top-left corner itself is `#03FFFF` and the bottom-left corner
  `#03FFC8`;
- so on the screen the left column changes colour abruptly at both
  corners.

This is stated as what the code does. Nothing in the source says which
direction was meant.

## Model

| member | source | states |
|---|---|---|
| Colors.ParseHexColor | src/index.ts:71-90 | Every channel lies in 0..255. A 3-digit code (after the first `#` is dropped) gives 17 times each digit. Fewer than 6 digits, other than 3, gives black `(0,0,0)`. |
| Colors.UpperCase | src/index.ts:72 | `toUpperCase` keeps the length and maps each character to its upper-case letter. |
| Colors.FirstHash | src/index.ts:72 | The index of the first `#`: that character is `#` and none before it is. |
| Colors.HashRemoved | src/index.ts:72 | `replace("#", "")` removes exactly the first `#`: the result is the text before it followed by the text after it. `Colors.RemoveFirstHash` itself returns a string without a `#` unchanged. |
| Colors.Expand | src/index.ts:74-80 | A 3-character code becomes 6 characters, each doubled in place: character `i` of the result is character `i / 2` of the code. Any other length is kept as it is. |
| Colors.HexValue | src/index.ts:83-85 | A hex digit reads as a value below 16. |
| Colors.ShortFormDoubles | src/index.ts:75-80 | `#abc` and `#aabbcc` both parse, to the same colour. |
| Colors.ShortForm | src/index.ts:72-86 | A 3-digit code parses to 17 times the value of each digit, in either letter case. |
| Colors.LongForm | src/index.ts:72-86 | A 6-digit code made of doubled digits parses to the same triple as the short form. |
| Colors.ParseToHex | src/index.ts:71-90 | Parsing inverts formatting: `ParseHexColor(ToHex(c)) == c` for every in-range colour, and the formatted code parses. |
| Colors.RoundDiv | src/index.ts:97-101 | The result is `num/den` rounded to the nearest integer, halves up: `2·den·q <= 2·num + den < 2·den·(q+1)`. |
| Colors.Lerp | src/index.ts:92-102 | One channel of `interpolateColor` at `t = j/m`. At `t = 0` it is the first channel, at `t = 1` the second, and in between it lies between the two. |
| Colors.Interpolate | src/index.ts:92-102 | The whole colour at `t = 0` is the first colour and at `t = 1` the second. Between two in-range colours the result stays in range. |
| Gradient.GenerateGradient | src/index.ts:104-152 | The loops (one-anchor fill, segment loop, padding loop, final slice) produce exactly `GradientOf(parsed anchors, steps)`. |
| Gradient.GradientOf | src/index.ts:104-152 | The gradient has exactly `steps` entries. |
| Gradient.ParseAll | src/index.ts:108 | `colorHexes.map(parseHexColor)`: entry `i` is `ParseHexColor(colorHexes[i])`, one colour per code, each with every channel in 0..255. |
| Gradient.ClampNumerator | src/index.ts:129-133 | The clamped numerator lies in `0..m`, and a `j` already in `0..m` is left alone. So `Math.min(Math.max(t, 0), 1)` never changes `t = j/(n-1)` for `j < n`. |
| Gradient.Segment | src/index.ts:127-140 | A segment of size `n` pushes `n` colours, or one colour (the start anchor) when `n` is 0. |
| Gradient.PushSegment | src/index.ts:127-140 | The inner loop, or the `else` branch for a size of 0, appends exactly `Segment(start, end, n)` to the gradient built so far. |
| Gradient.PadTo | src/index.ts:143-150 | The padding loop appends copies of the last anchor until there are `steps` entries: the result is `Padded(raw, last, steps)`, whose length is at least `steps`. |
| Gradient.SegmentSizesAddUp | src/index.ts:119-123 | The segment sizes `floor(steps/(k-1)) + (i < steps mod (k-1) ? 1 : 0)` add up to `steps`. |
| Gradient.SegmentSizesFrontLoaded | src/index.ts:119-123 | Sizes never grow along the segments, and any two differ by at most one: the remainder goes to the earliest segments. |
| Gradient.RawLength | src/index.ts:119-141 | Before padding, the gradient holds `max(steps, k-1)` entries, because a segment of size 0 still contributes its start anchor. So the padding loop at 143-150 never adds anything. |
| Gradient.SegmentEnds | src/index.ts:127-140 | A segment of size at least 2 starts at anchor `i` and ends at anchor `i+1`. A segment of size 0 or 1 is anchor `i` alone. |
| Gradient.SegmentBetween | src/index.ts:128-136 | Every interpolated channel lies between the two anchor channels. |
| Gradient.GradientInRange | src/index.ts:104-152 | With in-range anchors, every gradient entry is in range. |
| Gradient.SegmentPlacement | src/index.ts:122-141 | Entry `j` of segment `i` sits at the offset given by the sizes of the earlier segments. |
| Gradient.SingleAnchor | src/index.ts:111-117 | With one anchor, every entry is that anchor. |
| Gradient.GradientFirst | src/index.ts:104-152 | The first entry is the first anchor. |
| Gradient.GradientLast | src/index.ts:104-152 | Once every segment holds at least two entries, the last entry is the last anchor. |
| Gradient.WhiteToBlack | src/index.ts:92-152 | Worked example: white to black in three steps gives white, `(128,128,128)`, black. The middle value shows halves rounding up. |
| Ansi.StripAnsi | src/index.ts:154-177 | The `while (changed)` loop returns `Stripped(str)`, the fixed point of the three replacements. It terminates because each round that changes the string shortens it. |
| Ansi.EscIndex | src/index.ts:162 | The `[^ESC]*` run ends at the first ESC of the string, or at its end when it has none. |
| Ansi.ParamRun | src/index.ts:170 | The `[0-9;]*` run is the longest prefix of digits and semicolons. |
| Ansi.OpenMatchLen | src/index.ts:161-164 | A prefix of `s` of length `m` matches `ESC ]8;; [^ESC]* ESC \` (`Ansi.OpenAt`) exactly when the result is positive and equal to `m`. So 0 means that no match starts at the first character, and a match is at least two characters long and starts with ESC. |
| Ansi.CloseMatchLen | src/index.ts:165-168 | A prefix of `s` of length `m` matches `ESC ]8;; ESC \` (`Ansi.CloseAt`) exactly when the result is positive and equal to `m`. So 0 means that no match starts at the first character, and a match is at least two characters long and starts with ESC. |
| Ansi.StyleMatchLen | src/index.ts:169-172 | A prefix of `s` of length `m` matches `ESC [ [0-9;]* [a-zA-Z]` (`Ansi.StyleAt`) exactly when the result is positive and equal to `m`. So 0 means that no match starts at the first character, and a match is at least two characters long and starts with ESC. |
| Ansi.OpenAtExactly | src/index.ts:161-164 | The `[^ESC]*` run of an opener match must end at the first ESC after `ESC ]8;;`, so the only possible match ends two characters later, and only if a backslash follows that ESC. |
| Ansi.StyleAtExactly | src/index.ts:169-172 | No letter is a digit or `;`, so the only possible control-sequence match ends just after the longest `[0-9;]*` run, and only if a letter follows it. |
| Ansi.MatchLen | src/index.ts:161-172 | For each of the three patterns, the result is the length of the one match that starts at the first character, or 0 when no prefix matches (`Ansi.MatchesAt`). |
| Ansi.Remove | src/index.ts:161-172 | A global `replace(pattern, "")` never makes the string longer. |
| Ansi.Round | src/index.ts:159-174 | One pass of the loop body (the three replacements) never makes the string longer. |
| Ansi.RoundChangesOnlyByShortening | src/index.ts:159-174 | One round of the three replacements either changes nothing or makes the string strictly shorter. |
| Ansi.StrippedFixed | src/index.ts:154-177 | The result is never longer than the input, and another round leaves it unchanged. |
| Ansi.StrippedIdempotent | src/index.ts:154-177 | `stripAnsi(stripAnsi(s)) == stripAnsi(s)`. |
| Ansi.StrippedEscFree | src/index.ts:154-177 | A string without an ESC character comes back unchanged. |
| Ansi.RemoveRender | src/index.ts:161-172 | One global replacement removes exactly the pieces of its shape from a rendered well-formed piece list. |
| Ansi.StrippedRender | src/index.ts:154-177 | Stripping a rendered well-formed piece list leaves exactly its visible text. |
| Chalk.Rgb | src/index.ts:114 | `chalk.rgb(r,g,b)(text)` shows the same text. With an in-range colour and well-formed text, the result is well formed. |
| Chalk.Wrap | src/index.ts:264-265 | A chalk style keeps the visible text and keeps well-formedness. |
| Content.GetFinalUrl | src/index.ts:287-298 | The result is the link's own URL, or the X or Bluesky profile of the `@handle`. It carries no ESC character when the inputs carry none. |
| Content.FinalUrlCases | src/index.ts:287-298 | The URL is rewritten only for a handle whose label is `x` or `bluesky` in any case. For `x` it becomes `https://x.com/` followed by the handle. |
| Content.Lower | src/index.ts:290-292 | `toLowerCase` keeps the length and maps each character to its lower-case letter. |
| Content.Spaces | src/index.ts:268 | `" ".repeat(Math.max(0, n))`: `max(0, n)` spaces and nothing else. |
| Content.XHandleExample | src/index.ts:288-293 | Label `X` with display text `@abc` gives `https://x.com/abc`. |
| Content.BlueskyHandleExample | src/index.ts:288-295 | Label `Bluesky` with display text `@xyz` gives `https://bsky.app/profile/xyz`. |
| Content.UrlKeptExample | src/index.ts:297 | Any other link keeps its URL. |
| Content.LabelPart | src/index.ts:265 | The label part shows `emoji + " " + label`. |
| Content.Clickable | src/index.ts:262-264 | The hyperlink opens with `ESC ]8;;url ESC \` for the given `url` and ends with the empty closer. In between are no hyperlink sequences, and exactly the display text shows. |
| Content.FormatLinkShown | src/index.ts:255-273 | For fields without ESC, `stripAnsi(formatLink(...))` is the label part, then the padding and two spaces (or one space without a column), then the display text. |
| Content.LinkTarget | src/index.ts:255-273 | A formatted link holds exactly one hyperlink opener, to `url`. Nothing before it is a hyperlink, it wraps exactly the display text, and the closer ends the row. |
| Content.RowLinksTo | src/index.ts:321-330 | Every link row of the content is a hyperlink to `getFinalUrl(link)` around exactly the link's display text. |
| Content.LabelColumn | src/index.ts:266-270 | With a column at least as wide as the label part: the display text starts at column `labelWidth + 2`, the label comes first, and blanks fill the space between. |
| Content.CalculateMaxLabelWidth | src/index.ts:275-285 | The running-maximum loop returns `MaxLabelWidth(links)`. |
| Content.MaxOf | src/index.ts:275-285 | The maximum is at least every width, and equals one of them or 0. So no links gives 0. |
| Content.PlainLabelWidth | src/index.ts:278-279 | Without escapes, a label part's stripped length is `emoji.length + 1 + label.length`. |
| Content.LabelWidth | src/index.ts:278-279 | The stripped width of `${emoji} ${label}` is never more than `emoji.length + 1 + label.length`. Content.PlainLabelWidth gives equality for text without escapes. |
| Content.LabelWidths | src/index.ts:277-279 | One stripped label width per link, in order. |
| Content.BuildContent | src/index.ts:300-335 | The pushes and the tracked `currentSection` produce exactly the rendered layout: six prelude lines, the link lines, and a closing blank. |
| Content.PushPrelude | src/index.ts:303-310 | The six pushes before the link loop produce exactly the rendered prelude layout. |
| Content.PreludeLine | src/index.ts:303-309 | Each prelude line renders as the source pushes it: `""`, `chalk.green("👋")`, ``chalk.green(`I'm ${chalk.bold(name)}`)``, `chalk.green(title)`. |
| Content.PushLink | src/index.ts:312-331 | One pass of the link loop appends an optional blank and header, then the link's row, and updates the tracked section. |
| Content.OpenSection | src/index.ts:313-319 | A link opens a section exactly when its title is non-empty and differs from the tracked one. A blank goes first only when a section is already open. |
| Content.PreludeLines | src/index.ts:303-310 | The six fixed lines: blank, greeting, blank, name line, title line, blank. |
| Content.RowsInOrder | src/index.ts:312-331 | The link rows are exactly the links, in input order. |
| Content.Sections | src/index.ts:312-320 | Headers are non-empty titles, and no two consecutive headers repeat a title. The tracked section is the last header. There is one blank per header after the first. |
| Content.HeadersNonEmpty | src/index.ts:313-317 | Every header is a non-empty title. |
| Content.HeadersChange | src/index.ts:313-318 | No two neighbouring headers carry the same title. |
| Content.HeadersTracked | src/index.ts:311-319 | The tracked `currentSection` is the last header emitted, or `null` before the first. |
| Content.BlanksBetween | src/index.ts:313-316 | There is exactly one blank line per header after the first. |
| Content.LinesStep | src/index.ts:312-331 | One loop pass adds the link's row, adds a header exactly when the link opens a section, and adds a blank exactly when it opens one while another is open. |
| Content.NoTitles | src/index.ts:312-331 | Links without titles give one row each and no headers. |
| Content.RowColumn | src/index.ts:266-285 | Every safe link row, rendered in the widest label's column, shows its label first and its display text at column `maxLabelWidth + 2`. |
| Border.TopParses | src/index.ts:54-69 | The top palette parses to its nine anchors. |
| Border.RightParses | src/index.ts:54-69 | The right palette parses to its six anchors. |
| Border.BottomParses | src/index.ts:54-69 | The bottom palette parses to its five anchors. |
| Border.LeftParses | src/index.ts:54-69 | The left palette parses to its two anchors. |
| Border.CreateRainbowBorder | src/index.ts:179-253 | The card is the newline-joined `FrameRows(content, width, …)`: top row, one framed row per content line, bottom row, so `content.length + 2` rows. |
| Border.PaintRun | src/index.ts:200-212 | The border loop paints the glyph once per gradient entry, in order. |
| Border.FrameLines | src/index.ts:221-246 | The `content.map` frames every line in order with its index. |
| Border.FrameLine | src/index.ts:221-246 | One framed line: a left bar from `leftGradient[i+1]`, the padding, the line, the right padding widened to the inner width, and a right bar from `rightGradient[i+1]`. |
| Border.Frame | src/index.ts:248-252 | A frame has `content.length + 2` rows. |
| Border.RunShown | src/index.ts:200-212 | A painted run renders to the joined cells, shows the glyph once per entry, and is well formed for in-range colours. |
| Border.TopRowShown | src/index.ts:200-252 | Stripped, the top row is `┏`, then one `━` per column, then `┓`. |
| Border.BottomRowShown | src/index.ts:207-252 | Stripped, the bottom row is `┗`, then one `━` per column, then `┛`. |
| Border.ContentRowShown | src/index.ts:220-245 | Stripped, a framed line is a bar, the left padding, the line's text, the right padding plus `max(0, inner width - text width)`, and a bar. |
| Border.FrameInRange | src/index.ts:189-198 | All four edge gradients stay in 0..255. |
| Border.Pick | src/index.ts:232-242 | The chosen colour is always an entry of the gradient: entry `k` if it exists, otherwise the last entry. |
| Border.FallbacksInactive | src/index.ts:217-242 | Both side gradients have `height + 2` entries, so `Math.min(height + 1, rightGradient.length - 1)` is `height + 1` and content row `k` finds `leftGradient[k+1]` and `rightGradient[k+1]` without a fallback. |
| Border.Copies | src/index.ts:200-212 | `n` copies of a glyph are `n` times its length. |
| Border.Cell | src/index.ts:114 | One painted glyph shows the glyph, and is well formed for an in-range colour. |
| Border.TopRightCornerMeets | src/index.ts:189-215 | The top-left corner is `#03FFFF`. For a width of at least 16, the top edge ends on `#FF0096`, the colour of the top-right corner. |
| Border.BottomRightCornerMeets | src/index.ts:190-218 | For sizes of at least 8, the bottom-right corner `rightGradient[H+1]` is `#FFFF00`, the colour the bottom edge ends on. |
| Border.LeftEdgeReversed | src/index.ts:194-236 | The left gradient starts at the bottom-left corner's colour and ends at the top-left corner's. |
| Border.RowShown | src/index.ts:248-252 | Stripped, any row of a frame is the top edge, a padded line between bars, or the bottom edge. |
| Border.ShownRowWidth | src/index.ts:223-229 | When a line fits, `lp + width + rp + extraRightPadding` fills the frame, so every shown row is `width + 2` characters. |
| Border.FrameShown | src/index.ts:179-253 | Stripped, every row of the card's frame shows its edge or its padded line. |
| Border.FrameAligned | src/index.ts:220-252 | If every line fits the inner width, every row of the frame is exactly `width + 2` characters once stripped. |
| Card.RenderCard | src/index.ts:337-354 | `main`'s steps produce `"\n" + card + "\n"` for the card sized by the widest stripped line plus 3 + 5. |
| Card.MeasureLines | src/index.ts:344-346 | `content.map(line => stripAnsi(line).length)` gives each line's stripped width. |
| Card.Widths | src/index.ts:344-346 | One stripped width per content line, in order. |
| Card.LineFits | src/index.ts:339-347 | Each content line is a rendered well-formed piece list, no wider than `textMaxWidth`. |
| Card.CardAligned | src/index.ts:337-354 | For a name, title and links without escape characters, every row of the card is `cardWidth + 2` characters once stripped, and there are `content.length + 2` rows. |
| Card.CardTight | src/index.ts:342-347 | Some content line fills the space between the two paddings exactly. |

## Left out

- Console output, `console.error`, `process.exit` and the `try`/`catch` of `main` are not modelled. `Card.RenderCard` returns the text that `main` logs.
- `personalInfo` is a constant in the source. Here the name, title and links are parameters of `Card.RenderCard`. The unused `fullName` and `description` fields are dropped.
- chalk's colour-level detection is not modelled. Neither are its shortcut for an empty string and its re-opening of styles after newlines. Every style always emits its opening and closing sequence.
- Colors.RoundDiv: exact rational rounding, halves up. IEEE floating-point effects of `Math.round` on `c1 + (c2 - c1) * t` near a half are not modelled.
- Colors.ParseHexColor: requires every character `parseInt` reads to be a hex digit (`Colors.Parses`). `Number.parseInt(_, 16)` skips leading whitespace, accepts a sign and reads the longest hex prefix, so other characters can give a truncated value (`"1G"` reads as 1), a negative channel (`"-1"`) or `NaN` (a non-hex first character). None of these is modelled.
- Gradient.GenerateGradient: requires a non-empty anchor list. With no anchors and `steps > 0`, the source's padding loop never ends. With `steps == 0` it returns an empty list, which is not modelled.
- Border.CreateRainbowBorder: requires `width >= 1`. At width 0 the source calls an undefined entry of the empty top gradient and throws. `main` always passes at least 8.
- The default paddings (2 and 2) of `createRainbowBorder` are not modelled. The only caller passes 3 and 5 explicitly.
- Paddings are natural numbers. `" ".repeat` of a negative count throws, and that is not modelled.
- The `|| leftGradient.at(-1) || leftGradient[0]` fallbacks at src/index.ts:232-242 are modelled by `Border.Pick`. They are never reached, because both gradients have `height + 2` entries (`Border.FallbacksInactive`, which also shows that the `Math.min` clamp at src/index.ts:217 never acts).
- `Math.max(...)` of an empty list (`-Infinity`) is not modelled. The content always has at least seven lines.
- Strings are sequences of `char`, and `.length` is the number of `char`s. A Dafny `char` cannot hold half of a UTF-16 surrogate pair, so an emoji such as the greeting's wave is one `char` here where `.length` counts two. Widths are proved relative to this count. How wide a terminal draws a glyph is not modelled either.
- `toLowerCase` and `toUpperCase` are ASCII-only here.
- Optional `title` and `emoji` are the empty string when absent. The source treats `undefined` and `""` alike in every use (`link.title &&`, `link.emoji || ""`).
- A label is called `caption` in the model, because `label` is a Dafny keyword.
- The border loops, the `content.map` callback and the two halves of the `buildContent` loop body are separate methods (`Border.PaintRun`, `Border.FrameLine`, `Content.PushLink`, `Content.OpenSection`) so that each proof stays small. Their statements are those of the source.
- Card.CardAligned: requires the name, title and every link field to be free of ESC characters. A field that contains escapes can change what `stripAnsi` measures, and no alignment is claimed for it.
- `src/config.ts` is not part of this model: it holds data only, and `src/index.ts` does not import it.
