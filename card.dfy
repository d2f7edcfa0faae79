/** `main` of src/index.ts: measure the content, size the card to its
    widest line plus the padding, and frame it. The person's name and title
    and the list of links, which the source reads from its `personalInfo`
    object, are parameters here, and the card is returned rather than
    written to the console. */
module Card {
  import opened Ansi
  import Content
  import Border

  const LeftPadding: nat := 3
  const RightPadding: nat := 5

  /** The visible width of every line, in order. */
  function Widths(content: seq<string>): (ws: seq<nat>)
    ensures |ws| == |content|
    ensures forall i :: 0 <= i < |content| ==> ws[i] == |Stripped(content[i])|
  {
    seq(|content|, i requires 0 <= i < |content| => |Stripped(content[i])|)
  }

  /** `textMaxWidth`: the widest line once escapes are stripped. */
  function TextMaxWidth(content: seq<string>): nat
  {
    Content.MaxOf(Widths(content))
  }

  /** `cardWidth`: the widest line plus both paddings. */
  function CardWidth(content: seq<string>): nat
  {
    TextMaxWidth(content) + LeftPadding + RightPadding
  }

  /** The content lines of the card for a person and their links. */
  function CardContent(name: string, title: string, links: seq<Content.LinkConfig>): seq<string>
  {
    Content.ContentLines(name, title, links, Content.MaxLabelWidth(links))
  }

  /** The rows of the card: its frame around the content. */
  function CardRows(name: string, title: string, links: seq<Content.LinkConfig>): seq<string>
  {
    var content := CardContent(name, title, links);
    Border.FrameRows(content, CardWidth(content), LeftPadding, RightPadding)
  }

  /** `main`, with the console write replaced by the returned text: the
      card's rows joined by newlines, between two newlines. */
  method RenderCard(name: string, title: string, links: seq<Content.LinkConfig>) returns (output: string)
    ensures output == "\n" + Border.JoinLines(CardRows(name, title, links)) + "\n"
  {
    var maxLabelWidth := Content.CalculateMaxLabelWidth(links);
    var content := Content.BuildContent(name, title, links, maxLabelWidth);
    var widths := MeasureLines(content);
    var textMaxWidth := Content.MaxOf(widths);
    var cardWidth := textMaxWidth + LeftPadding + RightPadding;
    assert cardWidth == CardWidth(content);
    var card := Border.CreateRainbowBorder(content, cardWidth, LeftPadding, RightPadding);
    assert card == Border.JoinLines(CardRows(name, title, links));
    output := "\n" + card + "\n";
  }

  /** `content.map((line) => stripAnsi(line).length)`. */
  method MeasureLines(content: seq<string>) returns (widths: seq<nat>)
    ensures widths == Widths(content)
  {
    widths := [];
    for i := 0 to |content|
      invariant |widths| == i
      invariant forall j :: 0 <= j < i ==> widths[j] == |Stripped(content[j])|
    {
      var clean := StripAnsi(content[i]);
      widths := widths + [|clean|];
    }
  }

  // ---------------------------------------------------------------------
  // The card is a rectangle

  /** The pieces of every line of a layout. */
  function PiecesOf(ls: seq<Content.Line>, name: string, title: string, w: int): (lines: seq<seq<Piece>>)
    ensures |lines| == |ls|
  {
    seq(|ls|, k requires 0 <= k < |ls| => Content.LinePieces(ls[k], name, title, w))
  }

  lemma {:induction false} RenderLinesAt(ls: seq<Content.Line>, name: string, title: string, w: int, k: nat)
    requires k < |ls|
    ensures Content.RenderLines(ls, name, title, w)[k] == Render(Content.LinePieces(ls[k], name, title, w))
  {
    if k < |ls| - 1 {
      RenderLinesAt(ls[..|ls| - 1], name, title, w, k);
    }
  }

  /** Every line of the layout carries only safe text when the person's
      name and title and every link do. */
  lemma LineSafe(name: string, title: string, links: seq<Content.LinkConfig>, k: nat)
    requires ESC !in name && ESC !in title
    requires forall i :: 0 <= i < |links| ==> Content.SafeLink(links[i])
    requires k < |Content.Layout(links)|
    ensures var line := Content.Layout(links)[k];
      (line.Header? ==> ESC !in line.title) && (line.Row? ==> Content.SafeLink(line.link))
  {
    var p, mid := Content.Prelude, Content.LinkLines(links);
    assert Content.Layout(links) == p + mid + [Content.Blank];
    if |p| <= k < |p| + |mid| {
      Content.LayoutSafe(links, k - |p|);
      assert Content.Layout(links)[k] == mid[k - |p|];
    }
  }

  /** Content line `k` is the rendering of well-formed pieces whose text is
      as wide as the line measures. */
  lemma LineFits(name: string, title: string, links: seq<Content.LinkConfig>, k: nat)
    requires ESC !in name && ESC !in title
    requires forall i :: 0 <= i < |links| ==> Content.SafeLink(links[i])
    requires k < |Content.Layout(links)|
    ensures var content := CardContent(name, title, links);
      var ps := PiecesOf(Content.Layout(links), name, title, Content.MaxLabelWidth(links))[k];
      content[k] == Render(ps) && WellFormed(ps) && |Visible(ps)| <= TextMaxWidth(content)
  {
    var ls, w := Content.Layout(links), Content.MaxLabelWidth(links);
    var content := CardContent(name, title, links);
    var ps := Content.LinePieces(ls[k], name, title, w);
    RenderLinesAt(ls, name, title, w, k);
    LineSafe(name, title, links, k);
    Content.LinePiecesWellFormed(ls[k], name, title, w);
    StrippedRender(ps);
    assert Widths(content)[k] == |Visible(ps)|;
  }

  /** For a person and links free of escape characters, every row of the
      card shows exactly `cardWidth + 2` characters once escapes are
      stripped: the right edge lines up from top to bottom. */
  lemma CardAligned(name: string, title: string, links: seq<Content.LinkConfig>)
    requires ESC !in name && ESC !in title
    requires forall i :: 0 <= i < |links| ==> Content.SafeLink(links[i])
    ensures var content := CardContent(name, title, links);
      var rows := CardRows(name, title, links);
      |rows| == |Content.Layout(links)| + 2 &&
      forall r :: 0 <= r < |rows| ==> |Stripped(rows[r])| == CardWidth(content) + 2
  {
    var ls, w := Content.Layout(links), Content.MaxLabelWidth(links);
    var content := CardContent(name, title, links);
    var lines := PiecesOf(ls, name, title, w);
    forall k | 0 <= k < |lines|
      ensures content[k] == Render(lines[k]) && WellFormed(lines[k])
           && |Visible(lines[k])| <= CardWidth(content) - LeftPadding - RightPadding
    {
      LineFits(name, title, links, k);
    }
    Border.FrameAligned(content, lines, CardWidth(content), LeftPadding, RightPadding);
  }

  /** The card is no wider than it needs to be: some content line fills
      the space between the paddings exactly. */
  lemma CardTight(name: string, title: string, links: seq<Content.LinkConfig>)
    ensures var content := CardContent(name, title, links);
      exists k :: 0 <= k < |content| && LeftPadding + |Stripped(content[k])| + RightPadding == CardWidth(content)
  {
    var content := CardContent(name, title, links);
    var ws := Widths(content);
    var ls, w := Content.Layout(links), Content.MaxLabelWidth(links);
    if TextMaxWidth(content) == 0 {
      RenderLinesAt(ls, name, title, w, 0);
      assert ls[0] == Content.Blank;
      StrippedEscFree(content[0]);
      assert ws[0] == 0;
    }
  }
}
