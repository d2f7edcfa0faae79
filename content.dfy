/** Content formatting: `getFinalUrl`, `formatLink`, `calculateMaxLabelWidth`
    and `buildContent` of src/index.ts. Every escape-carrying line is built
    from a list of pieces and rendered, so that what `stripAnsi` leaves of it
    can be stated. */
module Content {
  import opened Ansi
  import opened Chalk

  datatype Option<T> = None | Some(value: T)

  /** One link of the card (`caption` is its label). An absent `title` or `emoji` is the empty string:
      the source treats `undefined` and `""` alike wherever it reads them. */
  datatype LinkConfig = LinkConfig(
    title: string, caption: string, url: string, emoji: string, displayText: string)

  // ---------------------------------------------------------------------
  // getFinalUrl

  function LowerChar(c: char): char
  {
    if 'A' <= c <= 'Z' then (c as int - 'A' as int + 'a' as int) as char else c
  }

  /** ASCII lower-casing, character by character. */
  function Lower(s: string): (l: string)
    ensures |l| == |s|
    ensures forall i :: 0 <= i < |s| ==> l[i] == LowerChar(s[i])
  {
    if s == [] then [] else [LowerChar(s[0])] + Lower(s[1..])
  }

  /** A display text of the form `@handle`. */
  predicate IsHandle(t: string)
  {
    |t| > 0 && t[0] == '@'
  }

  const XProfile: string := "https://x.com/"
  const BlueskyProfile: string := "https://bsky.app/profile/"

  /** `getFinalUrl`: an X or Bluesky link shown as a handle points at that
      handle's profile; every other link keeps its own URL. */
  function GetFinalUrl(link: LinkConfig): (u: string)
    ensures u == link.url || (IsHandle(link.displayText) &&
      (u == XProfile + link.displayText[1..] || u == BlueskyProfile + link.displayText[1..]))
    ensures ESC !in link.url && ESC !in link.displayText ==> ESC !in u
  {
    var dt := link.displayText;
    if IsHandle(dt) && (Lower(link.caption) == "x" || Lower(link.caption) == "bluesky") then
      assert forall c :: c in dt[1..] ==> c in dt;
      if Lower(link.caption) == "x" then XProfile + dt[1..] else BlueskyProfile + dt[1..]
    else link.url
  }

  /** Which profile a handle is sent to, and that nothing else is rewritten. */
  lemma FinalUrlCases(link: LinkConfig)
    ensures GetFinalUrl(link) != link.url ==>
      IsHandle(link.displayText) && (Lower(link.caption) == "x" || Lower(link.caption) == "bluesky")
    ensures IsHandle(link.displayText) && Lower(link.caption) == "x" ==>
      GetFinalUrl(link) == XProfile + link.displayText[1..]
    ensures IsHandle(link.displayText) && Lower(link.caption) == "bluesky" ==>
      GetFinalUrl(link) == BlueskyProfile + link.displayText[1..]
  {
  }

  /** Label case does not matter, and the configured URL is ignored. */
  lemma XHandleExample()
    ensures GetFinalUrl(LinkConfig("", "X", "ignored", "", "@abc")) == "https://x.com/abc"
  {
    assert Lower("X") == "x";
    assert "@abc"[1..] == "abc";
  }

  lemma BlueskyHandleExample()
    ensures GetFinalUrl(LinkConfig("", "Bluesky", "ignored", "", "@xyz")) == "https://bsky.app/profile/xyz"
  {
    assert Lower("Bluesky") == "bluesky";
    assert "@xyz"[1..] == "xyz";
  }

  /** A display text that is not a handle keeps the configured URL. */
  lemma UrlKeptExample()
    ensures GetFinalUrl(LinkConfig("", "GitHub", "https://github.com/foo", "", "https://github.com/foo"))
         == "https://github.com/foo"
  {
  }

  // ---------------------------------------------------------------------
  // formatLink

  /** Unstyled text as a single piece. */
  function Plain(t: string): (ps: seq<Piece>)
    ensures Visible(ps) == t
    ensures ESC !in t ==> WellFormed(ps)
    ensures NoLinks(ps)
  {
    assert [Text(t)][1..] == [];
    [Text(t)]
  }

  /** `" ".repeat(n)`; a count below one gives nothing. */
  function Spaces(n: int): (s: string)
    ensures |s| == if n > 0 then n else 0
    ensures forall i :: 0 <= i < |s| ==> s[i] == ' '
  {
    if n <= 0 then [] else Spaces(n - 1) + [' ']
  }

  /** `${emoji} ${chalk.yellow(label)}`. */
  function LabelPart(emoji: string, caption: string): (ps: seq<Piece>)
    ensures Visible(ps) == emoji + " " + caption
    ensures ESC !in emoji && ESC !in caption ==> WellFormed(ps)
    ensures NoLinks(ps)
  {
    var head := Plain(emoji + " ");
    var styled := Yellow(Plain(caption));
    LabelFacts(emoji, caption, head, styled);
    head + styled
  }

  lemma LabelFacts(emoji: string, caption: string, head: seq<Piece>, styled: seq<Piece>)
    requires Visible(head) == emoji + " " && Visible(styled) == caption
    requires ESC !in emoji && ESC !in caption ==> WellFormed(head) && WellFormed(styled)
    requires NoLinks(head) && NoLinks(styled)
    ensures Visible(head + styled) == emoji + " " + caption
    ensures ESC !in emoji && ESC !in caption ==> WellFormed(head + styled)
    ensures NoLinks(head + styled)
  {
    VisibleAppend(head, styled);
    if ESC !in emoji && ESC !in caption {
      WellFormedAppend(head, styled);
    }
  }

  /** The display text, underlined and cyan, inside an OSC 8 hyperlink to `url`. */
  function Clickable(url: string, displayText: string): (ps: seq<Piece>)
    ensures Visible(ps) == displayText
    ensures ESC !in url && ESC !in displayText ==> WellFormed(ps)
    ensures |ps| >= 2 && ps[0] == Hyperlink(url) && ps[|ps| - 1] == Hyperlink([])
    ensures Visible(ps[1..|ps| - 1]) == displayText && NoLinks(ps[1..|ps| - 1])
  {
    var styled := Underline(Cyan(Plain(displayText)));
    LinkFacts(url, displayText, styled);
    [Hyperlink(url)] + styled + [Hyperlink([])]
  }

  lemma LinkFacts(url: string, displayText: string, styled: seq<Piece>)
    requires Visible(styled) == displayText && NoLinks(styled)
    requires ESC !in displayText ==> WellFormed(styled)
    ensures var ps := [Hyperlink(url)] + styled + [Hyperlink([])];
      Visible(ps) == displayText && ps[1..|ps| - 1] == styled &&
      (ESC !in url && ESC !in displayText ==> WellFormed(ps))
  {
    assert Visible([Hyperlink(url)]) == [] by { assert [Hyperlink(url)][1..] == []; }
    assert Visible([Hyperlink([])]) == [] by { assert [Hyperlink([])][1..] == []; }
    Framed([Hyperlink(url)], styled, [Hyperlink([])]);
    var ps := [Hyperlink(url)] + styled + [Hyperlink([])];
    assert ps[1..|ps| - 1] == styled;
  }

  /** The text between the label part and the link: padding up to the caption
      column and two spaces, or one space when no column is given. */
  function Gap(labelPart: string, labelWidth: Option<int>): string
  {
    match labelWidth
    case Some(w) => Spaces(w - |Stripped(labelPart)|) + "  "
    case None => " "
  }

  function LinkPieces(emoji: string, caption: string, url: string, displayText: string,
                      labelWidth: Option<int>): seq<Piece>
  {
    var labelPart := LabelPart(emoji, caption);
    labelPart + Plain(Gap(Render(labelPart), labelWidth)) + Clickable(url, displayText)
  }

  /** The gap as it shows, for a label part without escapes. */
  function ShownGap(emoji: string, caption: string, labelWidth: Option<int>): string
  {
    match labelWidth
    case Some(w) => Spaces(w - (|emoji| + 1 + |caption|)) + "  "
    case None => " "
  }

  /** `formatLink`: the label part, the gap before the display text, and
      the display text as a terminal hyperlink to `url`. */
  function FormatLink(emoji: string, caption: string, url: string, displayText: string,
                      labelWidth: Option<int>): string
  {
    Render(LinkPieces(emoji, caption, url, displayText, labelWidth))
  }

  /** What stays visible of a formatted link is the label part, the gap and
      the display text; with a column the label part is padded to it. */
  lemma FormatLinkShown(emoji: string, caption: string, url: string, displayText: string,
                        labelWidth: Option<int>)
    requires ESC !in emoji && ESC !in caption && ESC !in url && ESC !in displayText
    ensures Stripped(FormatLink(emoji, caption, url, displayText, labelWidth))
         == emoji + " " + caption + ShownGap(emoji, caption, labelWidth) + displayText
  {
    LinkPiecesVisible(emoji, caption, url, displayText, labelWidth);
  }

  lemma LinkPiecesVisible(emoji: string, caption: string, url: string, displayText: string,
                          labelWidth: Option<int>)
    requires ESC !in emoji && ESC !in caption && ESC !in url && ESC !in displayText
    ensures WellFormed(LinkPieces(emoji, caption, url, displayText, labelWidth))
    ensures Stripped(Render(LinkPieces(emoji, caption, url, displayText, labelWidth)))
         == emoji + " " + caption + ShownGap(emoji, caption, labelWidth) + displayText
  {
    var lp := LabelPart(emoji, caption);
    StrippedRender(lp);
    var gap := Gap(Render(lp), labelWidth);
    assert gap == ShownGap(emoji, caption, labelWidth);
    var tail := Clickable(url, displayText);
    var ps := lp + Plain(gap) + tail;
    assert LinkPieces(emoji, caption, url, displayText, labelWidth) == ps;
    VisibleAppend(lp, Plain(gap));
    VisibleAppend(lp + Plain(gap), tail);
    StrippedRender(ps);
  }

  /** A formatted link carries exactly one hyperlink, to `url`, and it
      wraps exactly the display text: nothing before it is a link, and
      the closing sequence ends the row. */
  lemma LinkTarget(emoji: string, caption: string, url: string, displayText: string,
                   labelWidth: Option<int>)
    ensures var ps := LinkPieces(emoji, caption, url, displayText, labelWidth);
      exists j :: 0 <= j < |ps| - 1 && ps[j] == Hyperlink(url) && NoLinks(ps[..j]) &&
        Visible(ps[j + 1..|ps| - 1]) == displayText && NoLinks(ps[j + 1..|ps| - 1]) &&
        ps[|ps| - 1] == Hyperlink([])
  {
    var lp := LabelPart(emoji, caption);
    var gap := Plain(Gap(Render(lp), labelWidth));
    var c := Clickable(url, displayText);
    var ps := lp + gap + c;
    assert LinkPieces(emoji, caption, url, displayText, labelWidth) == ps;
    var j := |lp| + |gap|;
    assert ps[..j] == lp + gap;
    assert ps[j] == c[0];
    assert ps[j + 1..|ps| - 1] == c[1..|c| - 1];
    assert ps[|ps| - 1] == c[|c| - 1];
  }

  /** With a column at least as wide as the label part, the display text
      starts at column `labelWidth + 2`, whatever the label. */
  lemma LabelColumn(emoji: string, caption: string, url: string, displayText: string, w: int)
    requires ESC !in emoji && ESC !in caption && ESC !in url && ESC !in displayText
    requires |emoji| + 1 + |caption| <= w
    ensures var v := Stripped(FormatLink(emoji, caption, url, displayText, Some(w)));
      |v| == w + 2 + |displayText| && v[w + 2..] == displayText &&
      v[..|emoji| + 1 + |caption|] == emoji + " " + caption &&
      forall i :: |emoji| + 1 + |caption| <= i < w + 2 ==> v[i] == ' '
  {
    FormatLinkShown(emoji, caption, url, displayText, Some(w));
    ShownColumn(emoji, caption, displayText, w);
  }

  lemma ShownColumn(emoji: string, caption: string, displayText: string, w: int)
    requires |emoji| + 1 + |caption| <= w
    ensures var v := emoji + " " + caption + ShownGap(emoji, caption, Some(w)) + displayText;
      |v| == w + 2 + |displayText| && v[w + 2..] == displayText &&
      v[..|emoji| + 1 + |caption|] == emoji + " " + caption &&
      forall i :: |emoji| + 1 + |caption| <= i < w + 2 ==> v[i] == ' '
  {
    var shown := emoji + " " + caption;
    var pad := ShownGap(emoji, caption, Some(w));
    assert |pad| == w + 2 - |shown|;
    Columned(shown, pad, displayText, w);
  }

  /** A label, blanks up to column `w + 2`, then the display text. */
  lemma Columned(shown: string, pad: string, displayText: string, w: int)
    requires |pad| == w + 2 - |shown| && forall i :: 0 <= i < |pad| ==> pad[i] == ' '
    ensures var v := shown + pad + displayText;
      |v| == w + 2 + |displayText| && v[w + 2..] == displayText && v[..|shown|] == shown &&
      forall i :: |shown| <= i < w + 2 ==> v[i] == ' '
  {
    var v := shown + pad + displayText;
    assert v[..|shown|] == shown;
    assert v[|shown| + |pad|..] == displayText;
    assert forall i :: |shown| <= i < |shown| + |pad| ==> v[i] == pad[i - |shown|];
  }

  // ---------------------------------------------------------------------
  // calculateMaxLabelWidth

  /** `${link.emoji || ""} ${link.caption}`. */
  function LabelText(link: LinkConfig): string
  {
    link.emoji + " " + link.caption
  }

  /** The visible width of a label: never more than the label's own
      length. */
  function LabelWidth(link: LinkConfig): (w: nat)
    ensures w <= |link.emoji| + 1 + |link.caption|
  {
    StrippedFixed(LabelText(link));
    |Stripped(LabelText(link))|
  }

  /** The largest of some widths, or 0 when there are none. */
  function MaxOf(ws: seq<nat>): (m: nat)
    ensures forall i :: 0 <= i < |ws| ==> ws[i] <= m
    ensures m == 0 || exists i :: 0 <= i < |ws| && m == ws[i]
  {
    if ws == [] then 0
    else
      var m := MaxOf(ws[..|ws| - 1]);
      if ws[|ws| - 1] > m then ws[|ws| - 1] else m
  }

  function LabelWidths(links: seq<LinkConfig>): (ws: seq<nat>)
    ensures |ws| == |links|
    ensures forall i :: 0 <= i < |links| ==> ws[i] == LabelWidth(links[i])
  {
    seq(|links|, i requires 0 <= i < |links| => LabelWidth(links[i]))
  }

  /** The label column: the widest label part, or 0 for no links. */
  function MaxLabelWidth(links: seq<LinkConfig>): nat
  {
    MaxOf(LabelWidths(links))
  }

  /** `calculateMaxLabelWidth`: a running maximum over the links. */
  method CalculateMaxLabelWidth(links: seq<LinkConfig>) returns (maxLabelWidth: nat)
    ensures maxLabelWidth == MaxLabelWidth(links)
  {
    maxLabelWidth := 0;
    ghost var ws := LabelWidths(links);
    for i := 0 to |links|
      invariant maxLabelWidth == MaxOf(ws[..i])
    {
      var link := links[i];
      var labelPart := link.emoji + " " + link.caption;
      var clean := StripAnsi(labelPart);
      assert ws[..i + 1][..i] == ws[..i];
      if |clean| > maxLabelWidth {
        maxLabelWidth := |clean|;
      }
    }
    assert ws[..|links|] == ws;
  }

  /** Without escapes in it, a label part is as wide as it is long. */
  lemma PlainLabelWidth(link: LinkConfig)
    requires ESC !in link.emoji && ESC !in link.caption
    ensures LabelWidth(link) == |link.emoji| + 1 + |link.caption|
  {
    StrippedEscFree(LabelText(link));
  }

  // ---------------------------------------------------------------------
  // buildContent

  /** The kinds of line `buildContent` emits. */
  datatype Line = Blank | Greeting | NameLine | TitleLine | Header(title: string) | Row(link: LinkConfig)

  /** A link opens a section when it has a title other than the current one. */
  predicate Opens(current: Option<string>, link: LinkConfig)
  {
    link.title != "" && Some(link.title) != current
  }

  /** The section being tracked after the given links. */
  function Tracked(links: seq<LinkConfig>): Option<string>
  {
    if links == [] then None
    else
      var current := Tracked(links[..|links| - 1]);
      var link := links[|links| - 1];
      if Opens(current, link) then Some(link.title) else current
  }

  /** What one link adds: a blank separator (if a section came before) and a
      header when it opens a section, then its row. */
  function LinkStep(current: Option<string>, link: LinkConfig): seq<Line>
  {
    (if Opens(current, link) then (if current.Some? then [Blank] else []) + [Header(link.title)] else [])
    + [Row(link)]
  }

  function LinkLines(links: seq<LinkConfig>): seq<Line>
  {
    if links == [] then []
    else LinkLines(links[..|links| - 1]) + LinkStep(Tracked(links[..|links| - 1]), links[|links| - 1])
  }

  const Prelude: seq<Line> := [Blank, Greeting, Blank, NameLine, TitleLine, Blank]

  /** Every line of the content, in order. */
  function Layout(links: seq<LinkConfig>): seq<Line>
  {
    Prelude + LinkLines(links) + [Blank]
  }

  /** The greeting glyph. */
  const Wave: string := "\U{1F44B}"

  function LinePieces(line: Line, name: string, title: string, labelWidth: int): seq<Piece>
  {
    match line
    case Blank => []
    case Greeting => Green([Text(Wave)])
    case NameLine => Green([Text("I'm ")] + Bold([Text(name)]))
    case TitleLine => Green([Text(title)])
    case Header(t) => Blue([Text("  " + t)])
    case Row(l) => LinkPieces(l.emoji, l.caption, GetFinalUrl(l), l.displayText, Some(labelWidth))
  }

  function RenderLine(line: Line, name: string, title: string, labelWidth: int): string
  {
    Render(LinePieces(line, name, title, labelWidth))
  }

  function RenderLines(ls: seq<Line>, name: string, title: string, labelWidth: int): (out: seq<string>)
    ensures |out| == |ls|
  {
    if ls == [] then []
    else RenderLines(ls[..|ls| - 1], name, title, labelWidth) + [RenderLine(ls[|ls| - 1], name, title, labelWidth)]
  }

  lemma {:induction false} RenderLinesAppend(a: seq<Line>, b: seq<Line>, name: string, title: string, w: int)
    ensures RenderLines(a + b, name, title, w) == RenderLines(a, name, title, w) + RenderLines(b, name, title, w)
    decreases |b|
  {
    if b == [] {
      assert a + b == a;
    } else {
      assert (a + b)[..|a + b| - 1] == a + b[..|b| - 1];
      RenderLinesAppend(a, b[..|b| - 1], name, title, w);
    }
  }

  /** The lines `buildContent` returns for the person's `name` and `title`. */
  function ContentLines(name: string, title: string, links: seq<LinkConfig>, labelWidth: int): seq<string>
  {
    RenderLines(Layout(links), name, title, labelWidth)
  }

  lemma RenderLinesSnoc(ls: seq<Line>, line: Line, name: string, title: string, w: int)
    ensures RenderLines(ls + [line], name, title, w) == RenderLines(ls, name, title, w) + [RenderLine(line, name, title, w)]
  {
    RenderLinesAppend(ls, [line], name, title, w);
  }

  /** `buildContent`, with the person's name and title passed in. */
  method BuildContent(name: string, title: string, links: seq<LinkConfig>, maxLabelWidth: int)
    returns (content: seq<string>)
    ensures content == ContentLines(name, title, links, maxLabelWidth)
  {
    content := PushPrelude(name, title, maxLabelWidth);
    assert Prelude + LinkLines(links[..0]) == Prelude;
    var currentSection: Option<string> := None;
    for i := 0 to |links|
      invariant content == RenderLines(Prelude + LinkLines(links[..i]), name, title, maxLabelWidth)
      invariant currentSection == Tracked(links[..i])
    {
      Advance(links, i, name, title, maxLabelWidth);
      content, currentSection := PushLink(content, currentSection, links[i], maxLabelWidth);
    }
    assert links[..|links|] == links;
    content := content + [""];
    RenderLinesSnoc(Prelude + LinkLines(links), Blank, name, title, maxLabelWidth);
  }

  /** The six lines above the links: blank, greeting, blank, name, title, blank. */
  method PushPrelude(name: string, title: string, maxLabelWidth: int) returns (content: seq<string>)
    ensures content == RenderLines(Prelude, name, title, maxLabelWidth)
  {
    content := [];
    content := content + [""];
    content := content + [Render(Green([Text(Wave)]))];
    content := content + [""];
    content := content + [Render(Green([Text("I'm ")] + Bold([Text(name)])))];
    content := content + [Render(Green([Text(title)]))];
    content := content + [""];
    PreludeLines(name, title, maxLabelWidth);
  }

  /** One pass of the link loop: a blank and a header when the link opens a section, then its row. */
  method PushLink(content: seq<string>, currentSection: Option<string>, link: LinkConfig, maxLabelWidth: int)
    returns (content': seq<string>, section': Option<string>)
    ensures content' == content + LinkStrings(currentSection, link, maxLabelWidth)
    ensures section' == if Opens(currentSection, link) then Some(link.title) else currentSection
  {
    content', section' := OpenSection(content, currentSection, link);
    var finalUrl := GetFinalUrl(link);
    var row := FormatLink(link.emoji, link.caption, finalUrl, link.displayText, Some(maxLabelWidth));
    content' := content' + [row];
  }

  /** The part of one pass that starts a new section: a blank line after an earlier section, then the header. */
  method OpenSection(content: seq<string>, currentSection: Option<string>, link: LinkConfig)
    returns (content': seq<string>, section': Option<string>)
    ensures content' == content + SectionStrings(currentSection, link)
    ensures section' == if Opens(currentSection, link) then Some(link.title) else currentSection
  {
    content', section' := content, currentSection;
    if link.title != "" && Some(link.title) != currentSection {
      if currentSection != None {
        content' := content' + [""];
      }
      var header := Render(Blue([Text("  " + link.title)]));
      content' := content' + [header];
      section' := Some(link.title);
    }
  }

  /** The strings one pass pushes before its link row. */
  function SectionStrings(current: Option<string>, link: LinkConfig): seq<string>
  {
    var header := Render(Blue([Text("  " + link.title)]));
    if !Opens(current, link) then [] else if current.Some? then ["", header] else [header]
  }

  /** The strings the loop pushes for one link. */
  function LinkStrings(current: Option<string>, link: LinkConfig, w: int): seq<string>
  {
    var header := Render(Blue([Text("  " + link.title)]));
    var row := FormatLink(link.emoji, link.caption, GetFinalUrl(link), link.displayText, Some(w));
    if !Opens(current, link) then [row] else if current.Some? then ["", header, row] else [header, row]
  }

  /** One pass of the loop renders the lines the layout gives that link. */
  lemma Advance(links: seq<LinkConfig>, i: nat, name: string, title: string, w: int)
    requires i < |links|
    ensures Tracked(links[..i + 1]) == if Opens(Tracked(links[..i]), links[i]) then Some(links[i].title) else Tracked(links[..i])
    ensures RenderLines(Prelude + LinkLines(links[..i + 1]), name, title, w)
         == RenderLines(Prelude + LinkLines(links[..i]), name, title, w) + LinkStrings(Tracked(links[..i]), links[i], w)
  {
    var current, link := Tracked(links[..i]), links[i];
    LinkLinesSnoc(links, i);
    assert Prelude + LinkLines(links[..i + 1]) == (Prelude + LinkLines(links[..i])) + LinkStep(current, link);
    RenderLinesAppend(Prelude + LinkLines(links[..i]), LinkStep(current, link), name, title, w);
    StepRendered(current, link, name, title, w);
  }

  lemma StepRendered(current: Option<string>, link: LinkConfig, name: string, title: string, w: int)
    ensures RenderLines(LinkStep(current, link), name, title, w) == LinkStrings(current, link, w)
  {
    StepShape(current, link);
    RowIsFormatLink(link, name, title, w);
    HeaderIsRendered(link.title, name, title, w);
    if Opens(current, link) && current.Some? {
      RenderThree(Blank, Header(link.title), Row(link), name, title, w);
    } else if Opens(current, link) {
      RenderTwo(Header(link.title), Row(link), name, title, w);
    } else {
      RenderOne(Row(link), name, title, w);
    }
  }

  lemma HeaderIsRendered(t: string, name: string, title: string, w: int)
    ensures RenderLine(Header(t), name, title, w) == Render(Blue([Text("  " + t)]))
    ensures RenderLine(Blank, name, title, w) == ""
  {
  }

  lemma RenderTwo(a: Line, b: Line, name: string, title: string, w: int)
    ensures RenderLines([a, b], name, title, w) == [RenderLine(a, name, title, w), RenderLine(b, name, title, w)]
  {
    RenderOne(a, name, title, w);
    RenderLinesSnoc([a], b, name, title, w);
    assert [a] + [b] == [a, b];
  }

  lemma RenderThree(a: Line, b: Line, c: Line, name: string, title: string, w: int)
    ensures RenderLines([a, b, c], name, title, w)
         == [RenderLine(a, name, title, w), RenderLine(b, name, title, w), RenderLine(c, name, title, w)]
  {
    RenderTwo(a, b, name, title, w);
    RenderLinesSnoc([a, b], c, name, title, w);
    assert [a, b] + [c] == [a, b, c];
  }

  lemma RenderOne(line: Line, name: string, title: string, w: int)
    ensures RenderLines([line], name, title, w) == [RenderLine(line, name, title, w)]
  {
    assert [line][..0] == [];
  }

  lemma LinkLinesSnoc(links: seq<LinkConfig>, i: nat)
    requires i < |links|
    ensures LinkLines(links[..i + 1]) == LinkLines(links[..i]) + LinkStep(Tracked(links[..i]), links[i])
    ensures Tracked(links[..i + 1]) == if Opens(Tracked(links[..i]), links[i]) then Some(links[i].title) else Tracked(links[..i])
  {
    assert links[..i + 1][..i] == links[..i];
  }

  /** The lines one link adds, written out. */
  lemma StepShape(current: Option<string>, link: LinkConfig)
    ensures Opens(current, link) && current.Some? ==> LinkStep(current, link) == [Blank, Header(link.title), Row(link)]
    ensures Opens(current, link) && current.None? ==> LinkStep(current, link) == [Header(link.title), Row(link)]
    ensures !Opens(current, link) ==> LinkStep(current, link) == [Row(link)]
  {
  }

  /** How each line of the prelude renders. */
  lemma PreludeLine(name: string, title: string, w: int)
    ensures RenderLine(Blank, name, title, w) == ""
    ensures RenderLine(Greeting, name, title, w) == Render(Green([Text(Wave)]))
    ensures RenderLine(NameLine, name, title, w) == Render(Green([Text("I'm ")] + Bold([Text(name)])))
    ensures RenderLine(TitleLine, name, title, w) == Render(Green([Text(title)]))
  { }

  /** The six lines that open the content. */
  lemma PreludeLines(name: string, title: string, w: int)
    ensures RenderLines(Prelude, name, title, w)
         == ["", Render(Green([Text(Wave)])), "", Render(Green([Text("I'm ")] + Bold([Text(name)]))),
             Render(Green([Text(title)])), ""]
  {
    var first, second := [Blank, Greeting, Blank], [NameLine, TitleLine, Blank];
    assert Prelude == first + second;
    RenderLinesAppend(first, second, name, title, w);
    RenderThree(Blank, Greeting, Blank, name, title, w);
    RenderThree(NameLine, TitleLine, Blank, name, title, w);
    PreludeLine(name, title, w);
  }

  // ---------------------------------------------------------------------
  // Properties of the layout

  /** The links whose rows appear, in order. */
  function Rows(ls: seq<Line>): seq<LinkConfig>
  {
    if ls == [] then [] else Rows(ls[..|ls| - 1]) + (if ls[|ls| - 1].Row? then [ls[|ls| - 1].link] else [])
  }

  /** The section headers that appear, in order. */
  function Headers(ls: seq<Line>): seq<string>
  {
    if ls == [] then [] else Headers(ls[..|ls| - 1]) + (if ls[|ls| - 1].Header? then [ls[|ls| - 1].title] else [])
  }

  function Blanks(ls: seq<Line>): nat
  {
    if ls == [] then 0 else Blanks(ls[..|ls| - 1]) + (if ls[|ls| - 1] == Blank then 1 else 0)
  }

  lemma {:induction false} RowsAppend(a: seq<Line>, b: seq<Line>)
    ensures Rows(a + b) == Rows(a) + Rows(b)
    ensures Headers(a + b) == Headers(a) + Headers(b)
    ensures Blanks(a + b) == Blanks(a) + Blanks(b)
    decreases |b|
  {
    if b == [] {
      assert a + b == a;
    } else {
      var b' := b[..|b| - 1];
      assert (a + b)[..|a + b| - 1] == a + b';
      RowsAppend(a, b');
    }
  }

  /** One row per link, in the order given. */
  lemma {:induction false} RowsInOrder(links: seq<LinkConfig>)
    ensures Rows(LinkLines(links)) == links
  {
    if links != [] {
      var init, link := links[..|links| - 1], links[|links| - 1];
      assert links == init + [link];
      RowsInOrder(init);
      LinesStep(init, link, links);
      assert Rows(LinkLines(links)) == init + [link];
    }
  }

  /** Every header is a non-empty title. */
  lemma {:induction false} HeadersNonEmpty(links: seq<LinkConfig>)
    ensures var h := Headers(LinkLines(links));
      forall i :: 0 <= i < |h| ==> h[i] != ""
  {
    if links != [] {
      var init, link := links[..|links| - 1], links[|links| - 1];
      assert links == init + [link];
      HeadersNonEmpty(init);
      LinesStep(init, link, links);
    }
  }

  /** The tracked `currentSection` is the last header, or none before the
      first. */
  lemma {:induction false} HeadersTracked(links: seq<LinkConfig>)
    ensures var h := Headers(LinkLines(links));
      Tracked(links) == (if h == [] then None else Some(h[|h| - 1]))
  {
    if links != [] {
      var init, link := links[..|links| - 1], links[|links| - 1];
      assert links == init + [link];
      HeadersTracked(init);
      LinesStep(init, link, links);
    }
  }

  /** No two neighbouring headers carry the same title. */
  lemma {:induction false} HeadersChange(links: seq<LinkConfig>)
    ensures var h := Headers(LinkLines(links));
      forall i :: 0 < i < |h| ==> h[i - 1] != h[i]
  {
    if links != [] {
      var init, link := links[..|links| - 1], links[|links| - 1];
      assert links == init + [link];
      HeadersChange(init);
      HeadersTracked(init);
      LinesStep(init, link, links);
      var h0, h := Headers(LinkLines(init)), Headers(LinkLines(links));
      if Opens(Tracked(init), link) && h0 != [] {
        assert h[|h0| - 1] == h0[|h0| - 1];
      }
    }
  }

  /** A blank line separates each header from the section before it, and no
      blank line occurs otherwise. */
  lemma {:induction false} BlanksBetween(links: seq<LinkConfig>)
    ensures var h := Headers(LinkLines(links));
      Blanks(LinkLines(links)) == (if h == [] then 0 else |h| - 1)
  {
    if links != [] {
      var init, link := links[..|links| - 1], links[|links| - 1];
      assert links == init + [link];
      BlanksBetween(init);
      HeadersTracked(init);
      LinesStep(init, link, links);
    }
  }

  /** What the last link adds to the headers, blanks and tracked section. */
  lemma LinesStep(init: seq<LinkConfig>, link: LinkConfig, links: seq<LinkConfig>)
    requires links == init + [link]
    ensures Rows(LinkLines(links)) == Rows(LinkLines(init)) + [link]
    ensures Headers(LinkLines(links)) == Headers(LinkLines(init)) + (if Opens(Tracked(init), link) then [link.title] else [])
    ensures Blanks(LinkLines(links)) == Blanks(LinkLines(init)) + (if Opens(Tracked(init), link) && Tracked(init).Some? then 1 else 0)
    ensures Tracked(links) == if Opens(Tracked(init), link) then Some(link.title) else Tracked(init)
  {
    var cur := Tracked(init);
    assert links[..|links| - 1] == init;
    assert LinkLines(links) == LinkLines(init) + LinkStep(cur, link);
    RowsAppend(LinkLines(init), LinkStep(cur, link));
    HeaderWhereOpened(cur, link);
  }

  /** The section structure of the link lines: headers are non-empty titles,
      no two neighbours alike, the last one the tracked section, and one
      blank line before every header but the first. */
  lemma Sections(links: seq<LinkConfig>)
    ensures var h := Headers(LinkLines(links));
      (forall i :: 0 <= i < |h| ==> h[i] != "") &&
      (forall i :: 0 < i < |h| ==> h[i - 1] != h[i]) &&
      (Tracked(links) == if h == [] then None else Some(h[|h| - 1])) &&
      Blanks(LinkLines(links)) == (if h == [] then 0 else |h| - 1)
  {
    HeadersNonEmpty(links);
    HeadersChange(links);
    HeadersTracked(links);
    BlanksBetween(links);
  }

  /** Headers come only from titled links: with no titles the link lines are
      exactly the rows. */
  lemma {:induction false} NoTitles(links: seq<LinkConfig>)
    requires forall i :: 0 <= i < |links| ==> links[i].title == ""
    ensures LinkLines(links) == seq(|links|, i requires 0 <= i < |links| => Row(links[i]))
  {
    if links != [] {
      NoTitles(links[..|links| - 1]);
    }
  }

  lemma Single(line: Line)
    ensures Rows([line]) == if line.Row? then [line.link] else []
    ensures Headers([line]) == if line.Header? then [line.title] else []
    ensures Blanks([line]) == if line == Blank then 1 else 0
  {
    assert [line][..0] == [];
  }

  /** Each header is emitted exactly where a link opens a section, after a
      blank line when a section came before. */
  lemma HeaderWhereOpened(current: Option<string>, link: LinkConfig)
    ensures Headers(LinkStep(current, link)) == if Opens(current, link) then [link.title] else []
    ensures Blanks(LinkStep(current, link)) == if Opens(current, link) && current.Some? then 1 else 0
    ensures Rows(LinkStep(current, link)) == [link]
  {
    Single(Row(link));
    Single(Header(link.title));
    Single(Blank);
    if Opens(current, link) {
      var pre := (if current.Some? then [Blank] else []) + [Header(link.title)];
      assert LinkStep(current, link) == pre + [Row(link)];
      RowsAppend(pre, [Row(link)]);
      if current.Some? {
        RowsAppend([Blank], [Header(link.title)]);
      } else {
        assert pre == [Header(link.title)];
      }
    } else {
      assert LinkStep(current, link) == [Row(link)];
    }
  }

  // ---------------------------------------------------------------------
  // Escapes in the content

  /** Text fields a terminal shows literally: no escape character. */
  predicate SafeLink(link: LinkConfig)
  {
    ESC !in link.title && ESC !in link.caption && ESC !in link.url
    && ESC !in link.emoji && ESC !in link.displayText
  }

  /** Every content line is a well-formed piece list when the texts are. */
  lemma LinePiecesWellFormed(line: Line, name: string, title: string, labelWidth: int)
    requires ESC !in name && ESC !in title
    requires line.Header? ==> ESC !in line.title
    requires line.Row? ==> SafeLink(line.link)
    ensures WellFormed(LinePieces(line, name, title, labelWidth))
  {
    match line
    case Row(l) =>
      LinkPiecesVisible(l.emoji, l.caption, GetFinalUrl(l), l.displayText, Some(labelWidth));
    case Header(t) =>
      assert ESC !in "  " + t;
    case NameLine =>
      assert WellFormed([Text("I'm ")] + Bold([Text(name)]));
    case _ =>
  }

  /** Every line of the layout carries only safe text. */
  lemma {:induction false} LayoutSafe(links: seq<LinkConfig>, k: nat)
    requires forall i :: 0 <= i < |links| ==> SafeLink(links[i])
    requires k < |LinkLines(links)|
    ensures LinkLines(links)[k].Header? ==> ESC !in LinkLines(links)[k].title
    ensures LinkLines(links)[k].Row? ==> SafeLink(LinkLines(links)[k].link)
  {
    var init := links[..|links| - 1];
    if k < |LinkLines(init)| {
      LayoutSafe(init, k);
    }
  }

  /** Every link row is a hyperlink to the link's resolved URL around
      exactly its display text. */
  lemma RowLinksTo(l: LinkConfig, name: string, title: string, w: int)
    ensures var ps := LinePieces(Row(l), name, title, w);
      exists j :: 0 <= j < |ps| - 1 && ps[j] == Hyperlink(GetFinalUrl(l)) && NoLinks(ps[..j]) &&
        Visible(ps[j + 1..|ps| - 1]) == l.displayText && NoLinks(ps[j + 1..|ps| - 1]) &&
        ps[|ps| - 1] == Hyperlink([])
  {
    LinkTarget(l.emoji, l.caption, GetFinalUrl(l), l.displayText, Some(w));
    assert LinePieces(Row(l), name, title, w)
        == LinkPieces(l.emoji, l.caption, GetFinalUrl(l), l.displayText, Some(w));
  }

  lemma RowIsFormatLink(l: LinkConfig, name: string, title: string, w: int)
    ensures RenderLine(Row(l), name, title, w)
         == FormatLink(l.emoji, l.caption, GetFinalUrl(l), l.displayText, Some(w))
  {
    var ps := LinkPieces(l.emoji, l.caption, GetFinalUrl(l), l.displayText, Some(w));
    assert LinePieces(Row(l), name, title, w) == ps;
    assert FormatLink(l.emoji, l.caption, GetFinalUrl(l), l.displayText, Some(w)) == Render(ps);
  }

  /** With a label column as wide as the widest label, every link row shows
      its display text at the same column, `labelWidth + 2`. */
  lemma RowColumn(links: seq<LinkConfig>, i: nat, name: string, title: string)
    requires forall j :: 0 <= j < |links| ==> SafeLink(links[j])
    requires i < |links|
    ensures var l := links[i];
      var w := MaxLabelWidth(links);
      var v := Stripped(RenderLine(Row(l), name, title, w));
      |l.emoji| + 1 + |l.caption| <= w &&
      |v| == w + 2 + |l.displayText| && v[w + 2..] == l.displayText &&
      v[..|l.emoji| + 1 + |l.caption|] == LabelText(l)
  {
    var w := MaxLabelWidth(links);
    assert LabelWidths(links)[i] <= w;
    RowColumnAt(links[i], w, name, title);
  }

  /** A safe link's row, in a label column at least as wide as its label,
      shows the label and then the display text at column `w + 2`. */
  lemma RowColumnAt(l: LinkConfig, w: nat, name: string, title: string)
    requires SafeLink(l) && LabelWidth(l) <= w
    ensures var v := Stripped(RenderLine(Row(l), name, title, w));
      |l.emoji| + 1 + |l.caption| <= w &&
      |v| == w + 2 + |l.displayText| && v[w + 2..] == l.displayText &&
      v[..|l.emoji| + 1 + |l.caption|] == LabelText(l)
  {
    PlainLabelWidth(l);
    var row := RenderLine(Row(l), name, title, w);
    var link := FormatLink(l.emoji, l.caption, GetFinalUrl(l), l.displayText, Some(w));
    RowIsFormatLink(l, name, title, w);
    assert row == link;
    LabelColumn(l.emoji, l.caption, GetFinalUrl(l), l.displayText, w);
    assert LabelText(l) == l.emoji + " " + l.caption;
  }
}
