/** The styling calls made on the `chalk` library, seen from outside: each
    wraps its text in an opening and a closing SGR sequence. Which bytes chalk
    picks for a terminal is not modelled; the truecolor form is used. */
module Chalk {
  import opened Ansi
  import opened Colors

  predicate IsParams(s: string)
  {
    forall i :: 0 <= i < |s| ==> IsParamChar(s[i])
  }

  /** Styling adds no visible text and keeps a well-formed string well-formed. */
  function Wrap(open: string, close: string, ps: seq<Piece>): (r: seq<Piece>)
    ensures Visible(r) == Visible(ps)
    ensures IsParams(open) && IsParams(close) && WellFormed(ps) ==> WellFormed(r)
    ensures NoLinks(ps) ==> NoLinks(r)
  {
    VisibleAppend([Sgr(open)], ps);
    VisibleAppend([Sgr(open)] + ps, [Sgr(close)]);
    assert Visible([Sgr(open)]) == [] + Visible([]);
    assert Visible([Sgr(close)]) == [] + Visible([]);
    [Sgr(open)] + ps + [Sgr(close)]
  }

  function Green(ps: seq<Piece>): seq<Piece> { Wrap("32", "39", ps) }
  function Yellow(ps: seq<Piece>): seq<Piece> { Wrap("33", "39", ps) }
  function Blue(ps: seq<Piece>): seq<Piece> { Wrap("34", "39", ps) }
  function Cyan(ps: seq<Piece>): seq<Piece> { Wrap("36", "39", ps) }
  function Bold(ps: seq<Piece>): seq<Piece> { Wrap("1", "22", ps) }
  function Underline(ps: seq<Piece>): seq<Piece> { Wrap("4", "24", ps) }

  function Digits(n: nat): (s: string)
    ensures |s| >= 1 && IsParams(s)
  {
    if n < 10 then [('0' as int + n) as char]
    else Digits(n / 10) + [('0' as int + n % 10) as char]
  }

  /** A channel as chalk writes it in decimal; a negative one carries a sign. */
  function Decimal(n: int): (s: string)
    ensures n >= 0 ==> IsParams(s)
  {
    if n < 0 then ['-'] + Digits(-n) else Digits(n)
  }

  function RgbParams(c: Color): (s: string)
    ensures InRange(c) ==> IsParams(s)
  {
    "38;2;" + Decimal(c.r) + ";" + Decimal(c.g) + ";" + Decimal(c.b)
  }

  /** `chalk.rgb(r, g, b)(text)`. */
  function Rgb(c: Color, ps: seq<Piece>): (r: seq<Piece>)
    ensures Visible(r) == Visible(ps)
    ensures InRange(c) && WellFormed(ps) ==> WellFormed(r)
  {
    Wrap(RgbParams(c), "39", ps)
  }
}
