/** Gradient construction: `generateGradientFromColors` of src/index.ts. A
    gradient is the sequence of colours, one per border cell; the source keeps
    a colouring closure per cell, which applies exactly that colour. */
module Gradient {
  import opened Colors

  /** Entries given to segment `i` when `steps` are split over `count`
      segments, with `base = steps / count` and `rem = steps % count`: the
      remainder goes one each to the earliest segments. */
  function SegmentSize(base: nat, rem: nat, i: nat): nat
  {
    base + (if i < rem then 1 else 0)
  }

  /** `Math.min(Math.max(t, 0), 1)` for `t = j / m`, on the numerator. */
  function ClampNumerator(j: int, m: int): (k: int)
    requires m > 0
    ensures 0 <= k <= m
    ensures 0 <= j <= m ==> k == j
  {
    if j < 0 then 0 else if j > m then m else j
  }

  /** Colour `j` of a segment of `n > 0` entries: `t = j / (n - 1)`, or
      `t = 0` when the segment has a single entry. */
  function SegmentColor(start: Color, end: Color, j: nat, n: nat): Color
    requires j < n
  {
    if n > 1 then Interpolate(start, end, ClampNumerator(j, n - 1), n - 1)
    else Interpolate(start, end, 0, 1)
  }

  /** What one segment pushes: its `n` colours, or the start colour alone
      when `n` is 0. */
  function Segment(start: Color, end: Color, n: nat): (s: seq<Color>)
    ensures |s| == if n == 0 then 1 else n
  {
    if n > 0 then seq(n, j requires 0 <= j < n => SegmentColor(start, end, j, n))
    else [start]
  }

  /** The first `i` segments, pushed in order. */
  function Segments(colors: seq<Color>, base: nat, rem: nat, i: nat): seq<Color>
    requires i < |colors|
  {
    if i == 0 then []
    else
      Segments(colors, base, rem, i - 1)
      + Segment(colors[i - 1], colors[i], SegmentSize(base, rem, i - 1))
  }

  /** All segments for `steps` entries over the anchors. */
  function Raw(colors: seq<Color>, steps: nat): seq<Color>
    requires 1 < |colors|
  {
    var count := |colors| - 1;
    Segments(colors, steps / count, steps % count, count)
  }

  function Repeat(c: Color, n: nat): (s: seq<Color>)
    ensures |s| == n && forall i :: 0 <= i < n ==> s[i] == c
  {
    seq(n, _ => c)
  }

  /** The padding loop: append the last anchor until `steps` entries exist. */
  function Padded(raw: seq<Color>, last: Color, steps: nat): (s: seq<Color>)
    ensures |s| >= steps
  {
    if |raw| >= steps then raw else raw + Repeat(last, steps - |raw|)
  }

  /** The gradient `generateGradientFromColors` returns for parsed anchors. */
  function GradientOf(colors: seq<Color>, steps: nat): (g: seq<Color>)
    requires |colors| > 0
    ensures |g| == steps
  {
    if |colors| == 1 then Repeat(colors[0], steps)
    else Padded(Raw(colors, steps), colors[|colors| - 1], steps)[..steps]
  }

  predicate AllParse(hexes: seq<string>)
  {
    forall i :: 0 <= i < |hexes| ==> Parses(hexes[i])
  }

  function ParseAll(hexes: seq<string>): (cs: seq<Color>)
    requires AllParse(hexes)
    ensures |cs| == |hexes|
    ensures forall i :: 0 <= i < |cs| ==> InRange(cs[i]) && cs[i] == ParseHexColor(hexes[i])
  {
    seq(|hexes|, i requires 0 <= i < |hexes| => ParseHexColor(hexes[i]))
  }

  /** `generateGradientFromColors(colorHexes, steps)`. The anchors must be
      non-empty: with none and `steps > 0`, the padding loop never ends. */
  method GenerateGradient(colorHexes: seq<string>, steps: nat) returns (gradient: seq<Color>)
    requires |colorHexes| > 0 && AllParse(colorHexes)
    ensures gradient == GradientOf(ParseAll(colorHexes), steps)
  {
    var colors := ParseAll(colorHexes);
    gradient := [];

    if |colors| == 1 {
      var c := colors[0];
      for i := 0 to steps
        invariant gradient == Repeat(c, i)
      {
        gradient := gradient + [c];
      }
      return;
    }

    var count := |colors| - 1;
    DivMod(steps, count);
    var segmentSteps := steps / count;
    var remainder := steps % count;

    for i := 0 to count
      invariant gradient == Segments(colors, segmentSteps, remainder, i)
    {
      var currentSteps := segmentSteps + (if i < remainder then 1 else 0);
      gradient := PushSegment(gradient, colors[i], colors[i + 1], currentSteps);
    }

    gradient := PadTo(gradient, colors[|colors| - 1], steps);
    gradient := gradient[..steps];
  }

  /** One pass of the segment loop: `n` interpolated colours from `start`
      towards `end`, or `start` alone when `n` is 0. */
  method PushSegment(gradient: seq<Color>, start: Color, end: Color, n: nat)
    returns (g: seq<Color>)
    ensures g == gradient + Segment(start, end, n)
  {
    g := gradient;
    if n > 0 {
      for j := 0 to n
        invariant g == gradient + Segment(start, end, n)[..j]
      {
        var c;
        if n > 1 {
          c := Interpolate(start, end, ClampNumerator(j, n - 1), n - 1);
        } else {
          c := Interpolate(start, end, 0, 1);
        }
        assert Segment(start, end, n)[..j + 1] == Segment(start, end, n)[..j] + [c];
        g := g + [c];
      }
      assert Segment(start, end, n)[..n] == Segment(start, end, n);
    } else {
      g := g + [start];
    }
  }

  /** The padding loop: append `last` while fewer than `steps` entries exist. */
  method PadTo(raw: seq<Color>, last: Color, steps: nat) returns (g: seq<Color>)
    ensures g == Padded(raw, last, steps)
  {
    g := raw;
    while |g| < steps
      invariant |raw| <= |g|
      invariant g == raw + Repeat(last, |g| - |raw|)
      invariant |g| <= if |raw| < steps then steps else |raw|
      decreases steps - |g|
    {
      var k := |g| - |raw|;
      assert Repeat(last, k + 1) == Repeat(last, k) + [last];
      g := g + [last];
    }
    if |raw| >= steps {
      assert Repeat(last, 0) == [];
    }
  }

  // ---------------------------------------------------------------------
  // Properties

  /** The segment sizes add up to `steps`. */
  function SizeSum(base: nat, rem: nat, i: nat): nat
  {
    if i == 0 then 0 else SizeSum(base, rem, i - 1) + SegmentSize(base, rem, i - 1)
  }

  lemma {:induction false} SizeSumIs(base: nat, rem: nat, i: nat)
    ensures SizeSum(base, rem, i) == i * base + (if i < rem then i else rem)
  {
    if i > 0 {
      SizeSumIs(base, rem, i - 1);
      assert i * base == (i - 1) * base + base;
    }
  }

  lemma SegmentSizesAddUp(steps: nat, count: nat)
    requires count > 0
    ensures SizeSum(steps / count, steps % count, count) == steps
  {
    SizeSumIs(steps / count, steps % count, count);
  }

  /** Front-loading: an earlier segment is never smaller than a later one and
      at most one entry larger. */
  lemma SegmentSizesFrontLoaded(steps: nat, count: nat, i: nat, j: nat)
    requires count > 0 && i <= j < count
    ensures var base, rem := steps / count, steps % count;
      SegmentSize(base, rem, j) <= SegmentSize(base, rem, i) <= SegmentSize(base, rem, j) + 1
  {
  }

  /** How many colours the first `i` segments push: every segment at least one. */
  lemma {:induction false} SegmentsLength(colors: seq<Color>, base: nat, rem: nat, i: nat)
    requires i < |colors|
    ensures |Segments(colors, base, rem, i)| ==
        if base >= 1 then i * base + (if i < rem then i else rem) else i
  {
    if i > 0 {
      SegmentsLength(colors, base, rem, i - 1);
      assert i * base == (i - 1) * base + base;
    }
  }

  /** The segments push `max(steps, anchors - 1)` colours, so the padding loop
      never runs and the final slice drops the surplus of the size-0
      segments. */
  lemma RawLength(colors: seq<Color>, steps: nat)
    requires 1 < |colors|
    ensures |Raw(colors, steps)| == if steps >= |colors| - 1 then steps else |colors| - 1
  {
    var count := |colors| - 1;
    DivMod(steps, count);
    var base, rem := steps / count, steps % count;
    SegmentsLength(colors, base, rem, count);
    if base >= 1 {
      assert count * base >= count by { MulLe(count, 1, base); }
    } else {
      assert count * base == 0;
    }
  }

  lemma DivMod(n: nat, d: nat)
    requires d > 0
    ensures n == d * (n / d) + n % d && 0 <= n % d < d && n / d >= 0
  {
  }

  lemma MulLe(d: int, x: int, y: int)
    requires d > 0 && x <= y
    ensures d * x <= d * y
  {
  }

  /** A segment of two or more colours runs from its start anchor to its end
      anchor; a segment of size 0 or 1 is its start anchor alone. */
  lemma SegmentEnds(start: Color, end: Color, n: nat)
    ensures n <= 1 ==> Segment(start, end, n) == [start]
    ensures n >= 2 ==> Segment(start, end, n)[0] == start && Segment(start, end, n)[n - 1] == end
  {
    if n == 1 {
      assert Segment(start, end, n)[0] == Interpolate(start, end, 0, 1);
    }
    if n >= 2 {
      assert Segment(start, end, n)[n - 1] == Interpolate(start, end, n - 1, n - 1);
    }
  }

  /** Every interpolated colour has each channel between the anchors' channels. */
  lemma SegmentBetween(start: Color, end: Color, n: nat, j: nat)
    requires j < |Segment(start, end, n)|
    ensures var c := Segment(start, end, n)[j];
      (start.r <= c.r <= end.r || end.r <= c.r <= start.r) &&
      (start.g <= c.g <= end.g || end.g <= c.g <= start.g) &&
      (start.b <= c.b <= end.b || end.b <= c.b <= start.b)
  {
    if n > 1 {
      var k := ClampNumerator(j, n - 1);
      assert Segment(start, end, n)[j] == Interpolate(start, end, k, n - 1);
    } else if n == 1 {
      assert Segment(start, end, n)[j] == Interpolate(start, end, 0, 1);
    }
  }

  lemma SegmentInRange(start: Color, end: Color, n: nat)
    requires InRange(start) && InRange(end)
    ensures forall j :: 0 <= j < |Segment(start, end, n)| ==> InRange(Segment(start, end, n)[j])
  {
    forall j | 0 <= j < |Segment(start, end, n)|
      ensures InRange(Segment(start, end, n)[j])
    {
      SegmentBetween(start, end, n, j);
    }
  }

  lemma {:induction false} SegmentsInRange(colors: seq<Color>, base: nat, rem: nat, i: nat)
    requires i < |colors|
    requires forall k :: 0 <= k < |colors| ==> InRange(colors[k])
    ensures forall k :: 0 <= k < |Segments(colors, base, rem, i)| ==> InRange(Segments(colors, base, rem, i)[k])
  {
    if i > 0 {
      SegmentsInRange(colors, base, rem, i - 1);
      SegmentInRange(colors[i - 1], colors[i], SegmentSize(base, rem, i - 1));
    }
  }

  /** Anchors in 0..255 give a gradient in 0..255. */
  lemma GradientInRange(colors: seq<Color>, steps: nat)
    requires |colors| > 0
    requires forall k :: 0 <= k < |colors| ==> InRange(colors[k])
    ensures forall k :: 0 <= k < steps ==> InRange(GradientOf(colors, steps)[k])
  {
    if |colors| > 1 {
      var count := |colors| - 1;
      SegmentsInRange(colors, steps / count, steps % count, count);
      RawLength(colors, steps);
    }
  }

  lemma {:induction false} SegmentsPrefix(colors: seq<Color>, base: nat, rem: nat, i: nat, j: nat)
    requires i <= j < |colors|
    ensures Segments(colors, base, rem, i) <= Segments(colors, base, rem, j)
    decreases j - i
  {
    if i < j {
      SegmentsPrefix(colors, base, rem, i, j - 1);
    }
  }

  /** Segment `i` occupies the entries of the raw gradient that follow the
      first `i` segments. */
  lemma SegmentPlacement(colors: seq<Color>, steps: nat, i: nat, j: nat)
    requires 1 < |colors| && i < |colors| - 1
    requires var count := |colors| - 1;
      j < |Segment(colors[i], colors[i + 1], SegmentSize(steps / count, steps % count, i))|
    ensures var count := |colors| - 1;
      var offset := |Segments(colors, steps / count, steps % count, i)|;
      offset + j < |Raw(colors, steps)| &&
      Raw(colors, steps)[offset + j]
        == Segment(colors[i], colors[i + 1], SegmentSize(steps / count, steps % count, i))[j]
  {
    var count := |colors| - 1;
    SegmentsPrefix(colors, steps / count, steps % count, i + 1, count);
  }

  /** With one anchor, every entry is that anchor. */
  lemma SingleAnchor(c: Color, steps: nat)
    ensures forall k :: 0 <= k < steps ==> GradientOf([c], steps)[k] == c
  {
  }

  /** The first entry is the first anchor. */
  lemma GradientFirst(colors: seq<Color>, steps: nat)
    requires |colors| > 0 && steps >= 1
    ensures GradientOf(colors, steps)[0] == colors[0]
  {
    if |colors| > 1 {
      var count := |colors| - 1;
      var n := SegmentSize(steps / count, steps % count, 0);
      SegmentEnds(colors[0], colors[1], n);
      assert Segment(colors[0], colors[1], n)[0] == colors[0];
      assert |Segments(colors, steps / count, steps % count, 0)| == 0;
      SegmentPlacement(colors, steps, 0, 0);
      GradientAt(colors, steps, 0);
    }
  }

  /** Below `steps`, the gradient of two or more anchors is the raw
      segments followed by copies of the last anchor. */
  lemma GradientAt(colors: seq<Color>, steps: nat, k: nat)
    requires 1 < |colors| && k < steps
    ensures k < |Raw(colors, steps)| ==> GradientOf(colors, steps)[k] == Raw(colors, steps)[k]
    ensures k >= |Raw(colors, steps)| ==> GradientOf(colors, steps)[k] == colors[|colors| - 1]
  {
    var raw := Raw(colors, steps);
    var p := Padded(raw, colors[|colors| - 1], steps);
    assert GradientOf(colors, steps)[k] == p[k];
  }

  /** Once every segment holds at least two entries, the last entry is the
      last anchor. */
  lemma GradientLast(colors: seq<Color>, steps: nat)
    requires |colors| > 0 && steps >= 1 && steps >= 2 * (|colors| - 1)
    ensures GradientOf(colors, steps)[steps - 1] == colors[|colors| - 1]
  {
    if |colors| > 1 {
      var count := |colors| - 1;
      var base, rem := steps / count, steps % count;
      var i := count - 1;
      var n := SegmentSize(base, rem, i);
      assert steps == count * base + rem;
      assert base >= 2;
      assert n == base;
      RawLength(colors, steps);
      SegmentsLength(colors, base, rem, i);
      assert |Segments(colors, base, rem, i)| == i * base + rem;
      assert i * base + base == count * base;
      SegmentEnds(colors[i], colors[i + 1], n);
      SegmentPlacement(colors, steps, i, n - 1);
    }
  }

  /** Two anchors and three steps: white, mid-grey, black. */
  lemma WhiteToBlack()
    ensures GradientOf([Color(255, 255, 255), Color(0, 0, 0)], 3)
         == [Color(255, 255, 255), Color(128, 128, 128), Color(0, 0, 0)]
  {
    var cs := [Color(255, 255, 255), Color(0, 0, 0)];
    assert Raw(cs, 3) == Segments(cs, 3, 0, 1) == Segment(cs[0], cs[1], 3);
    assert Segment(cs[0], cs[1], 3)[1] == Interpolate(cs[0], cs[1], 1, 2);
  }
}
