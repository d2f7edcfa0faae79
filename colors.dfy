/** Colour parsing and interpolation: `parseHexColor` and `interpolateColor`
    of src/index.ts. */
module Colors {

  /** An RGB triple; the channels of every colour the card uses lie in 0..255. */
  datatype Color = Color(r: int, g: int, b: int)

  predicate InRange(c: Color)
  {
    0 <= c.r <= 255 && 0 <= c.g <= 255 && 0 <= c.b <= 255
  }

  predicate IsHexDigit(ch: char)
  {
    '0' <= ch <= '9' || 'a' <= ch <= 'f' || 'A' <= ch <= 'F'
  }

  /** The value `parseInt(_, 16)` gives a single hex digit, in either case. */
  function HexValue(ch: char): (v: nat)
    requires IsHexDigit(ch)
    ensures v < 16
  {
    if '0' <= ch <= '9' then ch as int - '0' as int
    else if 'a' <= ch <= 'f' then ch as int - 'a' as int + 10
    else ch as int - 'A' as int + 10
  }

  /** ASCII upper-casing of one character. */
  function UpperChar(ch: char): char
  {
    if 'a' <= ch <= 'z' then (ch as int - 'a' as int + 'A' as int) as char else ch
  }

  function UpperCase(s: string): (u: string)
    ensures |u| == |s|
    ensures forall i :: 0 <= i < |s| ==> u[i] == UpperChar(s[i])
  {
    if s == [] then [] else [UpperChar(s[0])] + UpperCase(s[1..])
  }

  /** The index of the first `#` in `s`. */
  function FirstHash(s: string): (k: nat)
    requires '#' in s
    ensures k < |s| && s[k] == '#' && '#' !in s[..k]
  {
    if s[0] == '#' then 0
    else
      var k := 1 + FirstHash(s[1..]);
      assert s[..k] == [s[0]] + s[1..][..k - 1];
      k
  }

  /** `s.replace("#", "")`: a string pattern replaces its first occurrence only. */
  function RemoveFirstHash(s: string): (r: string)
    ensures '#' in s ==> |r| == |s| - 1
    ensures '#' !in s ==> r == s
  {
    if s == [] then []
    else if s[0] == '#' then s[1..]
    else [s[0]] + RemoveFirstHash(s[1..])
  }

  /** The character `replace("#", "")` drops is the first `#`, and the
      characters around it keep their order. */
  lemma {:induction false} HashRemoved(s: string)
    requires '#' in s
    ensures RemoveFirstHash(s) == s[..FirstHash(s)] + s[FirstHash(s) + 1..]
  {
    if s[0] != '#' {
      var t := s[1..];
      HashRemoved(t);
      var k := FirstHash(t);
      assert s[..k + 1] == [s[0]] + t[..k] && s[k + 2..] == t[k + 1..];
    }
  }

  /** The hex digits after the `#` is dropped and the letters are upper-cased. */
  function Normalize(hex: string): string
  {
    UpperCase(RemoveFirstHash(hex))
  }

  /** The six digits read from: a 3-digit code has each digit doubled. */
  function Expand(n: string): (f: string)
    ensures |n| == 3 ==> |f| == 6 && forall i :: 0 <= i < 6 ==> f[i] == n[i / 2]
    ensures |n| != 3 ==> f == n
  {
    if |n| == 3 then [n[0], n[0], n[1], n[1], n[2], n[2]] else n
  }

  /** The characters `parseInt` reads are hex digits (so no channel is NaN). */
  predicate Parses(hex: string)
  {
    var f := Expand(Normalize(hex));
    |f| >= 6 ==> forall i :: 0 <= i < 6 ==> IsHexDigit(f[i])
  }

  function Byte(hi: char, lo: char): (v: int)
    requires IsHexDigit(hi) && IsHexDigit(lo)
  {
    16 * HexValue(hi) + HexValue(lo)
  }

  /** `parseHexColor`: six or more digits give the first three byte pairs,
      three digits are doubled first, anything shorter is black. */
  function ParseHexColor(hex: string): (c: Color)
    requires Parses(hex)
    ensures InRange(c)
    ensures |Normalize(hex)| == 3 ==>
      var n := Normalize(hex);
      IsHexDigit(n[0]) && IsHexDigit(n[1]) && IsHexDigit(n[2]) &&
      c == Color(17 * HexValue(n[0]), 17 * HexValue(n[1]), 17 * HexValue(n[2]))
    ensures |Normalize(hex)| < 6 && |Normalize(hex)| != 3 ==> c == Color(0, 0, 0)
  {
    var f := Expand(Normalize(hex));
    if |f| >= 6 then Color(Byte(f[0], f[1]), Byte(f[2], f[3]), Byte(f[4], f[5]))
    else Color(0, 0, 0)
  }

  // ---------------------------------------------------------------------
  // A formatter, the partner of the parser

  /** The upper-case hex digit of a value below 16. */
  function HexDigit(v: int): char
    requires 0 <= v < 16
  {
    if v < 10 then ('0' as int + v) as char else ('A' as int + v - 10) as char
  }

  /** The digit reads back as its value and is already upper case. */
  lemma HexDigitReads(v: int)
    requires 0 <= v < 16
    ensures var ch := HexDigit(v); IsHexDigit(ch) && HexValue(ch) == v && UpperChar(ch) == ch
  {
  }

  /** `#RRGGBB` for a colour in range. */
  function ToHex(c: Color): (s: string)
    requires InRange(c)
    ensures |s| == 7 && s[0] == '#'
  {
    ['#', HexDigit(c.r / 16), HexDigit(c.r % 16), HexDigit(c.g / 16), HexDigit(c.g % 16),
     HexDigit(c.b / 16), HexDigit(c.b % 16)]
  }

  /** Round trip: parsing the `#RRGGBB` form of a colour gives that colour. */
  lemma ParseToHex(c: Color)
    requires InRange(c)
    ensures Parses(ToHex(c)) && ParseHexColor(ToHex(c)) == c
  {
    HexDigitReads(c.r / 16);
    HexDigitReads(c.r % 16);
    HexDigitReads(c.g / 16);
    HexDigitReads(c.g % 16);
    HexDigitReads(c.b / 16);
    HexDigitReads(c.b % 16);
    var s := ToHex(c);
    assert RemoveFirstHash(s) == s[1..];
    var n := Normalize(s);
    assert n == s[1..];
  }

  lemma NormalizeHashed(d: string)
    requires '#' !in d
    ensures Normalize(['#'] + d) == UpperCase(d)
  {
    assert (['#'] + d)[1..] == d;
  }

  /** The 3-digit form `#abc` means the same colour as `#aabbcc`. */
  lemma ShortFormDoubles(a: char, b: char, c: char)
    requires IsHexDigit(a) && IsHexDigit(b) && IsHexDigit(c)
    ensures Parses(['#', a, b, c]) && Parses(['#', a, a, b, b, c, c])
    ensures ParseHexColor(['#', a, b, c]) == ParseHexColor(['#', a, a, b, b, c, c])
  {
    UpperDigit(a);
    UpperDigit(b);
    UpperDigit(c);
    ShortForm(a, b, c);
    LongForm(a, b, c);
  }

  lemma UpperDigit(ch: char)
    requires IsHexDigit(ch)
    ensures IsHexDigit(UpperChar(ch)) && HexValue(UpperChar(ch)) == HexValue(ch)
  {
  }

  lemma ShortForm(a: char, b: char, c: char)
    requires IsHexDigit(UpperChar(a)) && IsHexDigit(UpperChar(b)) && IsHexDigit(UpperChar(c))
    ensures Parses(['#', a, b, c])
    ensures ParseHexColor(['#', a, b, c])
         == Color(17 * HexValue(UpperChar(a)), 17 * HexValue(UpperChar(b)), 17 * HexValue(UpperChar(c)))
  {
    var short := [a, b, c];
    NormalizeHashed(short);
    assert ['#', a, b, c] == ['#'] + short;
    assert UpperCase(short) == [UpperChar(a), UpperChar(b), UpperChar(c)];
  }

  lemma LongForm(a: char, b: char, c: char)
    requires IsHexDigit(UpperChar(a)) && IsHexDigit(UpperChar(b)) && IsHexDigit(UpperChar(c))
    ensures Parses(['#', a, a, b, b, c, c])
    ensures ParseHexColor(['#', a, a, b, b, c, c])
         == Color(17 * HexValue(UpperChar(a)), 17 * HexValue(UpperChar(b)), 17 * HexValue(UpperChar(c)))
  {
    var long := [a, a, b, b, c, c];
    NormalizeHashed(long);
    assert ['#', a, a, b, b, c, c] == ['#'] + long;
    var A, B, C := UpperChar(a), UpperChar(b), UpperChar(c);
    var n := [A, A, B, B, C, C];
    assert UpperCase(long) == n;
    assert Expand(n) == n;
    assert Byte(A, A) == 17 * HexValue(A) && Byte(B, B) == 17 * HexValue(B) && Byte(C, C) == 17 * HexValue(C);
  }

  // ---------------------------------------------------------------------
  // Interpolation

  /** `Math.round(num / den)` for `den > 0`: the floor of `num / den + 1/2`,
      so halves round up. */
  function RoundDiv(num: int, den: int): (q: int)
    requires den > 0
    ensures 2 * den * q <= 2 * num + den < 2 * den * (q + 1)
  {
    (2 * num + den) / (2 * den)
  }

  /** One channel of `interpolateColor` at `t = j / m`:
      `Math.round(a + (b - a) * t)` computed exactly. */
  function Lerp(a: int, b: int, j: int, m: int): (v: int)
    requires m > 0
    ensures j == 0 ==> v == a
    ensures j == m ==> v == b
    ensures 0 <= j <= m ==> (a <= v <= b || b <= v <= a)
  {
    var v := RoundDiv(a * m + (b - a) * j, m);
    LerpBounds(a, b, j, m, v);
    v
  }

  lemma LerpBounds(a: int, b: int, j: int, m: int, v: int)
    requires m > 0
    requires 2 * m * v <= 2 * (a * m + (b - a) * j) + m < 2 * m * (v + 1)
    ensures j == 0 ==> v == a
    ensures j == m ==> v == b
    ensures 0 <= j <= m ==> (a <= v <= b || b <= v <= a)
  {
    if j == 0 {
      RoundedIs(a, m, v);
    }
    if j == m {
      LerpAtEnd(a, b, m, v);
    }
    if 0 <= j <= m {
      LerpBetween(a, b, j, m, v);
    }
  }

  lemma LerpAtEnd(a: int, b: int, m: int, v: int)
    requires m > 0
    requires 2 * m * v <= 2 * (a * m + (b - a) * m) + m < 2 * m * (v + 1)
    ensures v == b
  {
    Distribute(a, b, m);
    RoundedIs(b, m, v);
  }

  lemma LerpBetween(a: int, b: int, j: int, m: int, v: int)
    requires 0 <= j <= m && m > 0
    requires 2 * m * v <= 2 * (a * m + (b - a) * j) + m < 2 * m * (v + 1)
    ensures a <= v <= b || b <= v <= a
  {
    var x := a * m + (b - a) * j;
    Distribute(a, b, m);
    if a <= b {
      MulMono(b - a, j, m);
      RoundedBetween(a, b, m, x, v);
    } else {
      MulMono(a - b, j, m);
      assert (a - b) * j == -((b - a) * j) && (a - b) * m == -((b - a) * m);
      RoundedBetween(b, a, m, x, v);
    }
  }

  lemma Distribute(a: int, b: int, m: int)
    ensures a * m + (b - a) * m == b * m
  {
  }



  lemma MulMono(d: int, j: int, m: int)
    requires d >= 0 && 0 <= j <= m
    ensures 0 <= d * j <= d * m
  {
  }

  lemma MulLe(d: int, x: int, y: int)
    requires d > 0 && x <= y
    ensures d * x <= d * y
  {
  }

  lemma RoundedIs(a: int, m: int, v: int)
    requires m > 0
    requires 2 * m * v <= 2 * a * m + m < 2 * m * (v + 1)
    ensures v == a
  {
    RoundedBetween(a, a, m, a * m, v);
  }

  lemma RoundedBetween(lo: int, hi: int, m: int, x: int, v: int)
    requires m > 0 && lo * m <= x <= hi * m
    requires 2 * m * v <= 2 * x + m < 2 * m * (v + 1)
    ensures lo <= v <= hi
  {
    if v < lo {
      MulLe(2 * m, v + 1, lo);
    }
    if v > hi {
      MulLe(2 * m, hi + 1, v);
    }
  }

  /** `interpolateColor(c1, c2, j / m)`: each channel independently. */
  function Interpolate(c1: Color, c2: Color, j: int, m: int): (c: Color)
    requires m > 0
    ensures j == 0 ==> c == c1
    ensures j == m ==> c == c2
    ensures 0 <= j <= m && InRange(c1) && InRange(c2) ==> InRange(c)
  {
    Color(Lerp(c1.r, c2.r, j, m), Lerp(c1.g, c2.g, j, m), Lerp(c1.b, c2.b, j, m))
  }
}
