/** Escape-sequence-aware width measurement: the `stripAnsi` helper of src/index.ts
    and the escape pieces out of which every styled string of the card is built. */
module Ansi {

  /** The escape character, 0x1B. */
  const ESC: char := '\U{1B}'

  /** `ESC ] 8 ; ;`, the opening of an OSC 8 hyperlink sequence. */
  const OscPrefix: string := [ESC, ']', '8', ';', ';']

  /** `ESC \`, the string terminator that closes an OSC 8 sequence. */
  const Terminator: string := [ESC, '\\']

  predicate IsParamChar(c: char) { '0' <= c <= '9' || c == ';' }

  predicate IsLetter(c: char) { 'a' <= c <= 'z' || 'A' <= c <= 'Z' }

  /** Index of the first ESC in `s`, or `|s|` when there is none. */
  function EscIndex(s: string): (n: nat)
    ensures n <= |s|
    ensures n < |s| ==> s[n] == ESC
    ensures forall i :: 0 <= i < n ==> s[i] != ESC
  {
    if s == [] || s[0] == ESC then 0 else 1 + EscIndex(s[1..])
  }

  /** Length of the longest prefix of `s` made of digits and semicolons. */
  function ParamRun(s: string): (n: nat)
    ensures n <= |s|
    ensures n < |s| ==> !IsParamChar(s[n])
    ensures forall i :: 0 <= i < n ==> IsParamChar(s[i])
  {
    if s != [] && IsParamChar(s[0]) then 1 + ParamRun(s[1..]) else 0
  }

  /** The three patterns that `stripAnsi` removes, one global replace each. */
  datatype Shape =
    | HyperlinkOpen   // ESC ]8;; [^ESC]* ESC \
    | HyperlinkClose  // ESC ]8;; ESC \
    | Style           // ESC [ [0-9;]* [a-zA-Z]

  /** `s[..m]` matches `ESC ]8;; [^ESC]* ESC \`. */
  predicate OpenAt(s: string, m: int)
  {
    7 <= m <= |s| && s[..5] == OscPrefix && s[m - 2] == ESC && s[m - 1] == '\\' &&
    forall i :: 5 <= i < m - 2 ==> s[i] != ESC
  }

  /** `s[..m]` matches `ESC ]8;; ESC \`. */
  predicate CloseAt(s: string, m: int)
  {
    m == 7 && 7 <= |s| && s[..7] == OscPrefix + Terminator
  }

  /** `s[..m]` matches `ESC [ [0-9;]* [a-zA-Z]`. */
  predicate StyleAt(s: string, m: int)
  {
    3 <= m <= |s| && s[0] == ESC && s[1] == '[' && IsLetter(s[m - 1]) &&
    forall i :: 2 <= i < m - 1 ==> IsParamChar(s[i])
  }

  /** `s[..m]` matches the pattern of `k`. */
  predicate MatchesAt(k: Shape, s: string, m: int)
  {
    match k
    case HyperlinkOpen => OpenAt(s, m)
    case HyperlinkClose => CloseAt(s, m)
    case Style => StyleAt(s, m)
  }

  /** Length of the match of `k` that starts at the first character of `s`,
      or 0 when no match starts there. Each pattern has at most one match at
      a given position, so this is the match the regular expression finds. */
  function MatchLen(k: Shape, s: string): (n: nat)
    ensures n == 0 || 2 <= n <= |s|
    ensures n > 0 ==> s[0] == ESC
    ensures forall m :: MatchesAt(k, s, m) <==> n > 0 && m == n
  {
    match k
    case HyperlinkOpen => OpenMatchLen(s)
    case HyperlinkClose => CloseMatchLen(s)
    case Style => StyleMatchLen(s)
  }

  /** `ESC ]8;; [^ESC]* ESC \`: the url runs to the first ESC, which must be
      followed by a backslash. */
  function OpenMatchLen(s: string): (n: nat)
    ensures n == 0 || 2 <= n <= |s|
    ensures n > 0 ==> s[0] == ESC
    ensures forall m :: OpenAt(s, m) <==> n > 0 && m == n
  {
    if |s| >= 5 && s[..5] == OscPrefix then
      var e := 5 + EscIndex(s[5..]);
      OpenAtExactly(s, e);
      if e + 1 < |s| && s[e + 1] == '\\' then e + 2 else 0
    else 0
  }

  /** The `[^ESC]*` run is forced to end at the first ESC after the prefix,
      so an opener match, if any, ends two characters after it. */
  lemma OpenAtExactly(s: string, e: nat)
    requires |s| >= 5 && s[..5] == OscPrefix && e == 5 + EscIndex(s[5..])
    ensures forall m :: OpenAt(s, m) <==> e + 1 < |s| && s[e + 1] == '\\' && m == e + 2
  {
    if e + 1 < |s| && s[e + 1] == '\\' {
      forall i | 5 <= i < e
        ensures s[i] != ESC
      {
        assert s[5..][i - 5] == s[i];
      }
      assert s[5..][e - 5] == s[e];
    }
  }

  /** `ESC ]8;; ESC \`. */
  function CloseMatchLen(s: string): (n: nat)
    ensures n == 0 || 2 <= n <= |s|
    ensures n > 0 ==> s[0] == ESC
    ensures forall m :: CloseAt(s, m) <==> n > 0 && m == n
  {
    if |s| >= 7 && s[..7] == OscPrefix + Terminator then 7 else 0
  }

  /** `ESC [ [0-9;]* [a-zA-Z]`: the parameters are the longest run of digits
      and semicolons, which must be followed by a letter. */
  function StyleMatchLen(s: string): (n: nat)
    ensures n == 0 || 2 <= n <= |s|
    ensures n > 0 ==> s[0] == ESC
    ensures forall m :: StyleAt(s, m) <==> n > 0 && m == n
  {
    if |s| >= 2 && s[0] == ESC && s[1] == '[' then
      var e := 2 + ParamRun(s[2..]);
      StyleAtExactly(s, e);
      if e < |s| && IsLetter(s[e]) then e + 1 else 0
    else 0
  }

  /** No letter is a digit or `;`, so the `[0-9;]*` run is the longest one
      and a control-sequence match, if any, ends just after it. */
  lemma StyleAtExactly(s: string, e: nat)
    requires |s| >= 2 && s[0] == ESC && s[1] == '[' && e == 2 + ParamRun(s[2..])
    ensures forall m :: StyleAt(s, m) <==> e < |s| && IsLetter(s[e]) && m == e + 1
  {
    if e < |s| && IsLetter(s[e]) {
      forall i | 2 <= i < e
        ensures IsParamChar(s[i])
      {
        assert s[2..][i - 2] == s[i];
      }
    }
  }

  /** `s.replace(pattern, "")` with the global flag: a left-to-right scan that
      drops each leftmost match and keeps every character no match covers. */
  function Remove(k: Shape, s: string): (r: string)
    ensures |r| <= |s|
    decreases |s|
  {
    if s == [] then []
    else
      var n := MatchLen(k, s);
      if n > 0 then Remove(k, s[n..]) else [s[0]] + Remove(k, s[1..])
  }

  /** One pass of the body of the `while (changed)` loop. */
  function Round(s: string): (r: string)
    ensures |r| <= |s|
  {
    Remove(Style, Remove(HyperlinkClose, Remove(HyperlinkOpen, s)))
  }

  /** A replace that removes nothing returns its input; otherwise it shortens it. */
  lemma {:induction false} RemoveChangesOnlyByShortening(k: Shape, s: string)
    ensures Remove(k, s) == s || |Remove(k, s)| < |s|
    decreases |s|
  {
    if s != [] && MatchLen(k, s) == 0 {
      RemoveChangesOnlyByShortening(k, s[1..]);
    }
  }

  /** A round either leaves the string as it is or strictly shortens it: the
      measure by which the `while (changed)` loop terminates. */
  lemma RoundChangesOnlyByShortening(s: string)
    ensures Round(s) == s || |Round(s)| < |s|
  {
    var s1 := Remove(HyperlinkOpen, s);
    var s2 := Remove(HyperlinkClose, s1);
    RemoveChangesOnlyByShortening(HyperlinkOpen, s);
    RemoveChangesOnlyByShortening(HyperlinkClose, s1);
    RemoveChangesOnlyByShortening(Style, s2);
  }

  /** The string `stripAnsi` returns: rounds are applied until one changes
      nothing. Each round that changes the string shortens it, which is the
      measure the recursion decreases. */
  function Stripped(s: string): string
    decreases |s|
  {
    var next := Round(s);
    RoundChangesOnlyByShortening(s);
    if next == s then s else Stripped(next)
  }

  /** `stripAnsi`: rewrite until the string stops changing. */
  method StripAnsi(str: string) returns (result: string)
    ensures result == Stripped(str)
  {
    result := str;
    var changed := true;
    while changed
      invariant Stripped(result) == Stripped(str)
      invariant !changed ==> Round(result) == result
      decreases |result| + (if changed then 1 else 0)
    {
      var before := result;
      RoundChangesOnlyByShortening(before);
      result := Remove(HyperlinkOpen, result);
      result := Remove(HyperlinkClose, result);
      result := Remove(Style, result);
      changed := before != result;
    }
  }

  /** What `stripAnsi` returns is no longer than its input, and a further
      round leaves it unchanged. */
  lemma {:induction false} StrippedFixed(s: string)
    ensures |Stripped(s)| <= |s|
    ensures Round(Stripped(s)) == Stripped(s)
    decreases |s|
  {
    RoundChangesOnlyByShortening(s);
    if Round(s) != s {
      StrippedFixed(Round(s));
    }
  }

  lemma StrippedIdempotent(s: string)
    ensures Stripped(Stripped(s)) == Stripped(s)
  {
    StrippedFixed(s);
  }

  /** A prefix without ESC is copied through by every global replace. */
  lemma {:induction false} RemoveKeepsEscFree(k: Shape, t: string, y: string)
    requires ESC !in t
    ensures Remove(k, t + y) == t + Remove(k, y)
    decreases |t|
  {
    if t == [] {
      assert t + y == y;
    } else {
      var s := t + y;
      assert s[0] == t[0] != ESC;
      assert s[1..] == t[1..] + y;
      assert ESC !in t[1..] by {
        forall i | 0 <= i < |t[1..]| ensures t[1..][i] != ESC { assert t[1..][i] == t[i + 1]; }
      }
      RemoveKeepsEscFree(k, t[1..], y);
      assert MatchLen(k, s) == 0;
      RemoveNoMatch(k, s);
      Regroup([t[0]], t[1..], Remove(k, y));
      assert [t[0]] + t[1..] == t;
    }
  }

  lemma RemoveNoMatch(k: Shape, s: string)
    requires s != [] && MatchLen(k, s) == 0
    ensures Remove(k, s) == [s[0]] + Remove(k, s[1..])
  {
  }

  /** A string without ESC is returned unchanged by `stripAnsi`. */
  lemma StrippedEscFree(s: string)
    requires ESC !in s
    ensures Stripped(s) == s
  {
    assert s + [] == s;
    RemoveKeepsEscFree(HyperlinkOpen, s, []);
    RemoveKeepsEscFree(HyperlinkClose, s, []);
    RemoveKeepsEscFree(Style, s, []);
  }

  // ---------------------------------------------------------------------
  // Strings built from escape pieces

  /** A piece of a styled string: plain text, an SGR style sequence
      `ESC [ params m`, or an OSC 8 hyperlink sequence `ESC ]8;; url ESC \`
      (an empty url is the hyperlink end). */
  datatype Piece = Text(text: string) | Sgr(params: string) | Hyperlink(url: string)

  function Emit(p: Piece): string
  {
    match p
    case Text(t) => t
    case Sgr(ps) => [ESC, '['] + ps + ['m']
    case Hyperlink(u) => OscPrefix + u + Terminator
  }

  function Render(ps: seq<Piece>): string
  {
    if ps == [] then [] else Emit(ps[0]) + Render(ps[1..])
  }

  /** The text a terminal shows: the `Text` pieces alone. */
  function Visible(ps: seq<Piece>): string
  {
    if ps == [] then []
    else (if ps[0].Text? then ps[0].text else []) + Visible(ps[1..])
  }

  predicate WellFormedPiece(p: Piece)
  {
    match p
    case Text(t) => ESC !in t
    case Sgr(ps) => forall i :: 0 <= i < |ps| ==> IsParamChar(ps[i])
    case Hyperlink(u) => ESC !in u
  }

  /** No hyperlink sequence among the pieces. */
  predicate NoLinks(ps: seq<Piece>)
  {
    forall i :: 0 <= i < |ps| ==> !ps[i].Hyperlink?
  }

  predicate WellFormed(ps: seq<Piece>)
  {
    forall i :: 0 <= i < |ps| ==> WellFormedPiece(ps[i])
  }

  lemma {:induction false} RenderAppend(a: seq<Piece>, b: seq<Piece>)
    ensures Render(a + b) == Render(a) + Render(b)
    decreases |a|
  {
    if a == [] {
      assert a + b == b;
    } else {
      assert (a + b)[1..] == a[1..] + b;
      RenderAppend(a[1..], b);
    }
  }

  lemma {:induction false} VisibleAppend(a: seq<Piece>, b: seq<Piece>)
    ensures Visible(a + b) == Visible(a) + Visible(b)
    decreases |a|
  {
    if a == [] {
      assert a + b == b;
    } else {
      assert (a + b)[1..] == a[1..] + b;
      VisibleAppend(a[1..], b);
    }
  }

  lemma WellFormedAppend(a: seq<Piece>, b: seq<Piece>)
    requires WellFormed(a) && WellFormed(b)
    ensures WellFormed(a + b)
  {
    forall i | 0 <= i < |a + b|
      ensures WellFormedPiece((a + b)[i])
    {
      if i >= |a| {
        assert (a + b)[i] == b[i - |a|];
      }
    }
  }

  /** Pieces that show nothing around a list leave its visible text alone. */
  lemma Framed(a: seq<Piece>, ps: seq<Piece>, b: seq<Piece>)
    requires Visible(a) == [] && Visible(b) == []
    ensures Visible(a + ps + b) == Visible(ps)
    ensures WellFormed(a) && WellFormed(ps) && WellFormed(b) ==> WellFormed(a + ps + b)
  {
    VisibleAppend(a, ps);
    VisibleAppend(a + ps, b);
  }

  /** Whether the global replace for `k` removes the whole of piece `p`. */
  predicate Removes(k: Shape, p: Piece)
  {
    match k
    case HyperlinkOpen => p.Hyperlink?
    case HyperlinkClose => p == Hyperlink([])
    case Style => p.Sgr?
  }

  function Keep(k: Shape, ps: seq<Piece>): (r: seq<Piece>)
    ensures WellFormed(ps) ==> WellFormed(r)
  {
    if ps == [] then []
    else (if Removes(k, ps[0]) then [] else [ps[0]]) + Keep(k, ps[1..])
  }

  /** No pattern matches at `ESC \`, and only the style pattern at `ESC [`. */
  lemma NoMatchAtEsc(k: Shape, s: string)
    requires |s| >= 2 && s[0] == ESC
    requires s[1] == '\\' || (s[1] == '[' && k != Style) || (s[1] == ']' && k == Style)
    ensures MatchLen(k, s) == 0
  {
    if |s| >= 5 {
      assert s[..5][1] == s[1];
    }
    if |s| >= 7 {
      assert s[..7][1] == s[1];
    }
  }

  lemma EscIndexAt(u: string, y: string)
    requires ESC !in u
    ensures EscIndex(u + [ESC] + y) == |u|
  {
    var s := u + [ESC] + y;
    assert s[|u|] == ESC;
  }

  lemma ParamRunAt(ps: string, y: string)
    requires forall i :: 0 <= i < |ps| ==> IsParamChar(ps[i])
    ensures ParamRun(ps + ['m'] + y) == |ps|
  {
    var s := ps + ['m'] + y;
    assert s[|ps|] == 'm';
  }

  lemma SgrBodyEscFree(ps: string)
    requires forall i :: 0 <= i < |ps| ==> IsParamChar(ps[i])
    ensures ESC !in ['['] + ps + ['m']
  {
    var inner := ['['] + ps + ['m'];
    forall i | 0 <= i < |inner| ensures inner[i] != ESC {
      if 0 < i < |inner| - 1 { assert inner[i] == ps[i - 1]; }
    }
  }

  lemma StyleMatchesSgr(ps: string, y: string)
    requires forall i :: 0 <= i < |ps| ==> IsParamChar(ps[i])
    ensures MatchLen(Style, Emit(Sgr(ps)) + y) == |ps| + 3
  {
    var s := Emit(Sgr(ps)) + y;
    assert s[2..] == ps + ['m'] + y;
    ParamRunAt(ps, y);
    assert s[2 + |ps|] == 'm';
  }

  lemma RemoveSgr(k: Shape, ps: string, y: string)
    requires forall i :: 0 <= i < |ps| ==> IsParamChar(ps[i])
    ensures Remove(k, Emit(Sgr(ps)) + y) == (if k == Style then [] else Emit(Sgr(ps))) + Remove(k, y)
  {
    if k == Style {
      RemoveSgrByStyle(ps, y);
    } else {
      RemoveSgrKept(k, ps, y);
    }
  }

  lemma RemoveSgrByStyle(ps: string, y: string)
    requires forall i :: 0 <= i < |ps| ==> IsParamChar(ps[i])
    ensures Remove(Style, Emit(Sgr(ps)) + y) == Remove(Style, y)
  {
    var s := Emit(Sgr(ps)) + y;
    StyleMatchesSgr(ps, y);
    assert s[|ps| + 3..] == y;
  }

  lemma RemoveSgrKept(k: Shape, ps: string, y: string)
    requires k != Style
    requires forall i :: 0 <= i < |ps| ==> IsParamChar(ps[i])
    ensures Remove(k, Emit(Sgr(ps)) + y) == Emit(Sgr(ps)) + Remove(k, y)
  {
    var inner := ['['] + ps + ['m'];
    SgrBodyEscFree(ps);
    SgrSplit(ps, y);
    var s := [ESC] + (inner + y);
    assert s[1] == '[';
    NoMatchAtEsc(k, s);
    RemovePastEsc(k, inner, y);
  }

  lemma SgrSplit(ps: string, y: string)
    ensures Emit(Sgr(ps)) == [ESC] + (['['] + ps + ['m'])
    ensures Emit(Sgr(ps)) + y == [ESC] + ((['['] + ps + ['m']) + y)
  {
  }

  lemma RemoveHyperlinkByOpen(u: string, y: string)
    requires ESC !in u
    ensures Remove(HyperlinkOpen, Emit(Hyperlink(u)) + y) == Remove(HyperlinkOpen, y)
  {
    var s := Emit(Hyperlink(u)) + y;
    assert s[..5] == OscPrefix;
    assert s[5..] == u + [ESC] + (['\\'] + y);
    EscIndexAt(u, ['\\'] + y);
    assert s[5 + |u| + 1] == '\\';
    assert MatchLen(HyperlinkOpen, s) == |u| + 7;
    assert s[|u| + 7..] == y;
  }

  lemma HyperlinkBodyEscFree(u: string)
    requires ESC !in u
    ensures ESC !in [']', '8', ';', ';'] + u
  {
    var mid := [']', '8', ';', ';'] + u;
    forall i | 0 <= i < |mid| ensures mid[i] != ESC {
      if i >= 4 { assert mid[i] == u[i - 4]; }
    }
  }

  /** The replace for `k` keeps the terminator `ESC \` and what follows it. */
  lemma RemoveKeepsTerminator(k: Shape, y: string)
    ensures Remove(k, Terminator + y) == Terminator + Remove(k, y)
  {
    var tail := Terminator + y;
    NoMatchAtEsc(k, tail);
    assert tail[1..] == ['\\'] + y;
    RemoveKeepsEscFree(k, ['\\'], y);
    Regroup([ESC], ['\\'], Remove(k, y));
  }

  lemma NoMatchAtKeptHyperlink(k: Shape, u: string, y: string)
    requires ESC !in u
    requires k == Style || (k == HyperlinkClose && u != [])
    ensures MatchLen(k, Emit(Hyperlink(u)) + y) == 0
  {
    var s := Emit(Hyperlink(u)) + y;
    if k == HyperlinkClose {
      assert s[5] == u[0];
      assert |s| >= 7 ==> s[..7][5] == u[0];
    } else {
      assert s[1] == ']';
      NoMatchAtEsc(k, s);
    }
  }

  lemma RemoveHyperlinkKept(k: Shape, u: string, y: string)
    requires ESC !in u
    requires k == Style || (k == HyperlinkClose && u != [])
    ensures Remove(k, Emit(Hyperlink(u)) + y) == Emit(Hyperlink(u)) + Remove(k, y)
  {
    var mid := [']', '8', ';', ';'] + u;
    HyperlinkBodyEscFree(u);
    NoMatchAtKeptHyperlink(k, u, y);
    HyperlinkSplit(u, y);
    RemovePastEsc(k, mid, Terminator + y);
    RemoveKeepsTerminator(k, y);
    var r := Remove(k, y);
    Regroup([ESC] + mid, Terminator, r);
  }

  /** Concatenation regrouped, stated once so that proofs about `Remove` need
      no extensionality argument of their own. */
  lemma Regroup(a: string, b: string, c: string)
    ensures a + (b + c) == a + b + c
  {
  }

  /** An ESC where nothing matches, and text without ESC after it, are kept. */
  lemma RemovePastEsc(k: Shape, mid: string, tail: string)
    requires ESC !in mid && MatchLen(k, [ESC] + (mid + tail)) == 0
    ensures Remove(k, [ESC] + (mid + tail)) == [ESC] + mid + Remove(k, tail)
  {
    var s := [ESC] + (mid + tail);
    RemoveNoMatch(k, s);
    assert s[1..] == mid + tail;
    RemoveKeepsEscFree(k, mid, tail);
    Regroup([ESC], mid, Remove(k, tail));
  }

  lemma HyperlinkSplit(u: string, y: string)
    ensures Emit(Hyperlink(u)) == [ESC] + ([']', '8', ';', ';'] + u) + Terminator
    ensures Emit(Hyperlink(u)) + y == [ESC] + (([']', '8', ';', ';'] + u) + (Terminator + y))
  {
    var m := [']', '8', ';', ';'] + u;
    assert OscPrefix == [ESC] + [']', '8', ';', ';'];
    Regroup([ESC], [']', '8', ';', ';'], u);
    Regroup([ESC], m, Terminator);
    Regroup(m, Terminator, y);
    Regroup([ESC], m + Terminator, y);
  }

  /** How one pass treats a piece followed by anything. */
  lemma RemoveEmit(k: Shape, p: Piece, y: string)
    requires WellFormedPiece(p)
    ensures Remove(k, Emit(p) + y) == (if Removes(k, p) then [] else Emit(p)) + Remove(k, y)
  {
    match p
    case Text(t) =>
      RemoveKeepsEscFree(k, t, y);
    case Sgr(ps) =>
      RemoveSgr(k, ps, y);
    case Hyperlink(u) =>
      if k == HyperlinkOpen {
        RemoveHyperlinkByOpen(u, y);
      } else if k == HyperlinkClose && u == [] {
        var s := Emit(p) + y;
        assert s[..7] == OscPrefix + Terminator;
        assert s[7..] == y;
      } else {
        RemoveHyperlinkKept(k, u, y);
      }
  }

  lemma {:induction false} RemoveRender(k: Shape, ps: seq<Piece>)
    requires WellFormed(ps)
    ensures Remove(k, Render(ps)) == Render(Keep(k, ps))
    decreases |ps|
  {
    if ps != [] {
      RemoveEmit(k, ps[0], Render(ps[1..]));
      RemoveRender(k, ps[1..]);
      var head := if Removes(k, ps[0]) then [] else [ps[0]];
      RenderAppend(head, Keep(k, ps[1..]));
      if head != [] {
        assert Render(head) == Emit(ps[0]) + Render(head[1..]);
        assert head[1..] == [];
      }
    }
  }

  /** After removing hyperlinks and styles only the visible text is left. */
  lemma {:induction false} KeptIsVisible(ps: seq<Piece>)
    ensures Render(Keep(Style, Keep(HyperlinkClose, Keep(HyperlinkOpen, ps)))) == Visible(ps)
    decreases |ps|
  {
    if ps != [] {
      var rest := ps[1..];
      KeptIsVisible(rest);
      var p := ps[0];
      var k1 := Keep(HyperlinkOpen, ps);
      assert k1 == (if p.Hyperlink? then [] else [p]) + Keep(HyperlinkOpen, rest);
      var h1 := if p.Hyperlink? then [] else [p];
      var r1 := Keep(HyperlinkOpen, rest);
      KeepAppend(HyperlinkClose, h1, r1);
      var h2 := Keep(HyperlinkClose, h1);
      var r2 := Keep(HyperlinkClose, r1);
      KeepAppend(Style, h2, r2);
      var h3 := Keep(Style, h2);
      RenderAppend(h3, Keep(Style, r2));
      if p.Text? {
        assert h1 == [p];
        assert h2 == [p] by { assert Keep(HyperlinkClose, [p]) == [p] + Keep(HyperlinkClose, []); }
        assert h3 == [p] by { assert Keep(Style, [p]) == [p] + Keep(Style, []); }
        assert Render(h3) == p.text + Render([]);
      } else if p.Sgr? {
        assert h2 == [p] by { assert Keep(HyperlinkClose, [p]) == [p] + Keep(HyperlinkClose, []); }
        assert h3 == [] by { assert Keep(Style, [p]) == [] + Keep(Style, []); }
      } else {
        assert h1 == [];
      }
    }
  }

  lemma {:induction false} KeepAppend(k: Shape, a: seq<Piece>, b: seq<Piece>)
    ensures Keep(k, a + b) == Keep(k, a) + Keep(k, b)
    decreases |a|
  {
    if a == [] {
      assert a + b == b;
    } else {
      assert (a + b)[1..] == a[1..] + b;
      KeepAppend(k, a[1..], b);
    }
  }

  lemma {:induction false} VisibleEscFree(ps: seq<Piece>)
    requires WellFormed(ps)
    ensures ESC !in Visible(ps)
    decreases |ps|
  {
    if ps != [] {
      VisibleEscFree(ps[1..]);
    }
  }

  /** The measurement the whole card relies on: stripping a well-formed
      rendered string leaves exactly its text pieces. */
  lemma StrippedRender(ps: seq<Piece>)
    requires WellFormed(ps)
    ensures Stripped(Render(ps)) == Visible(ps)
  {
    var s := Render(ps);
    RemoveRender(HyperlinkOpen, ps);
    var p1 := Keep(HyperlinkOpen, ps);
    RemoveRender(HyperlinkClose, p1);
    var p2 := Keep(HyperlinkClose, p1);
    RemoveRender(Style, p2);
    KeptIsVisible(ps);
    assert Round(s) == Visible(ps);
    VisibleEscFree(ps);
    StrippedEscFree(Visible(ps));
  }
}
