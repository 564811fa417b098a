/** Terminal text layout by display width (app/cli_ui.py): the width of a
    string once ANSI colour codes are removed, padding and centring to a
    width, and wrapping into lines that fit. How wide a character is comes
    from the Unicode character database; here it is a parameter, a
    classifier of characters. */
module CliUi {
  import opened Basics
  import opened Text
  import opened Seqs

  /** `unicodedata.combining(ch) != 0`, East Asian width W or F, or any
      other character. */
  datatype CharClass = Combining | Wide | Narrow

  /** The columns a character takes: none, two, or one. */
  function CharWidth(cls: CharClass): nat {
    match cls
    case Combining => 0
    case Wide => 2
    case Narrow => 1
  }

  /** The sum of the character widths of `s`, with no ANSI handling. */
  function WidthSum(s: string, classify: char -> CharClass): nat
    decreases |s|
  {
    if s == [] then 0 else WidthSum(s[..|s| - 1], classify) + CharWidth(classify(s[|s| - 1]))
  }

  lemma {:induction false} WidthSumAppend(a: string, b: string, classify: char -> CharClass)
    ensures WidthSum(a + b, classify) == WidthSum(a, classify) + WidthSum(b, classify)
    decreases |b|
  {
    if b != [] {
      var ab := a + b;
      var front := b[..|b| - 1];
      assert ab[..|ab| - 1] == a + front;
      assert ab[|ab| - 1] == b[|b| - 1];
      WidthSumAppend(a, front, classify);
      assert WidthSum(ab, classify) == WidthSum(a + front, classify) + CharWidth(classify(b[|b| - 1]));
    } else {
      assert a + b == a;
    }
  }

  // ---------------------------------------------------------------------
  // `ANSI_RE = \x1b\[[0-9;]*m` and `_strip_ansi`

  const Esc: char := '\U{1B}'

  predicate IsParam(c: char) {
    '0' <= c <= '9' || c == ';'
  }

  /** The end of the run of parameter characters starting at `k`. */
  function ParamsEnd(s: string, k: nat): (r: nat)
    requires k <= |s|
    ensures k <= r <= |s|
    decreases |s| - k
  {
    if k < |s| && IsParam(s[k]) then ParamsEnd(s, k + 1) else k
  }

  /** The end of an SGR sequence starting at the front of `s`, if one does.
      The parameter class excludes `m`, so the longest run of parameters is
      the only one that can be followed by `m`. */
  function AnsiEnd(s: string): (r: Option<nat>)
    ensures r.Some? ==> 3 <= r.value <= |s|
  {
    if |s| >= 2 && s[0] == Esc && s[1] == '[' then
      var j := ParamsEnd(s, 2);
      if j < |s| && s[j] == 'm' then Some(j + 1) else None
    else None
  }

  /** Where the scan resumes after the front of `s`: past an SGR sequence,
      or past one kept character. */
  function NextStart(s: string): (r: nat)
    requires s != []
    ensures 1 <= r <= |s|
  {
    match AnsiEnd(s)
    case Some(e) => e
    case None => 1
  }

  /** What the front of `s` contributes: nothing for an SGR sequence, else
      its first character. */
  function Kept(s: string): string
    requires s != []
  {
    if AnsiEnd(s).Some? then [] else [s[0]]
  }

  /** `ANSI_RE.sub("", s)`: matches are removed left to right. */
  function StripAnsi(s: string): (r: string)
    ensures |r| <= |s|
    decreases |s|
  {
    if s == [] then [] else Kept(s) + StripAnsi(s[NextStart(s)..])
  }

  /** `_display_width`, as a specification. */
  function DisplayWidthOf(s: string, classify: char -> CharClass): nat {
    WidthSum(StripAnsi(s), classify)
  }

  /** `_display_width`: one pass over the text without colour codes. */
  method DisplayWidth(s: string, classify: char -> CharClass) returns (w: nat)
    ensures w == DisplayWidthOf(s, classify)
  {
    var t := StripAnsi(s);
    w := 0;
    for i := 0 to |t|
      invariant w == WidthSum(t[..i], classify)
    {
      assert t[..i + 1][..i] == t[..i];
      w := w + CharWidth(classify(t[i]));
    }
    assert t[..|t|] == t;
  }

  // ---------------------------------------------------------------------
  // Colour codes never span a space

  lemma {:induction false} ParamsEndBeforeSpace(a: string, rest: string, k: nat)
    requires k <= |a| && rest != [] && rest[0] == ' '
    ensures ParamsEnd(a + rest, k) == ParamsEnd(a, k)
    decreases |a| - k
  {
    if k < |a| && IsParam(a[k]) {
      ParamsEndBeforeSpace(a, rest, k + 1);
    }
  }

  /** A sequence found at the front of `a + rest`, where `rest` starts with a
      space, lies within `a`, and is found in `a` too. */
  lemma AnsiEndBeforeSpace(a: string, rest: string)
    requires rest != [] && rest[0] == ' '
    ensures AnsiEnd(a + rest) == AnsiEnd(a)
    ensures AnsiEnd(a).Some? ==> AnsiEnd(a).value <= |a|
  {
    var s := a + rest;
    if |a| >= 2 {
      assert s[0] == a[0] && s[1] == a[1];
      ParamsEndBeforeSpace(a, rest, 2);
      var j := ParamsEnd(a, 2);
      if j < |a| {
        assert s[j] == a[j];
      } else {
        assert s[j] == ' ';
      }
    } else if |a| == 1 {
      assert s[1] == ' ';
    }
  }

  lemma FrontBeforeSpace(a: string, rest: string)
    requires a != [] && rest != [] && rest[0] == ' '
    ensures Kept(a + rest) == Kept(a)
    ensures NextStart(a + rest) == NextStart(a)
    ensures (a + rest)[NextStart(a)..] == a[NextStart(a)..] + rest
  {
    AnsiEndBeforeSpace(a, rest);
    assert (a + rest)[0] == a[0];
  }

  /** Removing colour codes works on each side of a space separately. */
  lemma {:induction false} StripAnsiBeforeSpace(a: string, rest: string)
    requires rest != [] && rest[0] == ' '
    ensures StripAnsi(a + rest) == StripAnsi(a) + StripAnsi(rest)
    decreases |a|
  {
    if a == [] {
      assert a + rest == rest;
    } else {
      var e := NextStart(a);
      StripAnsiFrontStep(a, rest);
      StripAnsiBeforeSpace(a[e..], rest);
      var k, x, y := Kept(a), StripAnsi(a[e..]), StripAnsi(rest);
      assert StripAnsi(a) == k + x;
      AppendAssoc(k, x, y);
    }
  }

  lemma AppendAssoc(k: string, x: string, y: string)
    ensures k + (x + y) == (k + x) + y
  {
  }

  /** The front of `a` is handled alike with or without a space-led tail. */
  lemma StripAnsiFrontStep(a: string, rest: string)
    requires a != [] && rest != [] && rest[0] == ' '
    ensures StripAnsi(a + rest) == Kept(a) + StripAnsi(a[NextStart(a)..] + rest)
  {
    FrontBeforeSpace(a, rest);
  }

  lemma StripAnsiFromSpace(b: string)
    ensures StripAnsi([' '] + b) == [' '] + StripAnsi(b)
  {
    assert ([' '] + b)[1..] == b;
  }

  lemma StripAnsiAroundSpace(a: string, b: string)
    ensures StripAnsi(a + [' '] + b) == StripAnsi(a) + [' '] + StripAnsi(b)
  {
    var rest := [' '] + b;
    AppendAssoc(a, [' '], b);
    StripAnsiBeforeSpace(a, rest);
    StripAnsiFromSpace(b);
    AppendAssoc(StripAnsi(a), [' '], StripAnsi(b));
  }

  /** `" " * n`. */
  function Spaces(n: nat): (r: string)
    ensures |r| == n && forall i :: 0 <= i < n ==> r[i] == ' '
  {
    seq(n, i => ' ')
  }

  lemma {:induction false} StripAnsiSpaces(n: nat)
    ensures StripAnsi(Spaces(n)) == Spaces(n)
    decreases n
  {
    if n > 0 {
      assert Spaces(n)[1..] == Spaces(n - 1);
      StripAnsiSpaces(n - 1);
      assert Spaces(n) == [' '] + Spaces(n - 1);
    }
  }

  lemma {:induction false} WidthSumSpaces(n: nat, classify: char -> CharClass)
    requires classify(' ') == Narrow
    ensures WidthSum(Spaces(n), classify) == n
    decreases n
  {
    if n > 0 {
      assert Spaces(n)[..n - 1] == Spaces(n - 1);
      WidthSumSpaces(n - 1, classify);
    }
  }

  /** A space between two texts adds one column to their widths. */
  lemma DisplayWidthAroundSpace(a: string, b: string, classify: char -> CharClass)
    requires classify(' ') == Narrow
    ensures DisplayWidthOf(a + " " + b, classify) == DisplayWidthOf(a, classify) + 1 + DisplayWidthOf(b, classify)
  {
    StripAnsiAroundSpace(a, b);
    assert a + " " + b == a + [' '] + b;
    WidthSumAppend(StripAnsi(a) + [' '], StripAnsi(b), classify);
    WidthSumAppend(StripAnsi(a), [' '], classify);
    assert [' '][..0] == [];
  }

  lemma DisplayWidthSpaces(n: nat, classify: char -> CharClass)
    requires classify(' ') == Narrow
    ensures DisplayWidthOf(Spaces(n), classify) == n
  {
    StripAnsiSpaces(n);
    WidthSumSpaces(n, classify);
  }

  /** Spaces added on the left add their count to the width. */
  lemma DisplayWidthLeft(left: nat, s: string, classify: char -> CharClass)
    requires classify(' ') == Narrow
    ensures DisplayWidthOf(Spaces(left) + s, classify) == left + DisplayWidthOf(s, classify)
  {
    if left > 0 {
      assert Spaces(left) + s == Spaces(left - 1) + " " + s;
      DisplayWidthAroundSpace(Spaces(left - 1), s, classify);
      DisplayWidthSpaces(left - 1, classify);
    } else {
      assert Spaces(left) + s == s;
    }
  }

  /** Spaces added on the right add their count to the width. */
  lemma DisplayWidthRight(s: string, right: nat, classify: char -> CharClass)
    requires classify(' ') == Narrow
    ensures DisplayWidthOf(s + Spaces(right), classify) == DisplayWidthOf(s, classify) + right
  {
    if right > 0 {
      assert s + Spaces(right) == s + " " + Spaces(right - 1);
      DisplayWidthAroundSpace(s, Spaces(right - 1), classify);
      DisplayWidthSpaces(right - 1, classify);
    } else {
      assert s + Spaces(right) == s;
    }
  }

  // ---------------------------------------------------------------------
  // `_pad_to_width` and `_center_to_width`

  /** `_pad_to_width`. */
  function PadToWidth(s: string, width: int, classify: char -> CharClass): string {
    var pad := width - DisplayWidthOf(s, classify);
    if pad <= 0 then s else s + Spaces(pad)
  }

  /** Padding leaves a text that is wide enough alone, and otherwise appends
      spaces up to the width, so the result is as wide as the larger of the
      two. */
  lemma PadToWidthSpec(s: string, width: int, classify: char -> CharClass)
    requires classify(' ') == Narrow
    ensures var r := PadToWidth(s, width, classify);
      var dw := DisplayWidthOf(s, classify);
      && (dw >= width ==> r == s)
      && StartsWith(r, s) && (forall i :: |s| <= i < |r| ==> r[i] == ' ')
      && DisplayWidthOf(r, classify) == if dw >= width then dw else width
  {
    var dw := DisplayWidthOf(s, classify);
    var r := PadToWidth(s, width, classify);
    if dw < width {
      DisplayWidthRight(s, width - dw, classify);
      assert r[..|s|] == s;
    }
  }

  /** `_center_to_width`. */
  function CenterToWidth(s: string, width: int, classify: char -> CharClass): string {
    var cur := DisplayWidthOf(s, classify);
    if cur >= width then s
    else
      var total := width - cur;
      var left := total / 2;
      Spaces(left) + s + Spaces(total - left)
  }

  /** Centring leaves a text that is wide enough alone; otherwise it puts
      half the missing columns, rounded down, on the left and the rest on the
      right, so the right side has the same or one more space, and the
      result is exactly `width` wide. */
  lemma CenterToWidthSpec(s: string, width: int, classify: char -> CharClass)
    requires classify(' ') == Narrow
    ensures var r := CenterToWidth(s, width, classify);
      var dw := DisplayWidthOf(s, classify);
      && (dw >= width ==> r == s)
      && (dw < width ==> exists left: nat, right: nat ::
            && r == Spaces(left) + s + Spaces(right)
            && left + dw + right == width
            && (right == left || right == left + 1))
      && DisplayWidthOf(r, classify) == if dw >= width then dw else width
  {
    var dw := DisplayWidthOf(s, classify);
    if dw < width {
      var total := width - dw;
      var left := total / 2;
      DisplayWidthLeft(left, s, classify);
      DisplayWidthRight(Spaces(left) + s, total - left, classify);
    }
  }

  // ---------------------------------------------------------------------
  // `_wrap_display`

  /** `s.split(" ")`. */
  function SplitSpaces(s: string): (r: seq<string>)
    ensures r != []
    decreases |s|
  {
    if s == [] then [""]
    else
      var ps := SplitSpaces(s[..|s| - 1]);
      if s[|s| - 1] == ' ' then ps + [""]
      else ps[..|ps| - 1] + [ps[|ps| - 1] + [s[|s| - 1]]]
  }

  /** The word-wrap pass over the tokens: the finished lines and the line
      being filled. */
  function WordFold(ts: seq<string>, width: int, classify: char -> CharClass): (seq<string>, string)
    decreases |ts|
  {
    if ts == [] then ([], "")
    else
      var (lines, line) := WordFold(ts[..|ts| - 1], width, classify);
      var token := ts[|ts| - 1];
      if line == "" then (lines, token)
      else if DisplayWidthOf(line, classify) + 1 + DisplayWidthOf(token, classify) <= width then (lines, line + " " + token)
      else (lines + [line], token)
  }

  /** The lines of the word-wrap pass, the last one included when not empty. */
  function WordLines(ts: seq<string>, width: int, classify: char -> CharClass): seq<string> {
    var (lines, line) := WordFold(ts, width, classify);
    if line != "" then lines + [line] else lines
  }

  /** The hard cut of one line: the finished pieces and the piece being
      filled. A character goes to a new piece when it would take the current
      one past `width`. */
  function CutFold(ln: string, width: int, classify: char -> CharClass): (seq<string>, string)
    decreases |ln|
  {
    if ln == [] then ([], "")
    else
      var (pieces, buf) := CutFold(ln[..|ln| - 1], width, classify);
      var ch := ln[|ln| - 1];
      if WidthSum(buf, classify) + CharWidth(classify(ch)) > width then (pieces + [buf], [ch])
      else (pieces, buf + [ch])
  }

  function HardPieces(ln: string, width: int, classify: char -> CharClass): seq<string> {
    var (pieces, buf) := CutFold(ln, width, classify);
    if buf != "" then pieces + [buf] else pieces
  }

  /** One line of the hard-wrap pass: kept if it fits, cut otherwise. */
  function HardLine(ln: string, width: int, classify: char -> CharClass): seq<string> {
    if DisplayWidthOf(ln, classify) <= width then [ln] else HardPieces(ln, width, classify)
  }

  /** The hard-wrap pass over all lines. */
  function HardAll(lines: seq<string>, width: int, classify: char -> CharClass): seq<string>
    decreases |lines|
  {
    if lines == [] then []
    else HardAll(lines[..|lines| - 1], width, classify) + HardLine(lines[|lines| - 1], width, classify)
  }

  /** The hard-wrap pass over one line more. */
  lemma HardAllSnoc(lines: seq<string>, j: nat, width: int, classify: char -> CharClass)
    requires j < |lines|
    ensures HardAll(lines[..j + 1], width, classify) == HardAll(lines[..j], width, classify) + HardLine(lines[j], width, classify)
  {
    assert lines[..j + 1][..j] == lines[..j];
  }

  /** `_wrap_display`, as a specification. */
  function Wrap(s: string, width: int, classify: char -> CharClass): seq<string> {
    if width <= 0 then [s]
    else
      var hard := HardAll(WordLines(SplitSpaces(s), width, classify), width, classify);
      if hard == [] then [""] else hard
  }

  /** `_wrap_display`: a word-wrap loop over the tokens, then a loop over the
      lines that cuts each line that is still too wide character by
      character. */
  method WrapDisplay(s: string, width: int, classify: char -> CharClass) returns (r: seq<string>)
    ensures r == Wrap(s, width, classify)
  {
    if width <= 0 {
      return [s];
    }
    var lines := WrapWords(SplitSpaces(s), width, classify);
    var hard: seq<string> := [];
    for j := 0 to |lines|
      invariant hard == HardAll(lines[..j], width, classify)
    {
      HardAllSnoc(lines, j, width, classify);
      var ln := lines[j];
      var lnWidth := DisplayWidth(ln, classify);
      if lnWidth <= width {
        hard := hard + [ln];
        continue;
      }
      var cut := CutLine(ln, width, classify);
      hard := hard + cut;
    }
    assert lines[..|lines|] == lines;
    if hard == [] {
      return [""];
    }
    return hard;
  }

  /** The word-wrap loop of `_wrap_display` over the tokens. */
  method WrapWords(parts: seq<string>, width: int, classify: char -> CharClass) returns (lines: seq<string>)
    ensures lines == WordLines(parts, width, classify)
  {
    lines := [];
    var line := "";
    for i := 0 to |parts|
      invariant (lines, line) == WordFold(parts[..i], width, classify)
    {
      assert parts[..i + 1][..i] == parts[..i];
      var token := parts[i];
      if line == "" {
        line := token;
        continue;
      }
      var lineWidth := DisplayWidth(line, classify);
      var tokenWidth := DisplayWidth(token, classify);
      if lineWidth + 1 + tokenWidth <= width {
        line := line + " " + token;
      } else {
        lines := lines + [line];
        line := token;
      }
    }
    assert parts[..|parts|] == parts;
    if line != "" {
      lines := lines + [line];
    }
  }

  /** The inner loop of `_wrap_display` over the characters of one line. */
  method CutLine(ln: string, width: int, classify: char -> CharClass) returns (pieces: seq<string>)
    ensures pieces == HardPieces(ln, width, classify)
  {
    pieces := [];
    var buf := "";
    var bufWidth := 0;
    for k := 0 to |ln|
      invariant (pieces, buf) == CutFold(ln[..k], width, classify)
      invariant bufWidth == WidthSum(buf, classify)
    {
      assert ln[..k + 1][..k] == ln[..k];
      var ch := ln[k];
      var chWidth := CharWidth(classify(ch));
      if bufWidth + chWidth > width {
        pieces := pieces + [buf];
        buf := [ch];
        bufWidth := chWidth;
        assert [ch][..0] == [];
      } else {
        assert (buf + [ch])[..|buf|] == buf;
        buf := buf + [ch];
        bufWidth := bufWidth + chWidth;
      }
    }
    assert ln[..|ln|] == ln;
    if buf != "" {
      pieces := pieces + [buf];
    }
  }

  // ---------------------------------------------------------------------
  // Properties of wrapping

  /** The tokens put back together with single spaces give the text, and no
      token holds a space. */
  lemma SplitSpacesSpec(s: string)
    ensures Join(" ", SplitSpaces(s)) == s
    ensures forall p :: p in SplitSpaces(s) ==> ' ' !in p
  {
    SplitSpacesJoin(s);
    SplitSpacesNoSpace(s);
  }

  lemma {:induction false} SplitSpacesJoin(s: string)
    ensures Join(" ", SplitSpaces(s)) == s
    decreases |s|
  {
    if s != [] {
      var n := |s| - 1;
      SplitSpacesJoin(s[..n]);
      JoinSpacesStep(SplitSpaces(s[..n]), s[..n], s[n]);
      assert s == s[..n] + [s[n]];
    }
  }

  /** One character more on the text joined from `ps`: a space opens a new
      empty part, anything else extends the last part. */
  lemma JoinSpacesStep(ps: seq<string>, text: string, c: char)
    requires ps != [] && Join(" ", ps) == text
    ensures var m := |ps| - 1;
      Join(" ", if c == ' ' then ps + [""] else ps[..m] + [ps[m] + [c]]) == text + [c]
  {
    var m := |ps| - 1;
    if c == ' ' {
      JoinSnoc(" ", ps, "");
    } else if m == 0 {
      assert ps == [ps[0]];
    } else {
      assert ps == ps[..m] + [ps[m]];
      JoinSnoc(" ", ps[..m], ps[m]);
      JoinSnoc(" ", ps[..m], ps[m] + [c]);
    }
  }

  lemma {:induction false} SplitSpacesNoSpace(s: string)
    ensures forall k :: 0 <= k < |SplitSpaces(s)| ==> ' ' !in SplitSpaces(s)[k]
    decreases |s|
  {
    if s != [] {
      var n := |s| - 1;
      var pre := s[..n];
      var ps := SplitSpaces(pre);
      var r := SplitSpaces(s);
      SplitSpacesNoSpace(pre);
      if s[n] == ' ' {
        assert r == ps + [""];
        forall k | 0 <= k < |r| ensures ' ' !in r[k] {
          if k < |ps| {
            assert r[k] == ps[k];
          }
        }
      } else {
        var m := |ps| - 1;
        assert r == ps[..m] + [ps[m] + [s[n]]];
        forall k | 0 <= k < |r| ensures ' ' !in r[k] {
          if k < m {
            assert r[k] == ps[k];
          } else {
            assert r[k] == ps[m] + [s[n]];
          }
        }
      }
    }
  }

  /** Every word-wrapped line is non-empty, and it either fits the width or
      is a single token: tokens are joined only while the joined line fits. */
  lemma {:induction false} WordFoldSpec(ts: seq<string>, width: int, classify: char -> CharClass)
    requires classify(' ') == Narrow
    ensures var (lines, line) := WordFold(ts, width, classify);
      && (forall l :: l in lines ==> l != "" && (DisplayWidthOf(l, classify) <= width || l in ts))
      && (line == "" || DisplayWidthOf(line, classify) <= width || line in ts)
    decreases |ts|
  {
    if ts != [] {
      var n := |ts| - 1;
      WordFoldSpec(ts[..n], width, classify);
      InPrefixOrLast(ts);
      var (lines, line) := WordFold(ts[..n], width, classify);
      var token := ts[n];
      if line != "" {
        DisplayWidthAroundSpace(line, token, classify);
      }
    }
  }

  lemma WordLinesSpec(ts: seq<string>, width: int, classify: char -> CharClass)
    requires classify(' ') == Narrow
    ensures forall l :: l in WordLines(ts, width, classify) ==>
      l != "" && (DisplayWidthOf(l, classify) <= width || l in ts)
  {
    WordFoldSpec(ts, width, classify);
  }

  /** A run of tokens `ts[lo..hi]`. */
  datatype Run = Run(lo: nat, hi: nat)

  /** The runs of tokens behind the word-wrapped lines: `Run(a, b)` for a
      line made of the tokens `ts[a..b]`. A run starts at the token that starts a
      line and grows with each token joined to it. */
  ghost function WordRuns(ts: seq<string>, width: int, classify: char -> CharClass): seq<Run>
    decreases |ts|
  {
    if ts == [] then []
    else
      var n := |ts| - 1;
      var runs := WordRuns(ts[..n], width, classify);
      var line := WordFold(ts[..n], width, classify).1;
      var t := ts[n];
      if line != "" && DisplayWidthOf(line, classify) + 1 + DisplayWidthOf(t, classify) <= width && runs != [] then
        runs[..|runs| - 1] + [Run(runs[|runs| - 1].lo, n + 1)]
      else if t == "" then runs
      else runs + [Run(n, n + 1)]
  }

  /** The display width, as a function on text. */
  function WidthOf(classify: char -> CharClass): string -> int {
    s => DisplayWidthOf(s, classify)
  }

  /** Every run is a non-empty stretch of tokens starting at a non-empty
      token, and each run ends before the next begins. */
  ghost predicate RunsOrdered(ts: seq<string>, runs: seq<Run>) {
    && (forall k :: 0 <= k < |runs| ==> runs[k].lo < runs[k].hi <= |ts| && ts[runs[k].lo] != "")
    && (forall i, j :: 0 <= i < j < |runs| ==> runs[i].hi <= runs[j].lo)
  }

  /** Line `k` is the tokens of run `k` joined by single spaces. */
  ghost predicate RunsJoined(ts: seq<string>, lines: seq<string>, runs: seq<Run>) {
    && |runs| == |lines|
    && forall k :: 0 <= k < |runs| && runs[k].lo <= runs[k].hi <= |ts| ==>
         lines[k] == Join(" ", ts[runs[k].lo..runs[k].hi])
  }

  /** The tokens from `lo` up to `hi` are all empty. */
  ghost predicate EmptyTokens(ts: seq<string>, lo: int, hi: int) {
    forall j :: lo <= j < hi && 0 <= j < |ts| ==> ts[j] == ""
  }

  /** Only empty tokens fall before, between and after the runs. */
  ghost predicate GapsEmpty(ts: seq<string>, runs: seq<Run>) {
    && (runs == [] ==> EmptyTokens(ts, 0, |ts|))
    && (runs != [] ==> EmptyTokens(ts, 0, runs[0].lo) && EmptyTokens(ts, runs[|runs| - 1].hi, |ts|))
    && forall i, j :: 0 <= i < j < |runs| && j == i + 1 ==> EmptyTokens(ts, runs[i].hi, runs[j].lo)
  }

  /** Token `j` fits after the tokens from `lo` joined by single spaces. */
  ghost predicate FitsAt(ts: seq<string>, lo: int, j: int, width: int, dw: string -> int)
    requires 0 <= lo <= j < |ts|
  {
    dw(Join(" ", ts[lo..j])) + 1 + dw(ts[j]) <= width
  }

  /** Every token after the first of run `r` fitted when it was joined. */
  ghost predicate RunFits(ts: seq<string>, r: Run, width: int, dw: string -> int) {
    forall j :: r.lo < j < r.hi <= |ts| ==> FitsAt(ts, r.lo, j, width, dw)
  }

  /** A token joins a line only while the joined text stays within `width`. */
  ghost predicate RunsFit(ts: seq<string>, runs: seq<Run>, width: int, dw: string -> int) {
    forall k :: 0 <= k < |runs| ==> RunFits(ts, runs[k], width, dw)
  }

  lemma FitsAtPrefix(pre: seq<string>, t: string, lo: int, j: int, width: int, dw: string -> int)
    requires 0 <= lo <= j < |pre|
    ensures FitsAt(pre + [t], lo, j, width, dw) == FitsAt(pre, lo, j, width, dw)
  {
    assert (pre + [t])[lo..j] == pre[lo..j];
  }

  /** A line ends before the last token only when the next token would take
      it past `width`. */
  ghost predicate BreaksForced(ts: seq<string>, lines: seq<string>, runs: seq<Run>, width: int, dw: string -> int) {
    forall k :: 0 <= k < |runs| && k < |lines| && runs[k].hi < |ts| ==>
      dw(lines[k]) + 1 + dw(ts[runs[k].hi]) > width
  }

  /** `lines` is the greedy word wrap of the tokens `ts` by the runs `runs`. */
  ghost predicate GreedyLayout(ts: seq<string>, lines: seq<string>, runs: seq<Run>, width: int, dw: string -> int) {
    && RunsOrdered(ts, runs)
    && RunsJoined(ts, lines, runs)
    && GapsEmpty(ts, runs)
    && RunsFit(ts, runs, width, dw)
    && BreaksForced(ts, lines, runs, width, dw)
  }

  /** One step of the word-wrap pass, as it changes the lines and runs:
      the token `t` is joined to the last line when that line ends at the
      last token and the join fits, an empty token is skipped, and any other
      token starts a new line. */
  ghost function LayoutStep(pre: seq<string>, t: string, before: seq<string>, runs: seq<Run>, width: int, dw: string -> int): (seq<string>, seq<Run>)
    requires |before| == |runs|
  {
    var m := |runs| - 1;
    if runs != [] && runs[m].hi == |pre| && dw(before[m]) + 1 + dw(t) <= width then
      (before[..m] + [before[m] + " " + t], runs[..m] + [Run(runs[m].lo, |pre| + 1)])
    else if t == "" then (before, runs)
    else (before + [t], runs + [Run(|pre|, |pre| + 1)])
  }

  lemma StepOrdered(pre: seq<string>, t: string, before: seq<string>, runs: seq<Run>, width: int, dw: string -> int)
    requires |before| == |runs| && RunsOrdered(pre, runs)
    ensures RunsOrdered(pre + [t], LayoutStep(pre, t, before, runs, width, dw).1)
  {
    var ts := pre + [t];
    assert forall k :: 0 <= k < |pre| ==> ts[k] == pre[k];
  }

  /** Runs within `pre` keep their lines and fit when a token is appended. */
  lemma PrefixJoined(pre: seq<string>, t: string, before: seq<string>, runs: seq<Run>)
    requires RunsOrdered(pre, runs) && RunsJoined(pre, before, runs)
    ensures RunsJoined(pre + [t], before, runs)
  {
    var ts := pre + [t];
    forall k | 0 <= k < |runs| ensures ts[runs[k].lo..runs[k].hi] == pre[runs[k].lo..runs[k].hi] { }
  }

  lemma PrefixFit(pre: seq<string>, t: string, runs: seq<Run>, width: int, dw: string -> int)
    requires RunsOrdered(pre, runs) && RunsFit(pre, runs, width, dw)
    ensures RunsFit(pre + [t], runs, width, dw)
  {
    var ts := pre + [t];
    forall k | 0 <= k < |runs| ensures RunFits(ts, runs[k], width, dw) {
      forall j | runs[k].lo < j < runs[k].hi <= |ts| ensures FitsAt(ts, runs[k].lo, j, width, dw) {
        FitsAtPrefix(pre, t, runs[k].lo, j, width, dw);
      }
    }
  }

  lemma StepJoined(pre: seq<string>, t: string, before: seq<string>, runs: seq<Run>, width: int, dw: string -> int)
    requires |before| == |runs| && RunsOrdered(pre, runs) && RunsJoined(pre, before, runs)
    ensures var (after, runs') := LayoutStep(pre, t, before, runs, width, dw);
      RunsJoined(pre + [t], after, runs')
  {
    var ts := pre + [t];
    PrefixJoined(pre, t, before, runs);
    var m := |runs| - 1;
    if runs != [] && runs[m].hi == |pre| && dw(before[m]) + 1 + dw(t) <= width {
      JoinedExtend(pre, t, before, runs);
    } else if t != "" {
      assert ts[|pre|..|pre| + 1] == [t];
      JoinedAppend(ts, before, runs, Run(|pre|, |pre| + 1), t);
    }
  }

  /** The token joined to the last line extends its run by one. */
  lemma JoinedExtend(pre: seq<string>, t: string, before: seq<string>, runs: seq<Run>)
    requires RunsJoined(pre, before, runs) && RunsJoined(pre + [t], before, runs)
    requires runs != [] && runs[|runs| - 1].lo < runs[|runs| - 1].hi == |pre|
    ensures var m := |runs| - 1;
      RunsJoined(pre + [t], before[..m] + [before[m] + " " + t], runs[..m] + [Run(runs[m].lo, |pre| + 1)])
  {
    var m := |runs| - 1;
    var a := runs[m].lo;
    assert (pre + [t])[a..|pre| + 1] == pre[a..|pre|] + [t];
    JoinSnoc(" ", pre[a..|pre|], t);
    JoinedReplaceLast(pre + [t], before, runs, Run(a, |pre| + 1), before[m] + " " + t);
  }

  lemma JoinedReplaceLast(ts: seq<string>, lines: seq<string>, runs: seq<Run>, r: Run, line: string)
    requires RunsJoined(ts, lines, runs) && runs != []
    requires r.lo <= r.hi <= |ts| ==> line == Join(" ", ts[r.lo..r.hi])
    ensures RunsJoined(ts, lines[..|runs| - 1] + [line], runs[..|runs| - 1] + [r])
  {
  }

  lemma JoinedAppend(ts: seq<string>, lines: seq<string>, runs: seq<Run>, r: Run, line: string)
    requires RunsJoined(ts, lines, runs)
    requires r.lo <= r.hi <= |ts| ==> line == Join(" ", ts[r.lo..r.hi])
    ensures RunsJoined(ts, lines + [line], runs + [r])
  {
  }

  lemma StepFit(pre: seq<string>, t: string, before: seq<string>, runs: seq<Run>, width: int, dw: string -> int)
    requires |before| == |runs| && RunsOrdered(pre, runs) && RunsJoined(pre, before, runs) && RunsFit(pre, runs, width, dw)
    ensures RunsFit(pre + [t], LayoutStep(pre, t, before, runs, width, dw).1, width, dw)
  {
    var ts := pre + [t];
    var runs' := LayoutStep(pre, t, before, runs, width, dw).1;
    PrefixFit(pre, t, runs, width, dw);
    var m := |runs| - 1;
    if runs != [] && runs[m].hi == |pre| && dw(before[m]) + 1 + dw(t) <= width {
      FitsAtJoin(pre, t, before, runs, width, dw);
      FitExtendLast(ts, runs, width, dw);
      assert runs' == runs[..m] + [Run(runs[m].lo, |pre| + 1)];
    } else if t != "" {
      FitAppend(ts, runs, |pre|, width, dw);
      assert runs' == runs + [Run(|pre|, |pre| + 1)];
    } else {
      assert runs' == runs;
    }
  }

  /** The token joined to the last line is the one that fits after its run. */
  lemma FitsAtJoin(pre: seq<string>, t: string, before: seq<string>, runs: seq<Run>, width: int, dw: string -> int)
    requires RunsJoined(pre, before, runs) && runs != []
    requires runs[|runs| - 1].lo <= runs[|runs| - 1].hi == |pre|
    requires dw(before[|runs| - 1]) + 1 + dw(t) <= width
    ensures FitsAt(pre + [t], runs[|runs| - 1].lo, |pre|, width, dw)
  {
    var a := runs[|runs| - 1].lo;
    assert (pre + [t])[a..|pre|] == pre[a..|pre|];
  }

  /** The last run grows by one token whose join still fits. */
  lemma FitExtendLast(ts: seq<string>, runs: seq<Run>, width: int, dw: string -> int)
    requires RunsFit(ts, runs, width, dw) && runs != []
    requires var r := runs[|runs| - 1];
      && r.lo < r.hi < |ts|
      && FitsAt(ts, r.lo, r.hi, width, dw)
    ensures var r := runs[|runs| - 1]; RunsFit(ts, runs[..|runs| - 1] + [Run(r.lo, r.hi + 1)], width, dw)
  {
    var r := runs[|runs| - 1];
    var runs' := runs[..|runs| - 1] + [Run(r.lo, r.hi + 1)];
    RunFitsExtend(ts, r, width, dw);
    forall k | 0 <= k < |runs'| ensures RunFits(ts, runs'[k], width, dw) {
      if k < |runs| - 1 {
        assert runs'[k] == runs[k];
      }
    }
  }

  lemma RunFitsExtend(ts: seq<string>, r: Run, width: int, dw: string -> int)
    requires RunFits(ts, r, width, dw) && r.lo < r.hi < |ts| && FitsAt(ts, r.lo, r.hi, width, dw)
    ensures RunFits(ts, Run(r.lo, r.hi + 1), width, dw)
  {
    forall j | r.lo < j <= r.hi ensures FitsAt(ts, r.lo, j, width, dw) {
      if j < r.hi {
        assert r.lo < j < r.hi <= |ts|;
      } else {
        assert j == r.hi;
      }
    }
  }

  /** A run of a single token fits trivially. */
  lemma FitAppend(ts: seq<string>, runs: seq<Run>, n: nat, width: int, dw: string -> int)
    requires RunsFit(ts, runs, width, dw)
    ensures RunsFit(ts, runs + [Run(n, n + 1)], width, dw)
  {
    var runs' := runs + [Run(n, n + 1)];
    assert RunFits(ts, Run(n, n + 1), width, dw);
    forall k | 0 <= k < |runs'| ensures RunFits(ts, runs'[k], width, dw) {
      if k < |runs| {
        assert runs'[k] == runs[k];
      }
    }
  }

  lemma StepGaps(pre: seq<string>, t: string, before: seq<string>, runs: seq<Run>, width: int, dw: string -> int)
    requires |before| == |runs| && RunsOrdered(pre, runs) && GapsEmpty(pre, runs)
    ensures GapsEmpty(pre + [t], LayoutStep(pre, t, before, runs, width, dw).1)
  {
    var ts := pre + [t];
    var runs' := LayoutStep(pre, t, before, runs, width, dw).1;
    assert forall k :: 0 <= k < |pre| ==> ts[k] == pre[k];
    forall i, j | 0 <= i < j < |runs'| && j == i + 1 ensures EmptyTokens(ts, runs'[i].hi, runs'[j].lo) {
      if j < |runs| {
        assert EmptyTokens(pre, runs[i].hi, runs[j].lo);
      }
    }
  }

  lemma StepBreaks(pre: seq<string>, t: string, before: seq<string>, runs: seq<Run>, width: int, dw: string -> int)
    requires |before| == |runs| && RunsOrdered(pre, runs) && BreaksForced(pre, before, runs, width, dw)
    ensures var (after, runs') := LayoutStep(pre, t, before, runs, width, dw);
      BreaksForced(pre + [t], after, runs', width, dw)
  {
    var ts := pre + [t];
    var m := |runs| - 1;
    if runs != [] && runs[m].hi == |pre| && dw(before[m]) + 1 + dw(t) <= width {
      BreaksDropLast(pre, before, runs, width, dw);
      forall k | 0 <= k < m ensures runs[..m][k].hi < |pre| {
        assert runs[k].hi <= runs[m].lo;
      }
      BreaksExtend(pre, t, before[..m], runs[..m], width, dw);
      BreaksAppendLast(ts, before[..m], runs[..m], before[m] + " " + t, Run(runs[m].lo, |pre| + 1), width, dw);
    } else {
      BreaksExtend(pre, t, before, runs, width, dw);
      if t != "" {
        BreaksAppendLast(ts, before, runs, t, Run(|pre|, |pre| + 1), width, dw);
      }
    }
  }

  /** A token appended after the runs keeps every break forced, provided the
      line ending at the old last token does not fit with it. */
  lemma BreaksExtend(pre: seq<string>, t: string, lines: seq<string>, runs: seq<Run>, width: int, dw: string -> int)
    requires BreaksForced(pre, lines, runs, width, dw)
    requires forall k :: 0 <= k < |runs| ==> runs[k].hi <= |pre|
    requires forall k :: 0 <= k < |runs| && k < |lines| && runs[k].hi == |pre| ==>
      dw(lines[k]) + 1 + dw(t) > width
    ensures BreaksForced(pre + [t], lines, runs, width, dw)
  {
    var ts := pre + [t];
    forall k | 0 <= k < |runs| && k < |lines| && runs[k].hi < |ts|
      ensures dw(lines[k]) + 1 + dw(ts[runs[k].hi]) > width
    {
      if runs[k].hi < |pre| {
        assert ts[runs[k].hi] == pre[runs[k].hi];
      } else {
        assert ts[runs[k].hi] == t;
      }
    }
  }

  lemma BreaksDropLast(ts: seq<string>, lines: seq<string>, runs: seq<Run>, width: int, dw: string -> int)
    requires BreaksForced(ts, lines, runs, width, dw) && runs != [] && |lines| == |runs|
    ensures BreaksForced(ts, lines[..|runs| - 1], runs[..|runs| - 1], width, dw)
  {
    var m := |runs| - 1;
    forall k | 0 <= k < m && runs[..m][k].hi < |ts|
      ensures dw(lines[..m][k]) + 1 + dw(ts[runs[..m][k].hi]) > width
    {
      assert runs[..m][k] == runs[k] && lines[..m][k] == lines[k];
    }
  }

  /** A run ending at the last token has no break to force. */
  lemma BreaksAppendLast(ts: seq<string>, lines: seq<string>, runs: seq<Run>, line: string, r: Run, width: int, dw: string -> int)
    requires BreaksForced(ts, lines, runs, width, dw) && |lines| == |runs| && r.hi == |ts|
    ensures BreaksForced(ts, lines + [line], runs + [r], width, dw)
  {
    forall k | 0 <= k < |runs| + 1 && (runs + [r])[k].hi < |ts|
      ensures dw((lines + [line])[k]) + 1 + dw(ts[(runs + [r])[k].hi]) > width
    {
      assert k < |runs|;
      assert (runs + [r])[k] == runs[k] && (lines + [line])[k] == lines[k];
    }
  }

  lemma StepLayout(pre: seq<string>, t: string, before: seq<string>, runs: seq<Run>, width: int, dw: string -> int)
    requires |before| == |runs| && GreedyLayout(pre, before, runs, width, dw)
    ensures var (after, runs') := LayoutStep(pre, t, before, runs, width, dw);
      GreedyLayout(pre + [t], after, runs', width, dw)
  {
    StepOrdered(pre, t, before, runs, width, dw);
    StepJoined(pre, t, before, runs, width, dw);
    StepGaps(pre, t, before, runs, width, dw);
    StepFit(pre, t, before, runs, width, dw);
    StepBreaks(pre, t, before, runs, width, dw);
  }

  /** A line is being filled exactly when the last run reaches the last token. */
  ghost predicate FillingLast(ts: seq<string>, width: int, classify: char -> CharClass) {
    var runs := WordRuns(ts, width, classify);
    WordFold(ts, width, classify).1 != "" <==> runs != [] && runs[|runs| - 1].hi == |ts|
  }

  /** `WordFold` on one token more, in terms of its value before it. */
  lemma WordFoldSnoc(pre: seq<string>, t: string, width: int, classify: char -> CharClass)
    ensures var (lines, line) := WordFold(pre, width, classify);
      WordFold(pre + [t], width, classify) ==
        if line == "" then (lines, t)
        else if DisplayWidthOf(line, classify) + 1 + DisplayWidthOf(t, classify) <= width then (lines, line + " " + t)
        else (lines + [line], t)
  {
    assert (pre + [t])[..|pre|] == pre;
  }

  /** `WordRuns` on one token more, in terms of its value before it. */
  lemma WordRunsSnoc(pre: seq<string>, t: string, width: int, classify: char -> CharClass)
    ensures var line := WordFold(pre, width, classify).1;
      var runs := WordRuns(pre, width, classify);
      WordRuns(pre + [t], width, classify) ==
        if line != "" && DisplayWidthOf(line, classify) + 1 + DisplayWidthOf(t, classify) <= width && runs != [] then
          runs[..|runs| - 1] + [Run(runs[|runs| - 1].lo, |pre| + 1)]
        else if t == "" then runs
        else runs + [Run(|pre|, |pre| + 1)]
  {
    assert (pre + [t])[..|pre|] == pre;
  }

  /** The step that joins the token to the last line. */
  lemma StepJoins(pre: seq<string>, t: string, before: seq<string>, runs: seq<Run>, width: int, dw: string -> int)
    requires |before| == |runs| && runs != [] && runs[|runs| - 1].hi == |pre|
    requires dw(before[|runs| - 1]) + 1 + dw(t) <= width
    ensures LayoutStep(pre, t, before, runs, width, dw) ==
      (before[..|runs| - 1] + [before[|runs| - 1] + " " + t], runs[..|runs| - 1] + [Run(runs[|runs| - 1].lo, |pre| + 1)])
  {
  }

  /** The step that skips an empty token or starts a new line with it. */
  lemma StepNoJoin(pre: seq<string>, t: string, before: seq<string>, runs: seq<Run>, width: int, dw: string -> int)
    requires |before| == |runs|
    requires runs == [] || runs[|runs| - 1].hi != |pre| || dw(before[|runs| - 1]) + 1 + dw(t) > width
    ensures LayoutStep(pre, t, before, runs, width, dw) ==
      if t == "" then (before, runs) else (before + [t], runs + [Run(|pre|, |pre| + 1)])
  {
  }

  /** One token more moves the lines and runs of the word-wrap pass by one
      `LayoutStep`. */
  lemma WordFoldStep(pre: seq<string>, t: string, width: int, classify: char -> CharClass)
    requires FillingLast(pre, width, classify) && RunsOrdered(pre, WordRuns(pre, width, classify))
    requires |WordLines(pre, width, classify)| == |WordRuns(pre, width, classify)|
    ensures var (after, runs') := LayoutStep(pre, t, WordLines(pre, width, classify), WordRuns(pre, width, classify), width, WidthOf(classify));
      WordLines(pre + [t], width, classify) == after && WordRuns(pre + [t], width, classify) == runs'
    ensures FillingLast(pre + [t], width, classify)
  {
    WordStepLines(pre, t, width, classify);
    WordStepRuns(pre, t, width, classify);
    WordStepFilling(pre, t, width, classify);
  }

  lemma WordStepLines(pre: seq<string>, t: string, width: int, classify: char -> CharClass)
    requires FillingLast(pre, width, classify)
    requires |WordLines(pre, width, classify)| == |WordRuns(pre, width, classify)|
    ensures WordLines(pre + [t], width, classify) ==
      LayoutStep(pre, t, WordLines(pre, width, classify), WordRuns(pre, width, classify), width, WidthOf(classify)).0
  {
    var line := WordFold(pre, width, classify).1;
    if line == "" {
      WordStepLinesIdle(pre, t, width, classify);
    } else if DisplayWidthOf(line, classify) + 1 + DisplayWidthOf(t, classify) <= width {
      WordStepLinesJoin(pre, t, width, classify);
    } else {
      WordStepLinesBreak(pre, t, width, classify);
    }
  }

  /** No line is being filled: the token starts one unless it is empty. */
  lemma WordStepLinesIdle(pre: seq<string>, t: string, width: int, classify: char -> CharClass)
    requires FillingLast(pre, width, classify)
    requires |WordLines(pre, width, classify)| == |WordRuns(pre, width, classify)|
    requires WordFold(pre, width, classify).1 == ""
    ensures WordLines(pre + [t], width, classify) ==
      LayoutStep(pre, t, WordLines(pre, width, classify), WordRuns(pre, width, classify), width, WidthOf(classify)).0
  {
    WordFoldSnoc(pre, t, width, classify);
    var runs := WordRuns(pre, width, classify);
    var before := WordLines(pre, width, classify);
    var lines := WordFold(pre, width, classify).0;
    assert before == lines;
    StepNoJoin(pre, t, before, runs, width, WidthOf(classify));
    assert WordFold(pre + [t], width, classify) == (lines, t);
  }

  /** The token fits and is joined to the line being filled. */
  lemma WordStepLinesJoin(pre: seq<string>, t: string, width: int, classify: char -> CharClass)
    requires FillingLast(pre, width, classify)
    requires |WordLines(pre, width, classify)| == |WordRuns(pre, width, classify)|
    requires var line := WordFold(pre, width, classify).1;
      line != "" && DisplayWidthOf(line, classify) + 1 + DisplayWidthOf(t, classify) <= width
    ensures WordLines(pre + [t], width, classify) ==
      LayoutStep(pre, t, WordLines(pre, width, classify), WordRuns(pre, width, classify), width, WidthOf(classify)).0
  {
    WordFoldSnoc(pre, t, width, classify);
    var runs := WordRuns(pre, width, classify);
    var before := WordLines(pre, width, classify);
    var (lines, line) := WordFold(pre, width, classify);
    var m := |runs| - 1;
    assert before == lines + [line];
    assert before[m] == line && before[..m] == lines;
    assert WidthOf(classify)(line) == DisplayWidthOf(line, classify);
    StepJoins(pre, t, before, runs, width, WidthOf(classify));
    assert WordFold(pre + [t], width, classify) == (lines, line + " " + t);
  }

  /** The token does not fit: the line being filled is closed. */
  lemma WordStepLinesBreak(pre: seq<string>, t: string, width: int, classify: char -> CharClass)
    requires FillingLast(pre, width, classify)
    requires |WordLines(pre, width, classify)| == |WordRuns(pre, width, classify)|
    requires var line := WordFold(pre, width, classify).1;
      line != "" && DisplayWidthOf(line, classify) + 1 + DisplayWidthOf(t, classify) > width
    ensures WordLines(pre + [t], width, classify) ==
      LayoutStep(pre, t, WordLines(pre, width, classify), WordRuns(pre, width, classify), width, WidthOf(classify)).0
  {
    WordFoldSnoc(pre, t, width, classify);
    var runs := WordRuns(pre, width, classify);
    var before := WordLines(pre, width, classify);
    var (lines, line) := WordFold(pre, width, classify);
    assert before == lines + [line];
    assert before[|runs| - 1] == line;
    assert WidthOf(classify)(line) == DisplayWidthOf(line, classify);
    StepNoJoin(pre, t, before, runs, width, WidthOf(classify));
    assert WordFold(pre + [t], width, classify) == (lines + [line], t);
  }

  lemma WordStepRuns(pre: seq<string>, t: string, width: int, classify: char -> CharClass)
    requires FillingLast(pre, width, classify)
    requires |WordLines(pre, width, classify)| == |WordRuns(pre, width, classify)|
    ensures WordRuns(pre + [t], width, classify) ==
      LayoutStep(pre, t, WordLines(pre, width, classify), WordRuns(pre, width, classify), width, WidthOf(classify)).1
  {
    var line := WordFold(pre, width, classify).1;
    if line == "" {
      WordStepRunsIdle(pre, t, width, classify);
    } else {
      WordStepRunsFilling(pre, t, width, classify);
    }
  }

  lemma WordStepRunsIdle(pre: seq<string>, t: string, width: int, classify: char -> CharClass)
    requires FillingLast(pre, width, classify)
    requires |WordLines(pre, width, classify)| == |WordRuns(pre, width, classify)|
    requires WordFold(pre, width, classify).1 == ""
    ensures WordRuns(pre + [t], width, classify) ==
      LayoutStep(pre, t, WordLines(pre, width, classify), WordRuns(pre, width, classify), width, WidthOf(classify)).1
  {
    WordRunsSnoc(pre, t, width, classify);
    StepNoJoin(pre, t, WordLines(pre, width, classify), WordRuns(pre, width, classify), width, WidthOf(classify));
  }

  lemma WordStepRunsFilling(pre: seq<string>, t: string, width: int, classify: char -> CharClass)
    requires FillingLast(pre, width, classify)
    requires |WordLines(pre, width, classify)| == |WordRuns(pre, width, classify)|
    requires WordFold(pre, width, classify).1 != ""
    ensures WordRuns(pre + [t], width, classify) ==
      LayoutStep(pre, t, WordLines(pre, width, classify), WordRuns(pre, width, classify), width, WidthOf(classify)).1
  {
    WordRunsSnoc(pre, t, width, classify);
    var runs := WordRuns(pre, width, classify);
    var before := WordLines(pre, width, classify);
    var (lines, line) := WordFold(pre, width, classify);
    assert before == lines + [line];
    assert before[|runs| - 1] == line;
    assert WidthOf(classify)(line) == DisplayWidthOf(line, classify);
    if DisplayWidthOf(line, classify) + 1 + DisplayWidthOf(t, classify) <= width {
      StepJoins(pre, t, before, runs, width, WidthOf(classify));
    } else {
      StepNoJoin(pre, t, before, runs, width, WidthOf(classify));
    }
  }

  lemma WordStepFilling(pre: seq<string>, t: string, width: int, classify: char -> CharClass)
    requires FillingLast(pre, width, classify) && RunsOrdered(pre, WordRuns(pre, width, classify))
    ensures FillingLast(pre + [t], width, classify)
  {
    WordFoldSnoc(pre, t, width, classify);
    WordRunsSnoc(pre, t, width, classify);
    var runs := WordRuns(pre, width, classify);
    var m := |runs| - 1;
    assert runs != [] ==> runs[m].hi <= |pre|;
  }

  /** The word-wrap pass, step by step: its lines and runs form a greedy
      layout, and a line is being filled exactly when the last run reaches
      the last token. */
  lemma {:induction false} WordFoldLayout(ts: seq<string>, width: int, classify: char -> CharClass)
    ensures GreedyLayout(ts, WordLines(ts, width, classify), WordRuns(ts, width, classify), width, WidthOf(classify))
    ensures FillingLast(ts, width, classify)
    decreases |ts|
  {
    if ts != [] {
      var n := |ts| - 1;
      var pre, t := ts[..n], ts[n];
      assert ts == pre + [t];
      WordFoldLayout(pre, width, classify);
      WordFoldStep(pre, t, width, classify);
      StepLayout(pre, t, WordLines(pre, width, classify), WordRuns(pre, width, classify), width, WidthOf(classify));
    }
  }

  /** `"".join(parts)`. */
  function Concat(ps: seq<string>): string
    decreases |ps|
  {
    if ps == [] then "" else Concat(ps[..|ps| - 1]) + ps[|ps| - 1]
  }

  lemma {:induction false} ConcatAppend(a: seq<string>, b: seq<string>)
    ensures Concat(a + b) == Concat(a) + Concat(b)
    decreases |b|
  {
    if b == [] {
      assert a + b == a;
    } else {
      var front := b[..|b| - 1];
      assert (a + b)[..|a + b| - 1] == a + front;
      ConcatAppend(a, front);
    }
  }

  /** The pieces of a cut line give the line back in order. */
  lemma {:induction false} CutFoldConcat(ln: string, width: int, classify: char -> CharClass)
    ensures var (pieces, buf) := CutFold(ln, width, classify);
      Concat(pieces) + buf == ln
    decreases |ln|
  {
    if ln != [] {
      var n := |ln| - 1;
      CutFoldConcat(ln[..n], width, classify);
      var (pieces, buf) := CutFold(ln[..n], width, classify);
      var ch := ln[n];
      assert ln == ln[..n] + [ch];
      if WidthSum(buf, classify) + CharWidth(classify(ch)) > width {
        ConcatSnoc(pieces, buf);
      } else {
        AppendAssoc(Concat(pieces), buf, [ch]);
      }
    }
  }

  lemma ConcatSnoc(ps: seq<string>, p: string)
    ensures Concat(ps + [p]) == Concat(ps) + p
  {
    assert (ps + [p])[..|ps|] == ps;
  }

  /** When no character is wider than `width`, the pieces of a cut line are
      non-empty and each fits. */
  lemma {:induction false} CutFoldFits(ln: string, width: int, classify: char -> CharClass)
    requires forall c :: CharWidth(classify(c)) <= width
    ensures var (pieces, buf) := CutFold(ln, width, classify);
      && (forall p :: p in pieces ==> p != "" && WidthSum(p, classify) <= width)
      && WidthSum(buf, classify) <= width
    decreases |ln|
  {
    assert CharWidth(classify(' ')) <= width;
    if ln != [] {
      var n := |ln| - 1;
      CutFoldFits(ln[..n], width, classify);
      var (pieces, buf) := CutFold(ln[..n], width, classify);
      var ch := ln[n];
      assert [ch][..0] == [];
      assert WidthSum([ch], classify) == CharWidth(classify(ch));
      if WidthSum(buf, classify) + CharWidth(classify(ch)) > width {
        InPrefixOrLast(pieces + [buf]);
        assert (pieces + [buf])[..|pieces|] == pieces;
      } else {
        assert (buf + [ch])[..|buf|] == buf;
      }
    }
  }

  lemma HardPiecesSpec(ln: string, width: int, classify: char -> CharClass)
    ensures Concat(HardPieces(ln, width, classify)) == ln
    ensures (forall c :: CharWidth(classify(c)) <= width) ==>
      forall p :: p in HardPieces(ln, width, classify) ==> p != "" && WidthSum(p, classify) <= width
  {
    CutFoldConcat(ln, width, classify);
    if forall c :: CharWidth(classify(c)) <= width {
      CutFoldFits(ln, width, classify);
    }
    var (pieces, buf) := CutFold(ln, width, classify);
    if buf != "" {
      ConcatAppend(pieces, [buf]);
      assert [buf][..0] == [];
      InPrefixOrLast(pieces + [buf]);
      assert (pieces + [buf])[..|pieces|] == pieces;
    }
  }

  /** Removing colour codes never widens a text. */
  lemma {:induction false} StripAnsiNarrows(s: string, classify: char -> CharClass)
    ensures DisplayWidthOf(s, classify) <= WidthSum(s, classify)
    decreases |s|
  {
    if s != [] {
      var e := NextStart(s);
      StripAnsiNarrows(s[e..], classify);
      KeptNarrows(s, classify);
      WidthSumAppend(Kept(s), StripAnsi(s[e..]), classify);
      WidthSumSplit(s, e, classify);
    }
  }

  lemma WidthSumSplit(s: string, e: nat, classify: char -> CharClass)
    requires e <= |s|
    ensures WidthSum(s, classify) == WidthSum(s[..e], classify) + WidthSum(s[e..], classify)
  {
    WidthSumAppend(s[..e], s[e..], classify);
    assert s[..e] + s[e..] == s;
  }

  /** The front of a text is never wider without its colour code. */
  lemma KeptNarrows(s: string, classify: char -> CharClass)
    requires s != []
    ensures WidthSum(Kept(s), classify) <= WidthSum(s[..NextStart(s)], classify)
  {
    if AnsiEnd(s).None? {
      assert s[..NextStart(s)] == [s[0]];
    }
  }

  /** The hard-wrap pass keeps every character, in order. */
  lemma {:induction false} HardAllConcat(lines: seq<string>, width: int, classify: char -> CharClass)
    ensures Concat(HardAll(lines, width, classify)) == Concat(lines)
    decreases |lines|
  {
    if lines != [] {
      var n := |lines| - 1;
      var ln := lines[n];
      HardAllConcat(lines[..n], width, classify);
      HardPiecesSpec(ln, width, classify);
      ConcatAppend(HardAll(lines[..n], width, classify), HardLine(ln, width, classify));
      assert Concat([ln]) == ln by {
        assert [ln][..0] == [];
      }
    }
  }

  /** A line that fits is kept as it is. */
  lemma {:induction false} HardAllKeeps(lines: seq<string>, width: int, classify: char -> CharClass)
    ensures forall i :: 0 <= i < |lines| && DisplayWidthOf(lines[i], classify) <= width ==>
      lines[i] in HardAll(lines, width, classify)
    decreases |lines|
  {
    if lines != [] {
      var n := |lines| - 1;
      var before := HardAll(lines[..n], width, classify);
      HardAllKeeps(lines[..n], width, classify);
      assert HardAll(lines, width, classify) == before + HardLine(lines[n], width, classify);
      forall i | 0 <= i < |lines| && DisplayWidthOf(lines[i], classify) <= width
        ensures lines[i] in HardAll(lines, width, classify)
      {
        if i < n {
          assert lines[..n][i] == lines[i];
          assert lines[i] in before;
        } else {
          assert i == n;
          assert DisplayWidthOf(lines[n], classify) <= width;
          assert HardLine(lines[n], width, classify) == [lines[n]];
          assert lines[i] in HardLine(lines[n], width, classify);
        }
      }
    }
  }

  /** When no character is wider than `width`, every line of the hard-wrap
      pass fits. */
  lemma {:induction false} HardAllFits(lines: seq<string>, width: int, classify: char -> CharClass)
    requires forall c :: CharWidth(classify(c)) <= width
    ensures forall p :: p in HardAll(lines, width, classify) ==> DisplayWidthOf(p, classify) <= width
    decreases |lines|
  {
    if lines != [] {
      var n := |lines| - 1;
      var ln := lines[n];
      HardAllFits(lines[..n], width, classify);
      HardPiecesSpec(ln, width, classify);
      forall p | p in HardLine(ln, width, classify) ensures DisplayWidthOf(p, classify) <= width {
        if DisplayWidthOf(ln, classify) > width {
          StripAnsiNarrows(p, classify);
        }
      }
    }
  }

  /** A width of zero or less leaves the text whole; otherwise the result is
      never empty, and an empty text gives one empty line. */
  lemma WrapSpec(s: string, width: int, classify: char -> CharClass)
    ensures width <= 0 ==> Wrap(s, width, classify) == [s]
    ensures Wrap(s, width, classify) != []
    ensures s == "" ==> Wrap(s, width, classify) == [""]
  {
    if s == "" && width > 0 {
      assert SplitSpaces(s) == [""];
      assert [""][..0] == [];
      assert WordFold([""], width, classify) == ([], "");
    }
  }

  /** When no character is wider than the width, every wrapped line fits. */
  lemma WrapFits(s: string, width: int, classify: char -> CharClass)
    requires width > 0
    requires forall c :: CharWidth(classify(c)) <= width
    ensures forall l :: l in Wrap(s, width, classify) ==> DisplayWidthOf(l, classify) <= width
  {
    HardAllFits(WordLines(SplitSpaces(s), width, classify), width, classify);
  }
}
