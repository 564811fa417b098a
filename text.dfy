/** The handful of Python `str` operations the core relies on: strip, lower,
    substring search, split with maxsplit=1, join, replace and int formatting.
    Whitespace is Python's `str.isspace()`; case mapping is ASCII only. */
module Text {
  import opened Basics

  /** Python's `str.isspace()` (also what `\s` matches in a `str` regex). */
  predicate IsSpace(c: char) {
    c == ' ' || ('\t' <= c <= '\r') || ('\U{1C}' <= c <= '\U{1F}') || c == '\U{85}' || c == '\U{A0}'
    || c == '\U{1680}' || ('\U{2000}' <= c <= '\U{200A}') || c == '\U{2028}' || c == '\U{2029}'
    || c == '\U{202F}' || c == '\U{205F}' || c == '\U{3000}'
  }

  /** Neither end of `s` is whitespace: what `str.strip()` always returns. */
  predicate IsStripped(s: string) {
    s == [] || (!IsSpace(s[0]) && !IsSpace(s[|s| - 1]))
  }

  predicate AllSpace(s: string) {
    forall i :: 0 <= i < |s| ==> IsSpace(s[i])
  }

  /** The index of the first non-space character at or after `k`, or |s|. */
  function SkipSpaces(s: string, k: nat): (r: nat)
    requires k <= |s|
    ensures k <= r <= |s|
    decreases |s| - k
  {
    if k < |s| && IsSpace(s[k]) then SkipSpaces(s, k + 1) else k
  }

  lemma {:induction false} SkipSpacesSpec(s: string, k: nat)
    requires k <= |s|
    ensures forall i :: k <= i < SkipSpaces(s, k) ==> IsSpace(s[i])
    ensures SkipSpaces(s, k) < |s| ==> !IsSpace(s[SkipSpaces(s, k)])
    decreases |s| - k
  {
    if k < |s| && IsSpace(s[k]) {
      SkipSpacesSpec(s, k + 1);
    }
  }

  /** The end of `s[lo..hi]` once its trailing spaces are dropped. */
  function TrimEnd(s: string, lo: nat, hi: nat): (r: nat)
    requires lo <= hi <= |s|
    ensures lo <= r <= hi
    decreases hi
  {
    if hi > lo && IsSpace(s[hi - 1]) then TrimEnd(s, lo, hi - 1) else hi
  }

  lemma {:induction false} TrimEndSpec(s: string, lo: nat, hi: nat)
    requires lo <= hi <= |s|
    ensures forall i :: TrimEnd(s, lo, hi) <= i < hi ==> IsSpace(s[i])
    ensures TrimEnd(s, lo, hi) > lo ==> !IsSpace(s[TrimEnd(s, lo, hi) - 1])
    decreases hi
  {
    if hi > lo && IsSpace(s[hi - 1]) {
      TrimEndSpec(s, lo, hi - 1);
    }
  }

  /** Python's `str.strip()`. */
  function Strip(s: string): (r: string)
    ensures |r| <= |s|
  {
    var lo := SkipSpaces(s, 0);
    s[lo..TrimEnd(s, lo, |s|)]
  }

  /** The result starts and ends with a non-space, and is empty exactly when
      the input is all spaces. */
  lemma StripSpec(s: string)
    ensures IsStripped(Strip(s))
    ensures Strip(s) == [] <==> AllSpace(s)
  {
    var lo := SkipSpaces(s, 0);
    var hi := TrimEnd(s, lo, |s|);
    SkipSpacesSpec(s, 0);
    TrimEndSpec(s, lo, |s|);
    if hi > lo {
      assert !IsSpace(s[lo]);
    }
  }

  lemma StrippedIsFixpoint(s: string)
    requires IsStripped(s)
    ensures Strip(s) == s
  {
  }

  /** Stripping twice is stripping once. */
  lemma StripIdempotent(s: string)
    ensures Strip(Strip(s)) == Strip(s)
  {
    StripSpec(s);
    StrippedIsFixpoint(Strip(s));
  }

  /** Stripping only removes whitespace: a non-space character of `s`
      survives, shifted by the leading whitespace. */
  lemma StripKeepsText(s: string, i: nat)
    requires i < |s| && !IsSpace(s[i])
    ensures SkipSpaces(s, 0) <= i && i - SkipSpaces(s, 0) < |Strip(s)|
    ensures Strip(s)[i - SkipSpaces(s, 0)] == s[i]
  {
    var lo := SkipSpaces(s, 0);
    SkipSpacesSpec(s, 0);
    TrimEndSpec(s, lo, |s|);
  }

  function LowerChar(c: char): char {
    if 'A' <= c <= 'Z' then (c as int + 32) as char else c
  }

  /** Python's `str.lower()`, on ASCII letters. */
  function Lower(s: string): (r: string)
    ensures |r| == |s|
  {
    seq(|s|, i requires 0 <= i < |s| => LowerChar(s[i]))
  }

  lemma LowerCharKeepsSpace(c: char)
    ensures IsSpace(LowerChar(c)) == IsSpace(c)
  {
  }

  lemma LowerIdempotent(s: string)
    ensures Lower(Lower(s)) == Lower(s)
  {
  }

  /** Case mapping never turns whitespace into text or back, so it commutes
      with stripping. */
  lemma StripLowerCommute(s: string)
    ensures Strip(Lower(s)) == Lower(Strip(s))
  {
    var lo := SkipSpaces(s, 0);
    SkipSpacesLower(s, 0);
    TrimEndLower(s, lo, |s|);
    var hi := TrimEnd(s, lo, |s|);
    LowerSlice(s, lo, hi);
  }

  lemma LowerSlice(s: string, lo: nat, hi: nat)
    requires lo <= hi <= |s|
    ensures Lower(s)[lo..hi] == Lower(s[lo..hi])
  {
    forall k | 0 <= k < hi - lo ensures Lower(s)[lo..hi][k] == Lower(s[lo..hi])[k] {
      assert Lower(s)[lo..hi][k] == Lower(s)[lo + k];
    }
  }

  lemma {:induction false} SkipSpacesLower(s: string, k: nat)
    requires k <= |s|
    ensures SkipSpaces(Lower(s), k) == SkipSpaces(s, k)
    decreases |s| - k
  {
    if k < |s| {
      LowerCharKeepsSpace(s[k]);
      if IsSpace(s[k]) {
        SkipSpacesLower(s, k + 1);
      }
    }
  }

  lemma {:induction false} TrimEndLower(s: string, lo: nat, hi: nat)
    requires lo <= hi <= |s|
    ensures TrimEnd(Lower(s), lo, hi) == TrimEnd(s, lo, hi)
    decreases hi
  {
    if hi > lo {
      LowerCharKeepsSpace(s[hi - 1]);
      if IsSpace(s[hi - 1]) {
        TrimEndLower(s, lo, hi - 1);
      }
    }
  }

  /** Python's `str.rstrip(c)` for a single character `c`. */
  function RStripChar(s: string, c: char): (r: string)
    ensures |r| <= |s| && r == s[..|r|]
    ensures r == [] || r[|r| - 1] != c
    ensures forall i :: |r| <= i < |s| ==> s[i] == c
  {
    if s != [] && s[|s| - 1] == c then RStripChar(s[..|s| - 1], c) else s
  }

  predicate OccursAt(s: string, sub: string, i: int) {
    0 <= i && i + |sub| <= |s| && s[i..i + |sub|] == sub
  }

  /** First position at or after `k` where `sub` occurs (Python's `str.find`). */
  function IndexFrom(s: string, sub: string, k: nat): (r: Option<nat>)
    decreases |s| + 1 - k
    ensures r.Some? ==> k <= r.value && OccursAt(s, sub, r.value)
    ensures r.Some? ==> forall j :: k <= j < r.value ==> !OccursAt(s, sub, j)
    ensures r.None? ==> forall j :: k <= j ==> !OccursAt(s, sub, j)
  {
    if k + |sub| > |s| then None
    else if s[k..k + |sub|] == sub then Some(k)
    else IndexFrom(s, sub, k + 1)
  }

  function IndexOf(s: string, sub: string): Option<nat> {
    IndexFrom(s, sub, 0)
  }

  /** Python's `sub in s`. */
  predicate Contains(s: string, sub: string)
    ensures Contains(s, sub) <==> exists j :: OccursAt(s, sub, j)
  {
    IndexOf(s, sub).Some?
  }

  lemma ContainsWitness(s: string, sub: string, j: int)
    requires OccursAt(s, sub, j)
    ensures Contains(s, sub)
  {
  }

  lemma {:induction false} ContainsInfix(s: string, sub: string, a: int, b: int)
    requires 0 <= a <= b <= |s|
    requires Contains(s[a..b], sub)
    ensures Contains(s, sub)
  {
    var j :| OccursAt(s[a..b], sub, j);
    forall k | 0 <= k < |sub| ensures s[a + j + k] == sub[k] {
      assert s[a..b][j..j + |sub|][k] == sub[k];
    }
    assert s[a + j..a + j + |sub|] == sub;
    ContainsWitness(s, sub, a + j);
  }

  /** Nothing before the first occurrence contains `sep`. */
  lemma NoEarlierOccurrence(s: string, sep: string, i: nat)
    requires sep != [] && IndexOf(s, sep) == Some(i)
    ensures !Contains(s[..i], sep)
  {
    var before := s[..i];
    forall j | 0 <= j && j + |sep| <= |before| ensures !OccursAt(before, sep, j) {
      assert !OccursAt(s, sep, j);
      assert before[j..j + |sep|] == s[j..j + |sep|];
    }
  }

  lemma SplitAround(s: string, sep: string, i: nat)
    requires OccursAt(s, sep, i)
    ensures s[..i] + sep + s[i + |sep|..] == s
  {
    var rest := s[i + |sep|..];
    assert s[i..] == s[i..][..|sep|] + s[i..][|sep|..];
    assert s[i..][..|sep|] == sep;
    assert s[i..][|sep|..] == rest;
    assert s == s[..i] + s[i..];
    assert s[..i] + sep + rest == s[..i] + (sep + rest);
  }

  /** Python's `s.split(sep, 1)`. */
  function SplitOnce(s: string, sep: string): (r: seq<string>)
    requires sep != []
    ensures 1 <= |r| <= 2
    ensures |r| == 2 <==> Contains(s, sep)
    ensures |r| == 1 ==> r[0] == s
    ensures |r| == 2 ==> r[0] + sep + r[1] == s && !Contains(r[0], sep)
  {
    match IndexOf(s, sep)
    case None => [s]
    case Some(i) =>
      NoEarlierOccurrence(s, sep, i);
      SplitAround(s, sep, i);
      [s[..i], s[i + |sep|..]]
  }

  /** Python's `sep.join(parts)`. */
  function Join(sep: string, parts: seq<string>): string
    decreases |parts|
  {
    if parts == [] then ""
    else if |parts| == 1 then parts[0]
    else Join(sep, parts[..|parts| - 1]) + sep + parts[|parts| - 1]
  }

  lemma JoinSnoc(sep: string, ps: seq<string>, p: string)
    requires ps != []
    ensures Join(sep, ps + [p]) == Join(sep, ps) + sep + p
  {
    assert (ps + [p])[..|ps|] == ps;
  }

  /** Python's `s.replace(a, b)` for single characters. */
  function ReplaceChar(s: string, a: char, b: char): (r: string)
    ensures |r| == |s|
    ensures forall i :: 0 <= i < |s| ==> r[i] == (if s[i] == a then b else s[i])
  {
    if s == [] then [] else [if s[0] == a then b else s[0]] + ReplaceChar(s[1..], a, b)
  }

  predicate IsDigit(c: char) {
    '0' <= c <= '9'
  }

  function DigitChar(d: nat): (c: char)
    requires d < 10
    ensures IsDigit(c) && c as int - '0' as int == d
  {
    (d + '0' as int) as char
  }

  /** Python's `str(n)` for a non-negative integer. */
  function NatToString(n: nat): (r: string)
    ensures r != [] && forall i :: 0 <= i < |r| ==> IsDigit(r[i])
  {
    if n < 10 then [DigitChar(n)] else NatToString(n / 10) + [DigitChar(n % 10)]
  }

  /** Reads a string of decimal digits back as a number. */
  function DigitsValue(s: string): nat
    requires forall i :: 0 <= i < |s| ==> IsDigit(s[i])
  {
    if s == [] then 0
    else
      assert IsDigit(s[|s| - 1]);
      10 * DigitsValue(s[..|s| - 1]) + (s[|s| - 1] as int - '0' as int)
  }

  lemma {:induction false} NatToStringRoundTrip(n: nat)
    ensures DigitsValue(NatToString(n)) == n
  {
    if n >= 10 {
      var r := NatToString(n);
      assert r[..|r| - 1] == NatToString(n / 10);
      NatToStringRoundTrip(n / 10);
    }
  }

  /** Python's `str(i)` for an integer. */
  function IntToString(i: int): (r: string)
    ensures r != []
    ensures (r[0] == '-') <==> i < 0
  {
    if i < 0 then "-" + NatToString(-i) else NatToString(i)
  }

  /** Python's `s.startswith(prefix)`. */
  predicate StartsWith(s: string, prefix: string) {
    |prefix| <= |s| && s[..|prefix|] == prefix
  }

  /** Stripping adds no occurrence of anything. */
  lemma ContainsStrip(s: string, sub: string)
    requires Contains(Strip(s), sub)
    ensures Contains(s, sub)
  {
    var lo := SkipSpaces(s, 0);
    ContainsInfix(s, sub, lo, TrimEnd(s, lo, |s|));
  }
}
