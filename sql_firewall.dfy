/** The read-only SQL firewall (app/sql_firewall.py): an allow-list prefix
    check and five blocking patterns, applied in order, and `ensure_limit`,
    which appends a row limit unless one is present. The regular expressions
    are written out as predicates over positions of the text; `\w` is the
    ASCII word characters and IGNORECASE is ASCII case folding. */
module SqlFirewall {
  import opened Basics
  import opened Text

  // ---------------------------------------------------------------------
  // The regular-expression vocabulary

  /** `\w`. */
  predicate IsWordChar(c: char) {
    ('a' <= c <= 'z') || ('A' <= c <= 'Z') || ('0' <= c <= '9') || c == '_'
  }

  /** `\b` at position `i`: a word character on exactly one side. */
  predicate Boundary(s: string, i: int)
    requires 0 <= i <= |s|
  {
    (i > 0 && IsWordChar(s[i - 1])) != (i < |s| && IsWordChar(s[i]))
  }

  /** The lower-case word `w` occurs at `i`, ignoring case. */
  predicate MatchesAt(s: string, i: int, w: string) {
    0 <= i && i + |w| <= |s| && Lower(s[i..i + |w|]) == w
  }

  /** `\bW\b` matches at `i`. */
  predicate WordAt(s: string, w: string, i: int) {
    MatchesAt(s, i, w) && Boundary(s, i) && Boundary(s, i + |w|)
  }

  /** `re.search(r"\bW\b", s, re.IGNORECASE)`. */
  predicate ContainsWord(s: string, w: string) {
    exists i :: 0 <= i <= |s| && WordAt(s, w, i)
  }

  // ---------------------------------------------------------------------
  // `_ALLOWED_PREFIX` and `_BLOCK_PATTERNS`

  /** `^\s*(SELECT|WITH)\b`: the first non-space character starts one of
      the two words. */
  predicate AllowedPrefix(s: string) {
    var k := SkipSpaces(s, 0);
    WordAt(s, "select", k) || WordAt(s, "with", k)
  }

  const BlockedKeywords: seq<string> :=
    ["insert", "update", "delete", "drop", "truncate", "alter", "create", "replace", "grant", "revoke"]

  const PatternCount: nat := 5

  /** The source text of each pattern, as reported. */
  function PatternText(p: nat): string
    requires p < PatternCount
  {
    if p == 0 then "\\b(INSERT|UPDATE|DELETE|DROP|TRUNCATE|ALTER|CREATE|REPLACE|GRANT|REVOKE)\\b"
    else if p == 1 then "--"
    else if p == 2 then "/\\*"
    else if p == 3 then ";\\s*\\S"
    else "\\bINTO\\s+OUTFILE\\b"
  }

  /** Pattern `p` matches starting at position `i`. Pattern 3, `;\s*\S`,
      matches at a `;` followed, at any distance, by a non-space. */
  predicate PatternAt(s: string, p: nat, i: int)
    requires p < PatternCount
  {
    if p == 0 then exists k :: 0 <= k < |BlockedKeywords| && WordAt(s, BlockedKeywords[k], i)
    else if p == 1 then OccursAt(s, "--", i)
    else if p == 2 then OccursAt(s, "/*", i)
    else if p == 3 then 0 <= i < |s| && s[i] == ';' && exists k :: i < k < |s| && !IsSpace(s[k])
    else
      && MatchesAt(s, i, "into") && Boundary(s, i)
      && exists k :: i + 4 < k <= |s| && AllSpace(s[i + 4..k]) && WordAt(s, "outfile", k)
  }

  /** `pattern.search(sql)` finds a match. */
  predicate Blocks(s: string, p: nat)
    requires p < PatternCount
  {
    exists i :: 0 <= i <= |s| && PatternAt(s, p, i)
  }

  // ---------------------------------------------------------------------
  // `validate_sql`

  /** Why a statement is refused. */
  datatype Rejection = SqlEmpty | NotSelectOrWith | BlockedBy(pattern: nat)

  function Message(r: Rejection): string
    requires r.BlockedBy? ==> r.pattern < PatternCount
  {
    match r
    case SqlEmpty => "SQL is empty"
    case NotSelectOrWith => "Only SELECT / WITH queries are allowed"
    case BlockedBy(p) => "Blocked by SQL firewall pattern: " + PatternText(p)
  }

  /** The first pattern at or after `p` that matches. */
  function FirstBlocking(s: string, p: nat): (r: Option<nat>)
    requires p <= PatternCount
    decreases PatternCount - p
  {
    if p == PatternCount then None
    else if Blocks(s, p) then Some(p)
    else FirstBlocking(s, p + 1)
  }

  /** The verdict of `validate_sql`: `None` for `(True, None)`. */
  function Verdict(sql: string): Option<Rejection> {
    if Strip(sql) == "" then Some(SqlEmpty)
    else if !AllowedPrefix(sql) then Some(NotSelectOrWith)
    else
      match FirstBlocking(sql, 0)
      case Some(p) => Some(BlockedBy(p))
      case None => None
  }

  /** `validate_sql`: the checks in order, the first failure reported. */
  method ValidateSql(sql: string) returns (ok: bool, reason: Option<Rejection>)
    ensures reason == Verdict(sql)
    ensures ok <==> reason.None?
  {
    if sql == "" || Strip(sql) == "" {
      return false, Some(SqlEmpty);
    }
    if !AllowedPrefix(sql) {
      return false, Some(NotSelectOrWith);
    }
    for p := 0 to PatternCount
      invariant FirstBlocking(sql, 0) == FirstBlocking(sql, p)
    {
      if Blocks(sql, p) {
        return false, Some(BlockedBy(p));
      }
    }
    return true, None;
  }

  lemma {:induction false} FirstBlockingSpec(s: string, p: nat)
    requires p <= PatternCount
    ensures FirstBlocking(s, p).None? <==> forall q :: p <= q < PatternCount ==> !Blocks(s, q)
    ensures FirstBlocking(s, p).Some? ==>
      var q := FirstBlocking(s, p).value;
      p <= q < PatternCount && Blocks(s, q) && forall r :: p <= r < q ==> !Blocks(s, r)
    decreases PatternCount - p
  {
    if p < PatternCount && !Blocks(s, p) {
      FirstBlockingSpec(s, p + 1);
    }
  }

  /** A statement passes exactly when it is not blank, starts with SELECT
      or WITH, and no pattern matches; a refusal by a pattern names the
      first one, in list order, that matches. */
  lemma VerdictSpec(sql: string)
    ensures Verdict(sql).None? <==>
      Strip(sql) != "" && AllowedPrefix(sql) && forall p :: 0 <= p < PatternCount ==> !Blocks(sql, p)
    ensures Verdict(sql) == Some(SqlEmpty) <==> Strip(sql) == ""
    ensures Verdict(sql) == Some(NotSelectOrWith) <==> Strip(sql) != "" && !AllowedPrefix(sql)
    ensures Verdict(sql).Some? && Verdict(sql).value.BlockedBy? ==>
      var p := Verdict(sql).value.pattern;
      && Strip(sql) != "" && AllowedPrefix(sql)
      && p < PatternCount && Blocks(sql, p) && forall q :: 0 <= q < p ==> !Blocks(sql, q)
  {
    FirstBlockingSpec(sql, 0);
  }

  // ---------------------------------------------------------------------
  // Case does not matter

  lemma WordCharLower(c: char)
    ensures IsWordChar(LowerChar(c)) == IsWordChar(c)
  {
  }

  lemma BoundaryLower(s: string, i: int)
    requires 0 <= i <= |s|
    ensures Boundary(Lower(s), i) == Boundary(s, i)
  {
    if i > 0 {
      WordCharLower(s[i - 1]);
    }
    if i < |s| {
      WordCharLower(s[i]);
    }
  }

  lemma MatchesAtLower(s: string, i: int, w: string)
    ensures MatchesAt(Lower(s), i, w) == MatchesAt(s, i, w)
  {
    if 0 <= i && i + |w| <= |s| {
      LowerSlice(s, i, i + |w|);
      LowerIdempotent(s[i..i + |w|]);
    }
  }

  lemma WordAtLower(s: string, w: string, i: int)
    ensures WordAt(Lower(s), w, i) == WordAt(s, w, i)
  {
    MatchesAtLower(s, i, w);
    if MatchesAt(s, i, w) {
      BoundaryLower(s, i);
      BoundaryLower(s, i + |w|);
    }
  }

  /** A text without letters keeps its occurrences under case mapping. */
  lemma OccursAtLower(s: string, sub: string, i: int)
    requires forall j :: 0 <= j < |sub| ==> !('A' <= sub[j] <= 'Z') && !('a' <= sub[j] <= 'z')
    ensures OccursAt(Lower(s), sub, i) == OccursAt(s, sub, i)
  {
    if 0 <= i && i + |sub| <= |s| {
      var t := s[i..i + |sub|];
      LowerSlice(s, i, i + |sub|);
      if Lower(t) == sub {
        forall j | 0 <= j < |sub| ensures t[j] == sub[j] {
          assert LowerChar(t[j]) == sub[j];
        }
      }
    }
  }

  lemma AllSpaceLower(s: string, a: int, b: int)
    requires 0 <= a <= b <= |s|
    ensures AllSpace(Lower(s)[a..b]) == AllSpace(s[a..b])
  {
    forall j | a <= j < b ensures IsSpace(Lower(s)[j]) == IsSpace(s[j]) {
      LowerCharKeepsSpace(s[j]);
    }
    assert forall j :: 0 <= j < b - a ==> Lower(s)[a..b][j] == Lower(s)[a + j] && s[a..b][j] == s[a + j];
  }

  lemma PatternAtLower(s: string, p: nat, i: int)
    requires p < PatternCount
    ensures PatternAt(Lower(s), p, i) == PatternAt(s, p, i)
  {
    var t := Lower(s);
    if p == 0 {
      forall k | 0 <= k < |BlockedKeywords| ensures WordAt(t, BlockedKeywords[k], i) == WordAt(s, BlockedKeywords[k], i) {
        WordAtLower(s, BlockedKeywords[k], i);
      }
    } else if p == 1 {
      OccursAtLower(s, "--", i);
    } else if p == 2 {
      OccursAtLower(s, "/*", i);
    } else if p == 3 {
      forall k | 0 <= k < |s| ensures IsSpace(t[k]) == IsSpace(s[k]) {
        LowerCharKeepsSpace(s[k]);
      }
    } else {
      MatchesAtLower(s, i, "into");
      if 0 <= i <= |s| {
        BoundaryLower(s, i);
      }
      forall k | i + 4 < k <= |s| && 0 <= i
        ensures (AllSpace(t[i + 4..k]) && WordAt(t, "outfile", k)) == (AllSpace(s[i + 4..k]) && WordAt(s, "outfile", k))
      {
        AllSpaceLower(s, i + 4, k);
        WordAtLower(s, "outfile", k);
      }
    }
  }

  lemma BlocksLower(s: string, p: nat)
    requires p < PatternCount
    ensures Blocks(Lower(s), p) == Blocks(s, p)
  {
    forall i | 0 <= i <= |s| ensures PatternAt(Lower(s), p, i) == PatternAt(s, p, i) {
      PatternAtLower(s, p, i);
    }
  }

  lemma {:induction false} FirstBlockingLower(s: string, p: nat)
    requires p <= PatternCount
    ensures FirstBlocking(Lower(s), p) == FirstBlocking(s, p)
    decreases PatternCount - p
  {
    if p < PatternCount {
      BlocksLower(s, p);
      FirstBlockingLower(s, p + 1);
    }
  }

  /** Every check ignores case: lower-casing the statement does not change
      the verdict. */
  lemma VerdictIgnoresCase(sql: string)
    ensures Verdict(Lower(sql)) == Verdict(sql)
  {
    StripLowerCommute(sql);
    var k := SkipSpaces(sql, 0);
    SkipSpacesLower(sql, 0);
    WordAtLower(sql, "select", k);
    WordAtLower(sql, "with", k);
    FirstBlockingLower(sql, 0);
  }

  // ---------------------------------------------------------------------
  // `ensure_limit`

  /** `sql.strip().rstrip(";")`. */
  function Cleaned(sql: string): string {
    RStripChar(Strip(sql), ';')
  }

  /** The cleaned text if it already has a LIMIT word, else the cleaned text
      with `\nLIMIT n` appended. */
  function EnsureLimit(sql: string, maxRows: int): string {
    var cleaned := Cleaned(sql);
    if ContainsWord(cleaned, "limit") then cleaned else cleaned + "\nLIMIT " + IntToString(maxRows)
  }

  lemma IntToStringLast(i: int)
    ensures var r := IntToString(i); IsDigit(r[|r| - 1])
  {
    var r := IntToString(i);
    if i < 0 {
      var d := NatToString(-i);
      assert r == "-" + d;
      assert r[|r| - 1] == d[|d| - 1];
    }
  }

  /** `\nLIMIT n` appended to any text is a LIMIT word, and the text ends
      with a digit. */
  lemma AppendedLimit(cleaned: string, maxRows: int)
    ensures var r := cleaned + "\nLIMIT " + IntToString(maxRows);
      WordAt(r, "limit", |cleaned| + 1) && IsDigit(r[|r| - 1])
  {
    var digits := IntToString(maxRows);
    var r := cleaned + "\nLIMIT " + digits;
    var at := |cleaned| + 1;
    assert r[at..at + 5] == "LIMIT";
    assert Lower("LIMIT") == "limit";
    assert r[at - 1] == '\n' && r[at + 5] == ' ';
    IntToStringLast(maxRows);
    assert r[|r| - 1] == digits[|digits| - 1];
  }

  /** The result never ends with `;` and always contains the word LIMIT. */
  lemma EnsureLimitSpec(sql: string, maxRows: int)
    ensures var r := EnsureLimit(sql, maxRows);
      && (r == [] || r[|r| - 1] != ';')
      && ContainsWord(r, "limit")
  {
    var cleaned := Cleaned(sql);
    if !ContainsWord(cleaned, "limit") {
      AppendedLimit(cleaned, maxRows);
    }
  }

  /** The result is the cleaned text, extended exactly when that had no
      LIMIT word. */
  lemma EnsureLimitKeepsCleaned(sql: string, maxRows: int)
    ensures var r := EnsureLimit(sql, maxRows);
      && StartsWith(r, Cleaned(sql))
      && (r == Cleaned(sql) <==> ContainsWord(Cleaned(sql), "limit"))
  {
    var cleaned := Cleaned(sql);
    if !ContainsWord(cleaned, "limit") {
      var r := EnsureLimit(sql, maxRows);
      assert r[..|cleaned|] == cleaned;
      assert |r| > |cleaned|;
    }
  }
}
