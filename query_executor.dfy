/** The read-only query executor (app/query_executor.py): the select-only
    check applied before anything is sent to the database, the row-limit
    rule applied to the text that is executed, and the shape of a result. */
module QueryExecutor {
  import opened Basics
  import opened Text

  /** A value in a result row, as the database driver returns it. The value
      of a float is not modelled, only that it is a number. */
  datatype Cell = NoneCell | BoolCell(b: bool) | IntCell(i: int) | FloatCell | TextCell(s: string)

  /** `_is_number` of the chart modules: an int or a float, not a bool. */
  predicate IsNumber(v: Cell) {
    v.IntCell? || v.FloatCell?
  }

  /** A result row: its column names and values, in the driver's order. */
  type Row = seq<(string, Cell)>

  /** `QueryResult`. */
  datatype QueryResult = QueryResult(columns: seq<string>, rows: seq<Row>)

  // ---------------------------------------------------------------------
  // `_is_safe_select`

  /** `(sql or "").strip().lower()`. */
  function Normalized(sql: string): string {
    Lower(Strip(sql))
  }

  const BlockedTokens: seq<string> := [" insert ", " update ", " delete ", " drop ", " alter ", " create ", ";"]

  /** `_is_safe_select`: the normalized text starts with `select` and the
      space-padded text contains none of the blocked tokens. */
  predicate IsSafeSelect(sql: string) {
    var normalized := Normalized(sql);
    && StartsWith(normalized, "select")
    && !exists k :: 0 <= k < |BlockedTokens| && Contains(" " + normalized + " ", BlockedTokens[k])
  }

  /** Normalizing twice is normalizing once. */
  lemma NormalizedIdempotent(sql: string)
    ensures Normalized(Normalized(sql)) == Normalized(sql)
  {
    StripLowerCommute(Strip(sql));
    StripIdempotent(sql);
    LowerIdempotent(Strip(sql));
  }

  /** The verdict depends only on the trimmed, lower-cased text. */
  lemma IsSafeSelectNormalized(sql: string)
    ensures IsSafeSelect(Normalized(sql)) == IsSafeSelect(sql)
  {
    NormalizedIdempotent(sql);
  }

  /** A statement the check accepts starts with `select` once trimmed and
      lower-cased, and contains no `;` anywhere, not even at the end. */
  lemma IsSafeSelectSpec(sql: string)
    ensures IsSafeSelect(sql) ==> StartsWith(Normalized(sql), "select")
    ensures IsSafeSelect(sql) ==> forall i :: 0 <= i < |sql| ==> sql[i] != ';'
  {
    if IsSafeSelect(sql) {
      forall i | 0 <= i < |sql| ensures sql[i] != ';' {
        if sql[i] == ';' {
          SemicolonSeen(sql, i);
        }
      }
    }
  }

  lemma SemicolonSeen(sql: string, i: nat)
    requires i < |sql| && sql[i] == ';'
    ensures !IsSafeSelect(sql)
  {
    var lo := SkipSpaces(sql, 0);
    StripKeepsText(sql, i);
    var padded := " " + Normalized(sql) + " ";
    assert padded[i - lo + 1] == ';';
    assert OccursAt(padded, ";", i - lo + 1);
    assert BlockedTokens[6] == ";" && Contains(padded, BlockedTokens[6]);
  }

  /** A blocked keyword between spaces anywhere in the trimmed text is
      refused. */
  lemma IsSafeSelectRejectsKeyword(sql: string, k: nat)
    requires k < 6
    requires Contains(Normalized(sql), BlockedTokens[k])
    ensures !IsSafeSelect(sql)
  {
    var n := Normalized(sql);
    assert (" " + n + " ")[1..|n| + 1] == n;
    ContainsInfix(" " + n + " ", BlockedTokens[k], 1, |n| + 1);
  }

  /** A single SELECT with one trailing semicolon is refused. */
  lemma TrailingSemicolonRejected()
    ensures !IsSafeSelect("SELECT col FROM t;")
  {
    var sql := "SELECT col FROM t;";
    assert sql[17] == ';';
    IsSafeSelectSpec(sql);
  }

  // ---------------------------------------------------------------------
  // `run`

  const UnsafeMessage := "Only single SELECT queries are allowed."

  /** The text `run` executes: the trimmed SQL, with `\nLIMIT n` appended
      unless the lower-cased text contains ` limit `. */
  function LimitedSql(sql: string, maxRows: int): string {
    var limited := Strip(sql);
    if Contains(Lower(limited), " limit ") then limited
    else limited + "\nLIMIT " + IntToString(maxRows)
  }

  /** The characters of `str(i)` are a sign and digits. */
  lemma IntToStringChars(i: int)
    ensures forall k :: 0 <= k < |IntToString(i)| ==> IntToString(i)[k] == '-' || IsDigit(IntToString(i)[k])
  {
    if i < 0 {
      var r := IntToString(i);
      forall k | 0 <= k < |r| ensures r[k] == '-' || IsDigit(r[k]) {
        if k > 0 {
          assert r[k] == NatToString(-i)[k - 1];
        }
      }
    }
  }

  /** What reaches the database from accepted SQL: the trimmed statement,
      still a `select`, with no `;` anywhere, and a LIMIT added only when
      the text has no ` limit `. */
  lemma LimitedSqlSafe(sql: string, maxRows: int)
    requires IsSafeSelect(sql)
    ensures StartsWith(LimitedSql(sql, maxRows), Strip(sql))
    ensures StartsWith(Lower(LimitedSql(sql, maxRows)), "select")
    ensures forall i :: 0 <= i < |LimitedSql(sql, maxRows)| ==> LimitedSql(sql, maxRows)[i] != ';'
    ensures LimitedSql(sql, maxRows) == Strip(sql) <==> Contains(Lower(Strip(sql)), " limit ")
  {
    LimitedSqlSpec(sql, maxRows);
    LimitedSqlSelect(sql, maxRows);
    LimitedSqlNoSemicolon(sql, maxRows);
  }

  /** Accepted SQL has no `;` left after trimming. */
  lemma StrippedNoSemicolon(sql: string)
    requires IsSafeSelect(sql)
    ensures forall j :: 0 <= j < |Strip(sql)| ==> Strip(sql)[j] != ';'
  {
    var t := Strip(sql);
    IsSafeSelectSpec(sql);
    var lo := SkipSpaces(sql, 0);
    forall j | 0 <= j < |t| ensures t[j] != ';' {
      assert t[j] == sql[lo + j];
    }
  }

  lemma LimitedSqlSelect(sql: string, maxRows: int)
    requires IsSafeSelect(sql)
    ensures StartsWith(Lower(LimitedSql(sql, maxRows)), "select")
  {
    var t := Strip(sql);
    var r := LimitedSql(sql, maxRows);
    LimitedSqlSpec(sql, maxRows);
    IsSafeSelectSpec(sql);
    assert r[..|t|] == t;
    LowerSlice(r, 0, |t|);
    assert Lower(r)[..6] == Lower(t)[..6];
  }

  lemma LimitedSqlNoSemicolon(sql: string, maxRows: int)
    requires IsSafeSelect(sql)
    ensures forall i :: 0 <= i < |LimitedSql(sql, maxRows)| ==> LimitedSql(sql, maxRows)[i] != ';'
  {
    var t := Strip(sql);
    var r := LimitedSql(sql, maxRows);
    StrippedNoSemicolon(sql);
    LimitedSqlSpec(sql, maxRows);
    IntToStringChars(maxRows);
    var digits := IntToString(maxRows);
    forall i | 0 <= i < |r| ensures r[i] != ';' {
      if i < |t| {
        assert r[i] == r[..|t|][i];
      } else {
        assert r[i] == r[|t|..][i - |t|];
        if i - |t| >= 7 {
          assert r[|t|..][i - |t|] == digits[i - |t| - 7];
        }
      }
    }
  }


  /** `run` up to the database call: unsafe SQL is refused before anything
      else happens, and what safe SQL sends to the database is the trimmed
      statement, still a `select`, free of `;`, extended by `\nLIMIT n`
      exactly when it has no ` limit `. */
  function Run(sql: string, maxRows: int): (r: Result<string, string>)
    ensures r.Err? <==> !IsSafeSelect(sql)
    ensures r.Err? ==> r.error == UnsafeMessage
    ensures r.Ok? ==> StartsWith(r.value, Strip(sql)) && StartsWith(Lower(r.value), "select")
    ensures r.Ok? ==> forall i :: 0 <= i < |r.value| ==> r.value[i] != ';'
    ensures r.Ok? ==> (r.value == Strip(sql) <==> Contains(Lower(Strip(sql)), " limit "))
  {
    if !IsSafeSelect(sql) then Err(UnsafeMessage)
    else
      LimitedSqlSafe(sql, maxRows);
      Ok(LimitedSql(sql, maxRows))
  }

  /** The executed text is the trimmed SQL, extended exactly when it has no
      ` limit ` (in any case), and then by `\nLIMIT n`. */
  lemma LimitedSqlSpec(sql: string, maxRows: int)
    ensures StartsWith(LimitedSql(sql, maxRows), Strip(sql))
    ensures LimitedSql(sql, maxRows) == Strip(sql) <==> Contains(Lower(Strip(sql)), " limit ")
    ensures LimitedSql(sql, maxRows) != Strip(sql) ==>
      LimitedSql(sql, maxRows)[|Strip(sql)|..] == "\nLIMIT " + IntToString(maxRows)
  {
    var t := Strip(sql);
    var r := LimitedSql(sql, maxRows);
    if r != t {
      assert r[..|t|] == t;
    }
  }
}
