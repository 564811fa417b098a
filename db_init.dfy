/** The seed-script splitter of the database initialiser (app/db_init.py):
    a script is cut into statements at every `;` that lies outside single-
    and double-quoted text, each piece is stripped, and blank pieces are
    dropped. */
module DbInit {
  import opened Text

  /** Whether the scan is inside a single- or a double-quoted literal. */
  datatype QuoteState = QuoteState(inSingle: bool, inDouble: bool)

  predicate Outside(st: QuoteState) {
    !st.inSingle && !st.inDouble
  }

  /** One character of the scan: a quote toggles its own kind unless the
      scan is inside the other kind. */
  function Step(st: QuoteState, c: char): (r: QuoteState)
    ensures c != '\'' && c != '"' ==> r == st
    ensures st.inDouble && c == '\'' ==> r == st
    ensures st.inSingle && c == '"' ==> r == st
  {
    if c == '\'' && !st.inDouble then st.(inSingle := !st.inSingle)
    else if c == '"' && !st.inSingle then st.(inDouble := !st.inDouble)
    else st
  }

  /** The quote state after scanning all of `s`. */
  function StateAfter(s: string): QuoteState
    decreases |s|
  {
    if s == [] then QuoteState(false, false)
    else Step(StateAfter(s[..|s| - 1]), s[|s| - 1])
  }

  /** The scan never is inside both kinds of quote at once. */
  lemma {:induction false} StateAfterExclusive(s: string)
    ensures !(StateAfter(s).inSingle && StateAfter(s).inDouble)
    decreases |s|
  {
    if s != [] {
      StateAfterExclusive(s[..|s| - 1]);
    }
  }

  /** Position `i` holds a `;` that ends a statement. */
  predicate SeparatorAt(s: string, i: int) {
    0 <= i < |s| && s[i] == ';' && Outside(StateAfter(s[..i + 1]))
  }

  function SeparatorCount(s: string): nat
    decreases |s|
  {
    if s == [] then 0
    else SeparatorCount(s[..|s| - 1]) + (if SeparatorAt(s, |s| - 1) then 1 else 0)
  }

  /** The script cut at every separator, separators removed, blank pieces
      included: the statements before stripping. */
  function Segments(s: string): (r: seq<string>)
    ensures r != []
    decreases |s|
  {
    if s == [] then [""]
    else
      var ps := Segments(s[..|s| - 1]);
      if SeparatorAt(s, |s| - 1) then ps + [""]
      else ps[..|ps| - 1] + [ps[|ps| - 1] + [s[|s| - 1]]]
  }

  /** The stripped pieces that are not blank, in order. */
  function Keep(ps: seq<string>): seq<string>
    decreases |ps|
  {
    if ps == [] then []
    else
      var p := Strip(ps[|ps| - 1]);
      Keep(ps[..|ps| - 1]) + (if p != "" then [p] else [])
  }

  /** What `_split_sql_statements` returns. */
  function SplitSql(s: string): seq<string> {
    Keep(Segments(s))
  }

  // ---------------------------------------------------------------------
  // The scan

  lemma KeepSnoc(ps: seq<string>, p: string)
    ensures Strip(p) != "" ==> Keep(ps + [p]) == Keep(ps) + [Strip(p)]
    ensures Strip(p) == "" ==> Keep(ps + [p]) == Keep(ps)
  {
    assert (ps + [p])[..|ps|] == ps;
  }

  lemma SegmentsStep(s: string, i: nat)
    requires i < |s|
    ensures SeparatorAt(s, i) == SeparatorAt(s[..i + 1], i)
    ensures StateAfter(s[..i + 1]) == Step(StateAfter(s[..i]), s[i])
    ensures var ps := Segments(s[..i]);
      Segments(s[..i + 1]) == if SeparatorAt(s, i) then ps + [""] else ps[..|ps| - 1] + [ps[|ps| - 1] + [s[i]]]
  {
    assert s[..i + 1][..i] == s[..i];
    assert s[..i + 1][..i + 1] == s[..i + 1];
  }

  /** `_split_sql_statements`: one pass over the characters, collecting the
      current statement and emitting it at each separator. */
  method SplitSqlStatements(rawSql: string) returns (statements: seq<string>)
    ensures statements == SplitSql(rawSql)
  {
    statements := [];
    var current: string := [];
    var inSingle, inDouble := false, false;
    ghost var done: seq<string> := [];
    for i := 0 to |rawSql|
      invariant Segments(rawSql[..i]) == done + [current]
      invariant statements == Keep(done)
      invariant StateAfter(rawSql[..i]) == QuoteState(inSingle, inDouble)
    {
      var c := rawSql[i];
      SegmentsStep(rawSql, i);
      if c == '\'' && !inDouble {
        inSingle := !inSingle;
      } else if c == '"' && !inSingle {
        inDouble := !inDouble;
      }
      if c == ';' && !inSingle && !inDouble {
        var statement := Strip(current);
        if statement != "" {
          statements := statements + [statement];
        }
        KeepSnoc(done, current);
        done := done + [current];
        current := [];
        continue;
      }
      current := current + [c];
    }
    assert rawSql[..|rawSql|] == rawSql;
    KeepSnoc(done, current);
    var trailing := Strip(current);
    if trailing != "" {
      statements := statements + [trailing];
    }
  }

  // ---------------------------------------------------------------------
  // Properties

  /** The pieces put back together with `;` give the script: nothing but
      the separators is removed, and the order is kept. */
  lemma {:induction false} SegmentsJoin(s: string)
    ensures Join(";", Segments(s)) == s
    decreases |s|
  {
    if s != [] {
      var n := |s| - 1;
      var pre := s[..n];
      var ps := Segments(pre);
      SegmentsJoin(pre);
      assert s == pre + [s[n]];
      if SeparatorAt(s, n) {
        JoinSnoc(";", ps, "");
      } else {
        var m := |ps| - 1;
        if m == 0 {
          assert Segments(s) == [ps[0] + [s[n]]];
        } else {
          assert ps == ps[..m] + [ps[m]];
          JoinSnoc(";", ps[..m], ps[m]);
          JoinSnoc(";", ps[..m], ps[m] + [s[n]]);
        }
      }
    }
  }

  /** There is one more piece than there are separators. */
  lemma {:induction false} SegmentsCount(s: string)
    ensures |Segments(s)| == SeparatorCount(s) + 1
    decreases |s|
  {
    if s != [] {
      SegmentsCount(s[..|s| - 1]);
    }
  }

  lemma {:induction false} KeepSpec(ps: seq<string>)
    ensures |Keep(ps)| <= |ps|
    ensures forall x :: x in Keep(ps) ==> x != "" && IsStripped(x)
    decreases |ps|
  {
    if ps != [] {
      var p := ps[|ps| - 1];
      KeepSpec(ps[..|ps| - 1]);
      StripSpec(p);
    }
  }

  /** Every statement is non-blank and stripped, and there are at most one
      more statements than unquoted semicolons. */
  lemma SplitSqlSpec(s: string)
    ensures forall x :: x in SplitSql(s) ==> x != "" && IsStripped(x)
    ensures |SplitSql(s)| <= SeparatorCount(s) + 1
  {
    KeepSpec(Segments(s));
    SegmentsCount(s);
  }

  lemma {:induction false} NoSeparatorOneSegment(s: string)
    requires forall i :: 0 <= i < |s| ==> !SeparatorAt(s, i)
    ensures Segments(s) == [s]
    decreases |s|
  {
    if s != [] {
      var n := |s| - 1;
      forall i | 0 <= i < n ensures !SeparatorAt(s[..n], i) {
        assert s[..n][..i + 1] == s[..i + 1];
        assert !SeparatorAt(s, i);
      }
      NoSeparatorOneSegment(s[..n]);
      assert !SeparatorAt(s, n);
      assert s[..n] + [s[n]] == s;
    }
  }

  /** A script without an unquoted `;` is one statement, or none if blank. */
  lemma SplitSqlWhole(s: string)
    requires forall i :: 0 <= i < |s| ==> !SeparatorAt(s, i)
    ensures SplitSql(s) == if Strip(s) == "" then [] else [Strip(s)]
  {
    NoSeparatorOneSegment(s);
    KeepSnoc([], s);
  }

  /** A `;` inside a single-quoted literal does not split: once the scan
      has entered single quotes, a `;` before the closing quote is kept. */
  lemma QuotedSemicolonKept(s: string, i: nat)
    requires i < |s| && s[i] == ';'
    requires StateAfter(s[..i]).inSingle
    ensures !SeparatorAt(s, i)
  {
    assert s[..i + 1][..i] == s[..i];
  }
}
