/** The chart planner (app/chart_planner.py): picks a chart type and axes
    for a query result from the first row's value types and the column
    names. */
module ChartPlanner {
  import opened Basics
  import opened Text
  import opened Seqs
  import opened QueryExecutor

  datatype ChartType = Table | Line | Bar

  datatype ChartSpec = ChartSpec(chartType: ChartType, x: Option<string>, y: seq<string>, title: string)

  const TimeHints: seq<string> := ["date", "month", "time", "yyyy"]

  /** A column name that reads as time: its lower-cased form contains one
      of the hints. */
  predicate TimeLike(c: string) {
    exists k :: 0 <= k < |TimeHints| && Contains(Lower(c), TimeHints[k])
  }

  /** `[c for c, v in sample.items() if _is_number(v)]`. */
  function NumericCols(sample: Row): seq<string> {
    Keys(Filter((e: (string, Cell)) => IsNumber(e.1), sample), (e: (string, Cell)) => e.0)
  }

  /** `build_chart_spec`. */
  function BuildChartSpec(result: QueryResult, title: string): ChartSpec {
    if result.rows == [] then ChartSpec(Table, None, [], title + " (empty)")
    else
      var numeric := NumericCols(result.rows[0]);
      var nonNumeric := Filter(c => c !in numeric, result.columns);
      if numeric == [] then ChartSpec(Table, None, [], title)
      else
        var xCandidates := Filter(TimeLike, nonNumeric);
        if xCandidates != [] then ChartSpec(Line, Some(xCandidates[0]), [numeric[0]], title)
        else if nonNumeric != [] then ChartSpec(Bar, Some(nonNumeric[0]), [numeric[0]], title)
        else ChartSpec(Table, None, numeric[..if |numeric| < 3 then |numeric| else 3], title)
  }

  /** A column counts as numeric exactly when the first row has a number
      under that name; a bool is not a number. */
  lemma NumericColsSpec(sample: Row)
    ensures forall c :: c in NumericCols(sample) <==> exists i :: 0 <= i < |sample| && sample[i].0 == c && IsNumber(sample[i].1)
  {
    var kept := Filter((e: (string, Cell)) => IsNumber(e.1), sample);
    forall c ensures c in NumericCols(sample) <==> exists i :: 0 <= i < |sample| && sample[i].0 == c && IsNumber(sample[i].1) {
      if c in NumericCols(sample) {
        var j :| 0 <= j < |kept| && NumericCols(sample)[j] == c;
        assert kept[j] in kept;
        var i :| 0 <= i < |sample| && sample[i] == kept[j];
      }
      if exists i :: 0 <= i < |sample| && sample[i].0 == c && IsNumber(sample[i].1) {
        var i :| 0 <= i < |sample| && sample[i].0 == c && IsNumber(sample[i].1);
        assert sample[i] in kept;
        var j :| 0 <= j < |kept| && kept[j] == sample[i];
        assert NumericCols(sample)[j] == c;
      }
    }
  }

  /** An empty result is a table titled as empty; otherwise the title is
      kept, and a result whose first row has no number is a table. */
  lemma BuildChartSpecEmpty(result: QueryResult, title: string)
    ensures result.rows == [] ==> BuildChartSpec(result, title) == ChartSpec(Table, None, [], title + " (empty)")
    ensures result.rows != [] ==> BuildChartSpec(result, title).title == title
    ensures result.rows != [] && NumericCols(result.rows[0]) == [] ==>
      BuildChartSpec(result, title) == ChartSpec(Table, None, [], title)
  {
  }

  /** With a numeric column: a line over the first non-numeric column whose
      name reads as time, else a bar over the first non-numeric column,
      each against the first numeric column; if every column is numeric, a
      table of at most the first three numeric columns. */
  lemma BuildChartSpecChoice(result: QueryResult, title: string)
    requires result.rows != [] && NumericCols(result.rows[0]) != []
    ensures var numeric := NumericCols(result.rows[0]);
      var r := BuildChartSpec(result, title);
      && ((exists i :: 0 <= i < |result.columns| && result.columns[i] !in numeric && TimeLike(result.columns[i])) ==>
            r.chartType == Line && r.y == [numeric[0]] && r.x.Some?
            && IsFirstWhere(result.columns, c => c !in numeric && TimeLike(c), r.x.value))
      && ((forall i :: 0 <= i < |result.columns| && result.columns[i] !in numeric ==> !TimeLike(result.columns[i]))
          && (exists i :: 0 <= i < |result.columns| && result.columns[i] !in numeric) ==>
            r.chartType == Bar && r.y == [numeric[0]] && r.x.Some?
            && IsFirstWhere(result.columns, c => c !in numeric, r.x.value))
      && ((forall i :: 0 <= i < |result.columns| ==> result.columns[i] in numeric) ==>
            r.chartType == Table && r.x.None? && |r.y| == (if |numeric| < 3 then |numeric| else 3)
            && forall k :: 0 <= k < |r.y| ==> r.y[k] == numeric[k])
  {
    var numeric := NumericCols(result.rows[0]);
    var notNumeric := c => c !in numeric;
    var both := c => c !in numeric && TimeLike(c);
    var nonNumeric := Filter(notNumeric, result.columns);
    FilterFilter(notNumeric, TimeLike, both, result.columns);
    FilterFirst(both, result.columns);
    FilterFirst(notNumeric, result.columns);
  }

  /** A first row of a non-numeric value and a number has that one
      numeric column. */
  lemma NumericColsOfPair(a: string, va: Cell, b: string, vb: Cell)
    requires !IsNumber(va) && IsNumber(vb)
    ensures NumericCols([(a, va), (b, vb)]) == [b]
  {
    var isNum := (e: (string, Cell)) => IsNumber(e.1);
    var sample: Row := [(a, va), (b, vb)];
    assert sample[1..] == [(b, vb)];
    assert sample[1..][1..] == [];
    assert Filter(isNum, sample) == [(b, vb)];
  }

  /** Two columns, the first non-numeric and named like a time, the second
      a number: a line over the first against the second. */
  lemma LineOverTimeColumn(x: string, vx: Cell, y: string, vy: Cell, more: seq<Row>, title: string)
    requires x != y && !IsNumber(vx) && IsNumber(vy) && TimeLike(x)
    ensures BuildChartSpec(QueryResult([x, y], [[(x, vx), (y, vy)]] + more), title) == ChartSpec(Line, Some(x), [y], title)
  {
    var result := QueryResult([x, y], [[(x, vx), (y, vy)]] + more);
    NumericColsOfPair(x, vx, y, vy);
    BuildChartSpecChoice(result, title);
    assert result.columns[0] !in NumericCols(result.rows[0]) && TimeLike(result.columns[0]);
  }

  /** Two columns, the first non-numeric and not named like a time, the
      second a number: a bar over the first against the second. */
  lemma BarOverOtherColumn(x: string, vx: Cell, y: string, vy: Cell, more: seq<Row>, title: string)
    requires x != y && !IsNumber(vx) && IsNumber(vy) && !TimeLike(x)
    ensures BuildChartSpec(QueryResult([x, y], [[(x, vx), (y, vy)]] + more), title) == ChartSpec(Bar, Some(x), [y], title)
  {
    var result := QueryResult([x, y], [[(x, vx), (y, vy)]] + more);
    NumericColsOfPair(x, vx, y, vy);
    BuildChartSpecChoice(result, title);
    assert result.columns[0] !in NumericCols(result.rows[0]);
  }

  /** A date column against a balance gives a line over the dates. */
  lemma TimeDimensionExample()
    ensures var result := QueryResult(["biz_date", "deposit_balance"],
        [[("biz_date", TextCell("2026-01-01")), ("deposit_balance", FloatCell)],
         [("biz_date", TextCell("2026-01-02")), ("deposit_balance", FloatCell)]]);
      BuildChartSpec(result, "Balance Trend") == ChartSpec(Line, Some("biz_date"), ["deposit_balance"], "Balance Trend")
  {
    assert "biz_date"[0] != "deposit_balance"[0];
    assert Lower("biz_date") == "biz_date";
    assert OccursAt("biz_date", "date", 4);
    assert TimeHints[0] == "date";
    assert TimeLike("biz_date");
    var more: seq<Row> := [[("biz_date", TextCell("2026-01-02")), ("deposit_balance", FloatCell)]];
    LineOverTimeColumn("biz_date", TextCell("2026-01-01"), "deposit_balance", FloatCell, more, "Balance Trend");
  }

  /** A region column against a count gives a bar over the regions. */
  lemma CategoricalDimensionExample()
    ensures var result := QueryResult(["region", "txn_count"],
        [[("region", TextCell("澳門半島")), ("txn_count", IntCell(88))],
         [("region", TextCell("氹仔")), ("txn_count", IntCell(55))]]);
      BuildChartSpec(result, "SQL Query Result") == ChartSpec(Bar, Some("region"), ["txn_count"], "SQL Query Result")
  {
    assert "region"[0] != "txn_count"[0];
    assert Lower("region") == "region";
    forall k | 0 <= k < |TimeHints| ensures !Contains("region", TimeHints[k]) {
      var hint := TimeHints[k];
      assert hint == "date" || hint == "month" || hint == "time" || hint == "yyyy";
      assert |hint| >= 4 && hint[0] in "dmty";
      forall j | 0 <= j <= 2 ensures !OccursAt("region", hint, j) {
        assert "region"[j] in "reg";
        assert "region"[j..j + 4][0] != hint[0];
      }
    }
    assert !TimeLike("region");
    var more: seq<Row> := [[("region", TextCell("氹仔")), ("txn_count", IntCell(55))]];
    BarOverOtherColumn("region", TextCell("澳門半島"), "txn_count", IntCell(88), more, "SQL Query Result");
  }
}
