/** The Vega-Lite chart builder (app/charting.py): picks an x (category)
    and a y (measure) field from the columns of a result, then builds the
    chart description for the requested chart type. */
module Charting {
  import opened Basics
  import opened Text
  import opened Seqs
  import opened QueryExecutor

  /** `r.get(c)`: the value stored under `c`, or `None`. */
  function Get(row: Row, c: string): Cell {
    if row == [] then NoneCell
    else if row[0].0 == c then row[0].1
    else Get(row[1..], c)
  }

  /** Some row holds a number (not a bool) under column `c`. */
  predicate ColumnIsNumeric(rows: seq<Row>, c: string) {
    exists i :: 0 <= i < |rows| && IsNumber(Get(rows[i], c))
  }

  /** `_pick_fields`: `None` for `(None, None)`, else `(x, y)`. */
  function PickFields(rows: seq<Row>, columns: seq<string>): Option<(string, string)> {
    if rows == [] || columns == [] then None
    else
      var numeric := Filter(c => ColumnIsNumeric(rows, c), columns);
      var dimensions := Filter(c => c !in numeric, columns);
      var x := if dimensions != [] then dimensions[0] else columns[0];
      var y := if numeric != [] then numeric[0] else if |columns| > 1 then columns[1] else columns[0];
      Some((x, y))
  }

  const Schema := "https://vega.github.io/schema/vega-lite/v5.json"

  /** The chart description: a pie as an arc with an inner radius, any other
      type as a mark over x and y with a tooltip per column. */
  datatype ChartSpec =
    | Arc(schema: string, data: seq<Row>, innerRadius: int, theta: string, color: string)
    | Plot(schema: string, data: seq<Row>, mark: string, x: string, y: string, tooltip: seq<string>)

  /** The chart type `auto` resolves to for an x field. */
  function AutoType(x: string): string {
    if Contains(Lower(x), "date") || Contains(Lower(x), "time") then "line" else "bar"
  }

  /** `build_chart_spec`. */
  function BuildChartSpec(rows: seq<Row>, columns: seq<string>, chartType: string): Option<ChartSpec> {
    if rows == [] then None
    else
      match PickFields(rows, columns)
      case None => None
      case Some((x, y)) =>
        if x == "" || y == "" then None
        else
          var t := if chartType == "auto" then AutoType(x) else chartType;
          if t == "pie" then Some(Arc(Schema, rows, 30, y, x))
          else
            var mark := if t == "bar" then "bar" else if t == "line" then "line" else "point";
            Some(Plot(Schema, rows, mark, x, y, columns))
  }

  // ---------------------------------------------------------------------
  // Properties

  /** Fields are picked exactly when there are rows and columns; x is the
      first column with no number in any row, else the first column; y is
      the first column with a number in some row, else the second column,
      else the first. Both are columns. */
  lemma PickFieldsSpec(rows: seq<Row>, columns: seq<string>)
    ensures PickFields(rows, columns).None? <==> rows == [] || columns == []
    ensures PickFields(rows, columns).Some? ==>
      var (x, y) := PickFields(rows, columns).value;
      && x in columns && y in columns
      && ((exists i :: 0 <= i < |columns| && !ColumnIsNumeric(rows, columns[i])) ==>
            IsFirstWhere(columns, c => !ColumnIsNumeric(rows, c), x))
      && ((forall i :: 0 <= i < |columns| ==> ColumnIsNumeric(rows, columns[i])) ==> x == columns[0])
      && ((exists i :: 0 <= i < |columns| && ColumnIsNumeric(rows, columns[i])) ==>
            IsFirstWhere(columns, c => ColumnIsNumeric(rows, c), y))
      && ((forall i :: 0 <= i < |columns| ==> !ColumnIsNumeric(rows, columns[i])) ==>
            y == if |columns| > 1 then columns[1] else columns[0])
  {
    if rows != [] && columns != [] {
      var isNumeric := c => ColumnIsNumeric(rows, c);
      var numeric := Filter(isNumeric, columns);
      var notNumeric := c => !ColumnIsNumeric(rows, c);
      var outside := c => c !in numeric;
      var dimensions := Filter(outside, columns);
      FilterCongruent(outside, notNumeric, columns);
      FilterFirst(isNumeric, columns);
      FilterFirst(notNumeric, columns);
    }
  }

  /** No chart without rows or without usable fields. */
  lemma BuildChartSpecNone(rows: seq<Row>, columns: seq<string>, chartType: string)
    ensures BuildChartSpec(rows, columns, chartType).None? <==>
      rows == [] || columns == [] || PickFields(rows, columns).value.0 == "" || PickFields(rows, columns).value.1 == ""
  {
    PickFieldsSpec(rows, columns);
  }

  /** `auto` draws a line when the x field's name mentions a date or a time
      and a bar otherwise; a pie is an arc sized by y and coloured by x with
      no tooltip; bar and line keep their mark and any other type becomes
      points; every other chart lists each column, in order, as a tooltip. */
  lemma BuildChartSpecShape(rows: seq<Row>, columns: seq<string>, chartType: string)
    requires BuildChartSpec(rows, columns, chartType).Some?
    ensures var (x, y) := PickFields(rows, columns).value;
      var r := BuildChartSpec(rows, columns, chartType).value;
      && r.data == rows && r.schema == Schema
      && (chartType == "auto" ==> r.Plot? && (r.mark == "line" <==> Contains(Lower(x), "date") || Contains(Lower(x), "time"))
                                  && (r.mark == "line" || r.mark == "bar"))
      && (chartType == "pie" <==> r.Arc?)
      && (r.Arc? ==> r.theta == y && r.color == x && r.innerRadius == 30)
      && (chartType == "bar" || chartType == "line" ==> r.Plot? && r.mark == chartType)
      && (chartType !in {"auto", "bar", "line", "pie"} ==> r.Plot? && r.mark == "point")
      && (r.Plot? ==> r.x == x && r.y == y && r.tooltip == columns)
  {
  }
}
