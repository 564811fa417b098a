/** The deterministic compiler from a validated plan and the semantic layer
    to SQL text: a per-dataset lookup of metric, dimension and join
    expressions, aggregation wrapping of metrics, literal quoting for
    filters, and the calendar skeleton used for the daily balance dataset. */
module SqlCompiler {
  import opened Basics
  import opened Text
  import opened Seqs
  import opened Semantic
  import TokenMatcher

  // ---------------------------------------------------------------------
  // `_quote_sql_value`

  /** Every `'` doubled. */
  function Escape(s: string): (r: string)
    ensures |r| >= |s|
  {
    if s == [] then [] else (if s[0] == '\'' then "''" else [s[0]]) + Escape(s[1..])
  }

  /** Reads the inside of a SQL string literal back: `''` is one quote, a
      lone quote is malformed. */
  function Unescape(s: string): Option<string>
  {
    if s == [] then Some([])
    else if s[0] == '\'' then
      if |s| >= 2 && s[1] == '\'' then
        match Unescape(s[2..])
        case None => None
        case Some(t) => Some(['\''] + t)
      else None
    else
      match Unescape(s[1..])
      case None => None
      case Some(t) => Some([s[0]] + t)
  }

  /** Reads a single-quoted SQL string literal back. */
  function Unquote(s: string): Option<string> {
    if |s| >= 2 && s[0] == '\'' && s[|s| - 1] == '\'' then Unescape(s[1..|s| - 1]) else None
  }

  /** A literal for a filter value: `None` is NULL, numbers (booleans are
      numbers in Python) are written out, anything else is quoted. */
  function QuoteSqlValue(v: Value): (r: string)
  {
    match v
    case Null => "NULL"
    case Bool(_) => PyStr(v)
    case Int(_) => PyStr(v)
    case _ => "'" + Escape(PyStr(v)) + "'"
  }

  lemma {:induction false} UnescapeEscape(s: string)
    ensures Unescape(Escape(s)) == Some(s)
    decreases |s|
  {
    if s != [] {
      UnescapeEscape(s[1..]);
      var rest := Escape(s[1..]);
      if s[0] == '\'' {
        assert Escape(s) == "''" + rest;
        assert Escape(s)[2..] == rest;
      } else {
        assert Escape(s) == [s[0]] + rest;
        assert Escape(s)[1..] == rest;
      }
      assert [s[0]] + s[1..] == s;
    }
  }

  /** A quoted string reads back as the text it quotes; NULL and numbers are
      not quoted. */
  lemma QuoteSqlValueSpec(v: Value)
    ensures v.Str? ==> Unquote(QuoteSqlValue(v)) == Some(v.s)
    ensures v.List? ==> Unquote(QuoteSqlValue(v)) == Some(PyStr(v))
    ensures v.Null? ==> QuoteSqlValue(v) == "NULL"
    ensures v.Bool? ==> QuoteSqlValue(v) == (if v.b then "True" else "False")
    ensures v.Int? ==> QuoteSqlValue(v) == IntToString(v.i) && Unquote(QuoteSqlValue(v)) == None
  {
    if v.Str? || v.List? {
      var t := PyStr(v);
      var q := QuoteSqlValue(v);
      assert q == "'" + Escape(t) + "'";
      assert q[1..|q| - 1] == Escape(t);
      UnescapeEscape(t);
    }
    if v.Int? {
      var q := QuoteSqlValue(v);
      if v.i < 0 {
        assert q[0] == '-';
      } else {
        assert IsDigit(q[0]);
      }
    }
  }

  // ---------------------------------------------------------------------
  // `_normalize_metric_expr`

  /** The metric types that have an aggregate wrapper. */
  const AggTypes: set<string> := {"sum", "avg", "count_distinct", "count"}

  /** Wraps `expr` in the aggregate the (trimmed, lower-cased) metric type names. */
  function NormalizeMetricExpr(expr: string, metricType: string): (r: string)
  {
    var t := TokenMatcher.Normalize(metricType);
    if t == "sum" then "SUM(" + expr + ")"
    else if t == "avg" then "AVG(" + expr + ")"
    else if t == "count_distinct" then "COUNT(DISTINCT " + expr + ")"
    else if t == "count" then "COUNT(" + expr + ")"
    else expr
  }

  /** The expression is always kept, it is left as it is exactly when the
      type names no aggregate, and normalizing the type first changes
      nothing. */
  lemma NormalizeMetricExprSpec(expr: string, metricType: string)
    ensures Contains(NormalizeMetricExpr(expr, metricType), expr)
    ensures NormalizeMetricExpr(expr, metricType) == expr <==> TokenMatcher.Normalize(metricType) !in AggTypes
    ensures NormalizeMetricExpr(expr, TokenMatcher.Normalize(metricType)) == NormalizeMetricExpr(expr, metricType)
  {
    var t := TokenMatcher.Normalize(metricType);
    TokenMatcher.NormalizeIdempotent(metricType);
    var r := NormalizeMetricExpr(expr, metricType);
    if t == "sum" || t == "avg" {
      assert r[4..4 + |expr|] == expr;
      ContainsWitness(r, expr, 4);
    } else if t == "count" {
      assert r[6..6 + |expr|] == expr;
      ContainsWitness(r, expr, 6);
    } else if t == "count_distinct" {
      assert r[15..15 + |expr|] == expr;
      ContainsWitness(r, expr, 15);
    } else {
      assert r[0..|expr|] == expr;
      ContainsWitness(r, expr, 0);
    }
  }

  // ---------------------------------------------------------------------
  // `_build_semantic_lookup`

  /** The frozen lookup record for one dataset. */
  datatype SemanticLookup = SemanticLookup(
    datasetName: string,
    metricExprByName: map<string, string>,
    metricTypeByName: map<string, string>,
    dimensionExprByName: map<string, string>,
    firstTimeExpr: string,
    fromClause: string,
    joinClauses: seq<(string, string)>,
    calendarTable: string,
    calendarJoinOn: string)

  /** `f"{owner}.{item['name']}"`. */
  function Canonical(owner: string, it: Item): string {
    owner + "." + it.name
  }

  /** Dict assignment, pair by pair: a later pair overwrites an earlier one. */
  function Assign<V>(m: map<string, V>, ps: seq<(string, V)>): map<string, V>
    decreases |ps|
  {
    if ps == [] then m else Assign(m, ps[..|ps| - 1])[ps[|ps| - 1].0 := ps[|ps| - 1].1]
  }

  predicate HasKey<V>(ps: seq<(string, V)>, k: string) {
    exists i :: 0 <= i < |ps| && ps[i].0 == k
  }

  /** `(canonical, stripped expr)` for each item with a non-blank expr. */
  function ExprPairs(owner: string, items: seq<Item>): seq<(string, string)>
    decreases |items|
  {
    if items == [] then []
    else
      var it := items[|items| - 1];
      ExprPairs(owner, items[..|items| - 1])
        + (if Strip(it.expr) != "" then [(Canonical(owner, it), Strip(it.expr))] else [])
  }

  /** `(canonical, normalized type)` for each metric with a non-blank expr. */
  function TypePairs(owner: string, items: seq<Item>): seq<(string, string)>
    decreases |items|
  {
    if items == [] then []
    else
      var it := items[|items| - 1];
      TypePairs(owner, items[..|items| - 1])
        + (if Strip(it.expr) != "" then [(Canonical(owner, it), TokenMatcher.Normalize(it.aggType))] else [])
  }

  /** The field pairs of every entity, in entity order. */
  function FieldPairs(es: seq<Entity>): seq<(string, string)>
    decreases |es|
  {
    if es == [] then [] else FieldPairs(es[..|es| - 1]) + ExprPairs(es[|es| - 1].name, es[|es| - 1].fields)
  }

  /** The first non-blank time expression, stripped, or "". */
  function FirstTimeExprOf(times: seq<Item>): string
    decreases |times|
  {
    if times == [] then ""
    else if Strip(times[0].expr) != "" then Strip(times[0].expr)
    else FirstTimeExprOf(times[1..])
  }

  /** `str(entities.get(name, {}).get("table", "")).strip()`. */
  function EntityTable(es: seq<Entity>, name: string): string {
    match FindEntity(es, name)
    case None => ""
    case Some(e) => Strip(e.table)
  }

  /** The `on` clause, falling back to the boolean-`True` key when `on` is
      missing or empty, stripped. */
  function JoinOn(j: DatasetJoin): string {
    Strip(if j.on == "" then j.onTrueKey else j.on)
  }

  /** The rendered join, or nothing when the entity, the `on` clause or the
      entity's table is missing. */
  function JoinClause(es: seq<Entity>, j: DatasetJoin): Option<(string, string)> {
    var on := JoinOn(j);
    if j.entity == "" || on == "" then None
    else
      var table := EntityTable(es, j.entity);
      if table == "" then None else Some((j.entity, "LEFT JOIN " + table + " ON " + on))
  }

  function JoinClauses(es: seq<Entity>, joins: seq<DatasetJoin>): seq<(string, string)>
    decreases |joins|
  {
    if joins == [] then []
    else
      var c := JoinClause(es, joins[|joins| - 1]);
      JoinClauses(es, joins[..|joins| - 1]) + (if c.Some? then [c.value] else [])
  }

  /** The `on` clause of the last rendered join to `calendar`, or "". */
  function CalendarJoinOn(es: seq<Entity>, joins: seq<DatasetJoin>): string
    decreases |joins|
  {
    if joins == [] then ""
    else
      var j := joins[|joins| - 1];
      var c := JoinClause(es, j);
      if c.Some? && c.value.0 == "calendar" then JoinOn(j) else CalendarJoinOn(es, joins[..|joins| - 1])
  }

  /** The lookup `_build_semantic_lookup` returns. */
  function Lookup(name: string, layer: Layer): SemanticLookup {
    var d := FindDataset(layer.datasets, name);
    SemanticLookup(
      name,
      Assign(map[], ExprPairs(name, d.metrics)),
      Assign(map[], TypePairs(name, d.metrics)),
      Assign(map[], ExprPairs(name, d.dimensions) + ExprPairs(name, d.timeDimensions) + FieldPairs(layer.entities)),
      FirstTimeExprOf(d.timeDimensions),
      Strip(d.from),
      JoinClauses(layer.entities, d.joins),
      EntityTable(layer.entities, "calendar"),
      CalendarJoinOn(layer.entities, d.joins))
  }

  lemma AssignSnoc<V>(m: map<string, V>, ps: seq<(string, V)>, k: string, v: V)
    ensures Assign(m, ps + [(k, v)]) == Assign(m, ps)[k := v]
  {
    assert (ps + [(k, v)])[..|ps|] == ps;
  }

  lemma {:induction false} AssignAppend<V>(m: map<string, V>, a: seq<(string, V)>, b: seq<(string, V)>)
    ensures Assign(m, a + b) == Assign(Assign(m, a), b)
    decreases |b|
  {
    if b == [] {
      assert a + b == a;
    } else {
      var n := |b| - 1;
      AssignAppend(m, a, b[..n]);
      assert (a + b)[..|a| + n] == a + b[..n];
    }
  }

  lemma ExprPairsStep(owner: string, items: seq<Item>, j: nat)
    requires j < |items|
    ensures Strip(items[j].expr) != "" ==>
      ExprPairs(owner, items[..j + 1]) == ExprPairs(owner, items[..j]) + [(Canonical(owner, items[j]), Strip(items[j].expr))]
    ensures Strip(items[j].expr) == "" ==> ExprPairs(owner, items[..j + 1]) == ExprPairs(owner, items[..j])
  {
    assert items[..j + 1][..j] == items[..j];
    assert ExprPairs(owner, items[..j]) + [] == ExprPairs(owner, items[..j]);
  }

  lemma TypePairsStep(owner: string, items: seq<Item>, j: nat)
    requires j < |items|
    ensures Strip(items[j].expr) != "" ==>
      TypePairs(owner, items[..j + 1]) == TypePairs(owner, items[..j]) + [(Canonical(owner, items[j]), TokenMatcher.Normalize(items[j].aggType))]
    ensures Strip(items[j].expr) == "" ==> TypePairs(owner, items[..j + 1]) == TypePairs(owner, items[..j])
  {
    assert items[..j + 1][..j] == items[..j];
    assert TypePairs(owner, items[..j]) + [] == TypePairs(owner, items[..j]);
  }

  /** The keys are those already present and those of the pairs. */
  lemma {:induction false} AssignDomain<V>(m: map<string, V>, ps: seq<(string, V)>, k: string)
    ensures k in Assign(m, ps) <==> k in m || HasKey(ps, k)
    decreases |ps|
  {
    if ps != [] {
      var n := |ps| - 1;
      AssignDomain(m, ps[..n], k);
      if HasKey(ps[..n], k) {
        var i :| 0 <= i < n && ps[..n][i].0 == k;
        assert ps[i].0 == k;
      }
      if HasKey(ps, k) && ps[n].0 != k {
        var i :| 0 <= i < |ps| && ps[i].0 == k;
        assert ps[..n][i].0 == k;
      }
    }
  }

  /** The last pair with a key decides its value. */
  lemma {:induction false} AssignLastWins<V>(m: map<string, V>, ps: seq<(string, V)>, i: nat)
    requires i < |ps|
    requires forall j :: i < j < |ps| ==> ps[j].0 != ps[i].0
    ensures ps[i].0 in Assign(m, ps) && Assign(m, ps)[ps[i].0] == ps[i].1
    decreases |ps|
  {
    var n := |ps| - 1;
    if i < n {
      assert ps[..n][i] == ps[i];
      AssignLastWins(m, ps[..n], i);
    }
  }

  /** A key no pair names keeps its value. */
  lemma {:induction false} AssignKeeps<V>(m: map<string, V>, ps: seq<(string, V)>, k: string)
    requires k in m && !HasKey(ps, k)
    ensures k in Assign(m, ps) && Assign(m, ps)[k] == m[k]
    decreases |ps|
  {
    if ps != [] {
      var n := |ps| - 1;
      assert ps[n].0 != k;
      assert !HasKey(ps[..n], k) by {
        forall i | 0 <= i < n ensures ps[..n][i].0 != k {
          assert ps[..n][i] == ps[i];
        }
      }
      AssignKeeps(m, ps[..n], k);
    }
  }

  /** Only items with a non-blank expr are registered, under their canonical
      name, with the stripped expr. */
  lemma {:induction false} ExprPairsSpec(owner: string, items: seq<Item>)
    ensures forall p :: p in ExprPairs(owner, items) ==> p.1 != "" && IsStripped(p.1)
    ensures forall j :: 0 <= j < |items| && Strip(items[j].expr) != "" ==>
      (Canonical(owner, items[j]), Strip(items[j].expr)) in ExprPairs(owner, items)
    decreases |items|
  {
    if items != [] {
      var n := |items| - 1;
      var it := items[n];
      ExprPairsSpec(owner, items[..n]);
      StripSpec(it.expr);
      var prev := ExprPairs(owner, items[..n]);
      var tail := if Strip(it.expr) != "" then [(Canonical(owner, it), Strip(it.expr))] else [];
      assert ExprPairs(owner, items) == prev + tail;
      forall j | 0 <= j < |items| && Strip(items[j].expr) != ""
        ensures (Canonical(owner, items[j]), Strip(items[j].expr)) in prev + tail
      {
        if j < n {
          assert items[..n][j] == items[j];
          assert (Canonical(owner, items[j]), Strip(items[j].expr)) in prev;
        } else {
          assert j == n && items[j] == it;
          assert tail == [(Canonical(owner, it), Strip(it.expr))];
        }
      }
    }
  }

  /** The type pairs and the expr pairs name the same keys, in the same order. */
  lemma {:induction false} TypePairsAlign(owner: string, items: seq<Item>)
    ensures |TypePairs(owner, items)| == |ExprPairs(owner, items)|
    ensures forall i :: 0 <= i < |TypePairs(owner, items)| ==> TypePairs(owner, items)[i].0 == ExprPairs(owner, items)[i].0
    decreases |items|
  {
    if items != [] {
      var n := |items| - 1;
      TypePairsAlign(owner, items[..n]);
      ExprPairsStep(owner, items, n);
      TypePairsStep(owner, items, n);
      assert items[..n + 1] == items;
    }
  }

  /** The metric type map has exactly the keys of the metric expr map. */
  lemma TypePairsKeys(owner: string, items: seq<Item>, k: string)
    ensures HasKey(TypePairs(owner, items), k) <==> HasKey(ExprPairs(owner, items), k)
  {
    TypePairsAlign(owner, items);
    var ta, tb := TypePairs(owner, items), ExprPairs(owner, items);
    if HasKey(ta, k) {
      var i :| 0 <= i < |ta| && ta[i].0 == k;
      assert tb[i].0 == k;
    }
    if HasKey(tb, k) {
      var i :| 0 <= i < |tb| && tb[i].0 == k;
      assert ta[i].0 == k;
    }
  }

  /** A metric is in the lookup exactly when it has a non-blank expr; every
      stored expr is non-blank and stripped, and the type map has the same
      keys. */
  lemma LookupMetricsSpec(name: string, layer: Layer, k: string)
    ensures var l := Lookup(name, layer);
      && (k in l.metricExprByName <==> HasKey(ExprPairs(name, FindDataset(layer.datasets, name).metrics), k))
      && (k in l.metricTypeByName <==> k in l.metricExprByName)
      && (k in l.metricExprByName ==> l.metricExprByName[k] != "" && IsStripped(l.metricExprByName[k]))
  {
    var ms := FindDataset(layer.datasets, name).metrics;
    var ps := ExprPairs(name, ms);
    AssignDomain(map[], ps, k);
    AssignDomain(map[], TypePairs(name, ms), k);
    TypePairsKeys(name, ms, k);
    if HasKey(ps, k) {
      AssignValueFrom(map[], ps, k);
      ExprPairsSpec(name, ms);
    }
  }

  /** A value in an assignment from an empty map comes from some pair. */
  lemma {:induction false} AssignValueFrom<V>(m: map<string, V>, ps: seq<(string, V)>, k: string)
    requires k in Assign(m, ps) && k !in m
    ensures (k, Assign(m, ps)[k]) in ps
    decreases |ps|
  {
    var n := |ps| - 1;
    if ps[n].0 != k {
      AssignValueFrom(m, ps[..n], k);
      assert ps[..n] <= ps;
    }
  }

  /** Every non-blank dataset dimension, time dimension and entity field is
      in the dimension lookup, and every stored expr is non-blank and
      stripped. */
  lemma LookupDimensionsSpec(name: string, layer: Layer, k: string)
    ensures var l := Lookup(name, layer);
      var d := FindDataset(layer.datasets, name);
      && (k in l.dimensionExprByName <==>
            HasKey(ExprPairs(name, d.dimensions), k) || HasKey(ExprPairs(name, d.timeDimensions), k)
            || HasKey(FieldPairs(layer.entities), k))
      && (k in l.dimensionExprByName ==> l.dimensionExprByName[k] != "" && IsStripped(l.dimensionExprByName[k]))
  {
    var d := FindDataset(layer.datasets, name);
    var a, b, c := ExprPairs(name, d.dimensions), ExprPairs(name, d.timeDimensions), FieldPairs(layer.entities);
    var ps := a + b + c;
    AssignDomain(map[], ps, k);
    HasKeyAppend(a, b, k);
    HasKeyAppend(a + b, c, k);
    if HasKey(ps, k) {
      AssignValueFrom(map[], ps, k);
      var v := Assign(map[], ps)[k];
      ExprPairsSpec(name, d.dimensions);
      ExprPairsSpec(name, d.timeDimensions);
      FieldPairsSpec(layer.entities);
      assert (k, v) in a || (k, v) in b || (k, v) in c;
    }
  }

  lemma HasKeyAppend<V>(a: seq<(string, V)>, b: seq<(string, V)>, k: string)
    ensures HasKey(a + b, k) <==> HasKey(a, k) || HasKey(b, k)
  {
    if HasKey(a + b, k) {
      var i :| 0 <= i < |a + b| && (a + b)[i].0 == k;
      if i >= |a| { assert b[i - |a|].0 == k; }
    }
    if HasKey(a, k) {
      var i :| 0 <= i < |a| && a[i].0 == k;
      assert (a + b)[i].0 == k;
    }
    if HasKey(b, k) {
      var i :| 0 <= i < |b| && b[i].0 == k;
      assert (a + b)[|a| + i].0 == k;
    }
  }

  lemma {:induction false} FieldPairsSpec(es: seq<Entity>)
    ensures forall p :: p in FieldPairs(es) ==> p.1 != "" && IsStripped(p.1)
    decreases |es|
  {
    if es != [] {
      var n := |es| - 1;
      FieldPairsSpec(es[..n]);
      ExprPairsSpec(es[n].name, es[n].fields);
      assert FieldPairs(es) == FieldPairs(es[..n]) + ExprPairs(es[n].name, es[n].fields);
    }
  }

  lemma {:induction false} FirstTimeExprBlank(times: seq<Item>)
    ensures FirstTimeExprOf(times) == "" <==> forall j :: 0 <= j < |times| ==> Strip(times[j].expr) == ""
    decreases |times|
  {
    if times != [] && Strip(times[0].expr) == "" {
      FirstTimeExprBlank(times[1..]);
      forall j | 0 < j < |times| ensures times[j] == times[1..][j - 1] { }
    }
  }

  lemma {:induction false} FirstTimeExprIndex(times: seq<Item>) returns (j: nat)
    requires FirstTimeExprOf(times) != ""
    ensures j < |times| && FirstTimeExprOf(times) == Strip(times[j].expr)
    ensures forall i :: 0 <= i < j ==> Strip(times[i].expr) == ""
    decreases |times|
  {
    if Strip(times[0].expr) != "" {
      j := 0;
    } else {
      var k := FirstTimeExprIndex(times[1..]);
      j := k + 1;
      assert times[j] == times[1..][k];
      forall i | 0 < i < j ensures Strip(times[i].expr) == "" {
        assert times[i] == times[1..][i - 1];
      }
    }
  }

  /** The first time expression is "" exactly when every time dimension's
      expr is blank, and otherwise the stripped expr of the first one that
      is not. */
  lemma FirstTimeExprSpec(times: seq<Item>)
    ensures FirstTimeExprOf(times) == "" <==> forall j :: 0 <= j < |times| ==> Strip(times[j].expr) == ""
    ensures FirstTimeExprOf(times) != "" ==>
      exists j :: 0 <= j < |times| && FirstTimeExprOf(times) == Strip(times[j].expr)
        && forall i :: 0 <= i < j ==> Strip(times[i].expr) == ""
  {
    FirstTimeExprBlank(times);
    if FirstTimeExprOf(times) != "" {
      var j := FirstTimeExprIndex(times);
    }
  }

  lemma JoinClausesStep(es: seq<Entity>, js: seq<DatasetJoin>, i: nat)
    requires i < |js|
    ensures JoinClauses(es, js[..i + 1]) == JoinClauses(es, js[..i])
      + (if JoinClause(es, js[i]).Some? then [JoinClause(es, js[i]).value] else [])
  {
    assert js[..i + 1][..i] == js[..i];
  }

  /** The clauses of the first joins are a prefix of the clauses of all of
      them: rendering keeps the dataset's join order. */
  lemma {:induction false} JoinClausesPrefix(es: seq<Entity>, js: seq<DatasetJoin>, i: nat)
    requires i <= |js|
    ensures JoinClauses(es, js[..i]) <= JoinClauses(es, js)
    decreases |js| - i
  {
    if i < |js| {
      JoinClausesPrefix(es, js, i + 1);
      JoinClausesStep(es, js, i);
    } else {
      assert js[..i] == js;
    }
  }

  /** Join `j` renders as the clause `(entity, text)`. */
  predicate Renders(es: seq<Entity>, j: DatasetJoin, entity: string, text: string) {
    && j.entity == entity && entity != "" && JoinOn(j) != "" && EntityTable(es, entity) != ""
    && text == "LEFT JOIN " + EntityTable(es, entity) + " ON " + JoinOn(j)
  }

  lemma JoinClauseRenders(es: seq<Entity>, j: DatasetJoin, entity: string, text: string)
    ensures JoinClause(es, j) == Some((entity, text)) <==> Renders(es, j, entity, text)
  {
  }

  /** A clause is rendered exactly for each join whose entity, `on` clause
      and entity table are all present, as `LEFT JOIN table ON clause`. */
  lemma {:induction false} JoinClausesMembers(es: seq<Entity>, js: seq<DatasetJoin>, entity: string, text: string)
    ensures (entity, text) in JoinClauses(es, js) <==> exists i :: 0 <= i < |js| && Renders(es, js[i], entity, text)
    decreases |js|
  {
    if js != [] {
      var n := |js| - 1;
      var p := (entity, text);
      var prev := JoinClauses(es, js[..n]);
      var c := JoinClause(es, js[n]);
      var tail := if c.Some? then [c.value] else [];
      JoinClausesMembers(es, js[..n], entity, text);
      JoinClausesStep(es, js, n);
      JoinClauseRenders(es, js[n], entity, text);
      assert js[..n + 1] == js;
      assert JoinClauses(es, js) == prev + tail;
      if p in prev + tail {
        if p in prev {
          var i :| 0 <= i < n && Renders(es, js[..n][i], entity, text);
          assert js[i] == js[..n][i];
        } else {
          assert c == Some(p);
          assert Renders(es, js[n], entity, text);
        }
      }
      if exists i :: 0 <= i < |js| && Renders(es, js[i], entity, text) {
        var i :| 0 <= i < |js| && Renders(es, js[i], entity, text);
        if i < n {
          assert js[..n][i] == js[i];
          assert p in prev;
        } else {
          assert i == n;
          assert c == Some(p);
        }
        assert p in prev + tail;
      }
    }
  }

  /** The calendar `on` clause is set exactly when some join to `calendar`
      is rendered, and then that rendered join is among the clauses. */
  lemma CalendarJoinOnSpec(es: seq<Entity>, js: seq<DatasetJoin>)
    ensures CalendarJoinOn(es, js) != "" <==>
      exists i :: 0 <= i < |js| && js[i].entity == "calendar" && JoinClause(es, js[i]).Some?
    ensures CalendarJoinOn(es, js) != "" ==>
      ("calendar", "LEFT JOIN " + EntityTable(es, "calendar") + " ON " + CalendarJoinOn(es, js)) in JoinClauses(es, js)
  {
    CalendarJoinOnFound(es, js);
    CalendarJoinOnListed(es, js);
  }

  lemma {:induction false} CalendarJoinOnFound(es: seq<Entity>, js: seq<DatasetJoin>)
    ensures CalendarJoinOn(es, js) != "" <==>
      exists i :: 0 <= i < |js| && js[i].entity == "calendar" && JoinClause(es, js[i]).Some?
    decreases |js|
  {
    if js != [] {
      var n := |js| - 1;
      var pre, j := js[..n], js[n];
      CalendarJoinOnFound(es, pre);
      var c := JoinClause(es, j);
      if c.Some? && c.value.0 == "calendar" {
        assert CalendarJoinOn(es, js) == JoinOn(j) != "";
        assert js[n].entity == "calendar" && JoinClause(es, js[n]).Some?;
      } else {
        assert CalendarJoinOn(es, js) == CalendarJoinOn(es, pre);
        assert !(js[n].entity == "calendar" && JoinClause(es, js[n]).Some?);
        if exists i :: 0 <= i < |js| && js[i].entity == "calendar" && JoinClause(es, js[i]).Some? {
          var i :| 0 <= i < |js| && js[i].entity == "calendar" && JoinClause(es, js[i]).Some?;
          if i == n {
            assert false;
          }
          assert pre[i] == js[i];
        }
        if exists i :: 0 <= i < n && pre[i].entity == "calendar" && JoinClause(es, pre[i]).Some? {
          var i :| 0 <= i < n && pre[i].entity == "calendar" && JoinClause(es, pre[i]).Some?;
          assert pre[i] == js[i];
        }
      }
    }
  }


  lemma {:induction false} CalendarJoinOnListed(es: seq<Entity>, js: seq<DatasetJoin>)
    ensures CalendarJoinOn(es, js) != "" ==>
      ("calendar", "LEFT JOIN " + EntityTable(es, "calendar") + " ON " + CalendarJoinOn(es, js)) in JoinClauses(es, js)
    decreases |js|
  {
    if js != [] {
      var n := |js| - 1;
      var j := js[n];
      CalendarJoinOnListed(es, js[..n]);
      JoinClausesStep(es, js, n);
      assert js[..n + 1] == js;
      var prev := JoinClauses(es, js[..n]);
      var c := JoinClause(es, j);
      var tail := if c.Some? then [c.value] else [];
      assert JoinClauses(es, js) == prev + tail;
      if c.Some? && c.value.0 == "calendar" {
        assert j.entity == "calendar";
        assert c.value == ("calendar", "LEFT JOIN " + EntityTable(es, "calendar") + " ON " + JoinOn(j));
      } else {
        assert CalendarJoinOn(es, js) == CalendarJoinOn(es, js[..n]);
      }
    }
  }


  /** One metric of the dataset: both dicts are set when the expr is not blank. */
  method AddMetricLookups(name: string, metrics: seq<Item>) returns (exprs: map<string, string>, types: map<string, string>)
    ensures exprs == Assign(map[], ExprPairs(name, metrics))
    ensures types == Assign(map[], TypePairs(name, metrics))
  {
    exprs, types := map[], map[];
    for j := 0 to |metrics|
      invariant exprs == Assign(map[], ExprPairs(name, metrics[..j]))
      invariant types == Assign(map[], TypePairs(name, metrics[..j]))
    {
      var m := metrics[j];
      ExprPairsStep(name, metrics, j);
      TypePairsStep(name, metrics, j);
      var canonical := name + "." + m.name;
      var expr := Strip(m.expr);
      var metricType := TokenMatcher.Normalize(m.aggType);
      if expr != "" {
        AssignSnoc(map[], ExprPairs(name, metrics[..j]), canonical, expr);
        AssignSnoc(map[], TypePairs(name, metrics[..j]), canonical, metricType);
        exprs := exprs[canonical := expr];
        types := types[canonical := metricType];
      }
    }
    assert metrics[..|metrics|] == metrics;
  }

  /** The loop shared by dimensions, time dimensions and entity fields. */
  method AddExprLookups(m: map<string, string>, owner: string, items: seq<Item>) returns (r: map<string, string>)
    ensures r == Assign(m, ExprPairs(owner, items))
  {
    r := m;
    for j := 0 to |items|
      invariant r == Assign(m, ExprPairs(owner, items[..j]))
    {
      var it := items[j];
      ExprPairsStep(owner, items, j);
      var canonical := owner + "." + it.name;
      var expr := Strip(it.expr);
      if expr != "" {
        AssignSnoc(m, ExprPairs(owner, items[..j]), canonical, expr);
        r := r[canonical := expr];
      }
    }
    assert items[..|items|] == items;
  }

  /** The entity loop: the fields of every entity, under the entity's name. */
  method AddFieldLookups(m: map<string, string>, es: seq<Entity>) returns (r: map<string, string>)
    ensures r == Assign(m, FieldPairs(es))
  {
    r := m;
    for i := 0 to |es|
      invariant r == Assign(m, FieldPairs(es[..i]))
    {
      assert es[..i + 1][..i] == es[..i];
      AssignAppend(m, FieldPairs(es[..i]), ExprPairs(es[i].name, es[i].fields));
      r := AddExprLookups(r, es[i].name, es[i].fields);
    }
    assert es[..|es|] == es;
  }

  /** The loop with `break` that finds the first time expression. */
  method FindFirstTimeExpr(times: seq<Item>) returns (r: string)
    ensures r == FirstTimeExprOf(times)
  {
    r := "";
    var j := 0;
    while j < |times|
      invariant j <= |times|
      invariant FirstTimeExprOf(times) == FirstTimeExprOf(times[j..])
    {
      var expr := Strip(times[j].expr);
      if expr != "" {
        r := expr;
        return;
      }
      assert times[j..][1..] == times[j + 1..];
      j := j + 1;
    }
  }

  /** The join loop: rendered clauses in order and the calendar `on` clause. */
  method AddJoinLookups(es: seq<Entity>, joins: seq<DatasetJoin>) returns (clauses: seq<(string, string)>, calendarOn: string)
    ensures clauses == JoinClauses(es, joins)
    ensures calendarOn == CalendarJoinOn(es, joins)
  {
    clauses, calendarOn := [], "";
    for j := 0 to |joins|
      invariant clauses == JoinClauses(es, joins[..j])
      invariant calendarOn == CalendarJoinOn(es, joins[..j])
    {
      assert joins[..j + 1][..j] == joins[..j];
      var jn := joins[j];
      var onClause := Strip(if jn.on == "" then jn.onTrueKey else jn.on);
      if jn.entity == "" || onClause == "" {
        continue;
      }
      var table := "";
      var entity := FindEntity(es, jn.entity);
      if entity.Some? {
        table := Strip(entity.value.table);
      }
      if table == "" {
        continue;
      }
      clauses := clauses + [(jn.entity, "LEFT JOIN " + table + " ON " + onClause)];
      if jn.entity == "calendar" {
        calendarOn := onClause;
      }
    }
    assert joins[..|joins|] == joins;
  }

  /** `_build_semantic_lookup`. */
  method BuildSemanticLookup(name: string, layer: Layer) returns (lookup: SemanticLookup)
    ensures lookup == Lookup(name, layer)
  {
    var d := FindDataset(layer.datasets, name);
    var metricExprs, metricTypes := AddMetricLookups(name, d.metrics);
    var dims := AddExprLookups(map[], name, d.dimensions);
    dims := AddExprLookups(dims, name, d.timeDimensions);
    var firstTime := FindFirstTimeExpr(d.timeDimensions);
    AssignAppend(map[], ExprPairs(name, d.dimensions), ExprPairs(name, d.timeDimensions));
    var es := layer.entities;
    dims := AddFieldLookups(dims, es);
    AssignAppend(map[], ExprPairs(name, d.dimensions) + ExprPairs(name, d.timeDimensions), FieldPairs(es));
    var calendarTable := EntityTable(es, "calendar");
    var clauses, calendarOn := AddJoinLookups(es, d.joins);
    lookup := SemanticLookup(name, metricExprs, metricTypes, dims, firstTime, Strip(d.from), clauses, calendarTable, calendarOn);
  }

  // ---------------------------------------------------------------------
  // `_should_use_calendar_skeleton`

  /** The calendar skeleton is used for the daily balance dataset when the
      calendar table and join are known and the first time expression is
      grouped by. */
  predicate ShouldUseCalendarSkeleton(lookup: SemanticLookup, groupBy: seq<string>) {
    && lookup.datasetName == "deposit_balance_daily"
    && lookup.calendarTable != ""
    && lookup.calendarJoinOn != ""
    && lookup.firstTimeExpr != ""
    && lookup.firstTimeExpr in groupBy
  }

  // ---------------------------------------------------------------------
  // `compile_sql_from_semantic_plan`

  /** The three `ValueError`s compilation raises. */
  datatype CompileError = NoDatasetCandidates | NoFromClause(dataset: string) | NoSelectItems

  /** The message each error is raised with. */
  function Message(e: CompileError): string {
    match e
    case NoDatasetCandidates => "No dataset candidates available for SQL compilation."
    case NoFromClause(name) => "Dataset '" + name + "' has no from clause."
    case NoSelectItems => "No valid dimensions/metrics found for SELECT clause."
  }

  const CoalesceTypes: set<string> := {"sum", "avg", "count", "count_distinct"}
  const ComparisonOps: set<string> := {"=", "!=", ">", ">=", "<", "<="}

  /** `canonical.replace(".", "_")`. */
  function Alias(c: string): string {
    ReplaceChar(c, '.', '_')
  }

  /** `m.get(c)` is a non-empty string. */
  predicate Resolves(m: map<string, string>, c: string) {
    c in m && m[c] != ""
  }

  /** `expr AS alias` for each dimension that resolves, in plan order. */
  function SelectDimensions(lookup: SemanticLookup, dims: seq<string>): seq<string>
    decreases |dims|
  {
    if dims == [] then []
    else
      var c := dims[|dims| - 1];
      SelectDimensions(lookup, dims[..|dims| - 1])
        + (if Resolves(lookup.dimensionExprByName, c) then [lookup.dimensionExprByName[c] + " AS " + Alias(c)] else [])
  }

  /** The expr of each dimension that resolves, in plan order. */
  function GroupByExprs(lookup: SemanticLookup, dims: seq<string>): seq<string>
    decreases |dims|
  {
    if dims == [] then []
    else
      var c := dims[|dims| - 1];
      GroupByExprs(lookup, dims[..|dims| - 1])
        + (if Resolves(lookup.dimensionExprByName, c) then [lookup.dimensionExprByName[c]] else [])
  }

  function MetricType(lookup: SemanticLookup, c: string): string {
    if c in lookup.metricTypeByName then lookup.metricTypeByName[c] else ""
  }

  /** The select item of one metric: aggregated, wrapped in COALESCE under
      the calendar skeleton, and aliased. */
  function MetricPart(lookup: SemanticLookup, c: string, calendar: bool): string
    requires Resolves(lookup.metricExprByName, c)
  {
    var t := MetricType(lookup, c);
    var e := NormalizeMetricExpr(lookup.metricExprByName[c], t);
    (if calendar && t in CoalesceTypes then "COALESCE(" + e + ", 0)" else e) + " AS " + Alias(c)
  }

  function SelectMetrics(lookup: SemanticLookup, metrics: seq<string>, calendar: bool): seq<string>
    decreases |metrics|
  {
    if metrics == [] then []
    else
      var c := metrics[|metrics| - 1];
      SelectMetrics(lookup, metrics[..|metrics| - 1], calendar)
        + (if Resolves(lookup.metricExprByName, c) then [MetricPart(lookup, c, calendar)] else [])
  }

  function QuoteAll(vs: seq<Value>): (r: seq<string>)
    ensures |r| == |vs|
    ensures forall i :: 0 <= i < |vs| ==> r[i] == QuoteSqlValue(vs[i])
  {
    seq(|vs|, i requires 0 <= i < |vs| => QuoteSqlValue(vs[i]))
  }

  /** The WHERE condition of one filter, or nothing when it is dropped. */
  function WherePart(lookup: SemanticLookup, f: Filter): Option<string> {
    if f.NotADict? then None
    else
      var field := Strip(if f.field.Some? then f.field.value else "");
      var op := TokenMatcher.Normalize(f.op);
      var fieldExpr := if field in lookup.dimensionExprByName then lookup.dimensionExprByName[field] else field;
      if op == "between" && f.value.List? && |f.value.items| == 2 then
        Some(fieldExpr + " BETWEEN " + QuoteSqlValue(f.value.items[0]) + " AND " + QuoteSqlValue(f.value.items[1]))
      else if op in ComparisonOps then
        Some(fieldExpr + " " + op + " " + QuoteSqlValue(f.value))
      else if op == "in" && f.value.List? && f.value.items != [] then
        Some(fieldExpr + " IN (" + Join(", ", QuoteAll(f.value.items)) + ")")
      else if f.expr.Some? && Strip(f.expr.value) != "" then
        Some(Strip(f.expr.value))
      else None
  }

  function WhereParts(lookup: SemanticLookup, fs: seq<Filter>): seq<string>
    decreases |fs|
  {
    if fs == [] then []
    else
      var w := WherePart(lookup, fs[|fs| - 1]);
      WhereParts(lookup, fs[..|fs| - 1]) + (if w.Some? then [w.value] else [])
  }

  function JoinTexts(clauses: seq<(string, string)>): seq<string>
    decreases |clauses|
  {
    if clauses == [] then [] else JoinTexts(clauses[..|clauses| - 1]) + [clauses[|clauses| - 1].1]
  }

  function NonCalendarJoinTexts(clauses: seq<(string, string)>): seq<string>
    decreases |clauses|
  {
    if clauses == [] then []
    else
      var c := clauses[|clauses| - 1];
      NonCalendarJoinTexts(clauses[..|clauses| - 1]) + (if c.0 == "calendar" then [] else [c.1])
  }

  /** The FROM line and the join lines. */
  function FromLines(lookup: SemanticLookup, calendar: bool): seq<string> {
    if calendar then
      ["FROM " + lookup.calendarTable, "LEFT JOIN " + lookup.fromClause + " ON " + lookup.calendarJoinOn]
        + NonCalendarJoinTexts(lookup.joinClauses)
    else ["FROM " + lookup.fromClause] + JoinTexts(lookup.joinClauses)
  }

  /** SELECT, FROM and joins, the optional WHERE and the optional GROUP BY. */
  function StatementLines(lookup: SemanticLookup, calendar: bool, select: seq<string>, where: seq<string>, groupBy: seq<string>): seq<string> {
    ["SELECT " + Join(", ", select)]
      + FromLines(lookup, calendar)
      + (if where != [] then ["WHERE " + Join(" AND ", where)] else [])
      + (if groupBy != [] then ["GROUP BY " + Join(", ", groupBy)] else [])
  }

  /** The lines of the statement for a plan that has a dataset. */
  function CompiledLines(plan: Plan, layer: Layer): seq<string>
    requires plan.datasets != []
  {
    var lookup := Lookup(plan.datasets[0], layer);
    var groupBy := GroupByExprs(lookup, plan.dimensions);
    var calendar := ShouldUseCalendarSkeleton(lookup, groupBy);
    var select := SelectDimensions(lookup, plan.dimensions) + SelectMetrics(lookup, plan.metrics, calendar);
    StatementLines(lookup, calendar, select, WhereParts(lookup, plan.filters), groupBy)
  }

  /** The SQL text, or the `ValueError` raised. */
  function Compile(plan: Plan, layer: Layer): Result<string, CompileError> {
    if plan.datasets == [] then Err(NoDatasetCandidates)
    else
      var lookup := Lookup(plan.datasets[0], layer);
      if lookup.fromClause == "" then Err(NoFromClause(plan.datasets[0]))
      else
        var groupBy := GroupByExprs(lookup, plan.dimensions);
        var calendar := ShouldUseCalendarSkeleton(lookup, groupBy);
        if SelectDimensions(lookup, plan.dimensions) + SelectMetrics(lookup, plan.metrics, calendar) == [] then
          Err(NoSelectItems)
        else Ok(Join("\n", CompiledLines(plan, layer)))
  }

  /** The dimension loop: select items and GROUP BY exprs. */
  method CollectDimensions(lookup: SemanticLookup, dims: seq<string>) returns (selectParts: seq<string>, groupByParts: seq<string>)
    ensures selectParts == SelectDimensions(lookup, dims)
    ensures groupByParts == GroupByExprs(lookup, dims)
  {
    selectParts, groupByParts := [], [];
    for i := 0 to |dims|
      invariant selectParts == SelectDimensions(lookup, dims[..i])
      invariant groupByParts == GroupByExprs(lookup, dims[..i])
    {
      assert dims[..i + 1][..i] == dims[..i];
      var c := dims[i];
      if !(c in lookup.dimensionExprByName && lookup.dimensionExprByName[c] != "") {
        continue;
      }
      var expr := lookup.dimensionExprByName[c];
      selectParts := selectParts + [expr + " AS " + ReplaceChar(c, '.', '_')];
      groupByParts := groupByParts + [expr];
    }
    assert dims[..|dims|] == dims;
  }

  lemma SelectMetricsStep(lookup: SemanticLookup, metrics: seq<string>, calendar: bool, i: nat)
    requires i < |metrics|
    ensures Resolves(lookup.metricExprByName, metrics[i]) ==>
      SelectMetrics(lookup, metrics[..i + 1], calendar) == SelectMetrics(lookup, metrics[..i], calendar) + [MetricPart(lookup, metrics[i], calendar)]
    ensures !Resolves(lookup.metricExprByName, metrics[i]) ==>
      SelectMetrics(lookup, metrics[..i + 1], calendar) == SelectMetrics(lookup, metrics[..i], calendar)
  {
    assert metrics[..i + 1][..i] == metrics[..i];
    assert SelectMetrics(lookup, metrics[..i], calendar) + [] == SelectMetrics(lookup, metrics[..i], calendar);
  }

  /** The metric loop, appending to the select items. */
  method CollectMetrics(lookup: SemanticLookup, metrics: seq<string>, calendar: bool, selectParts: seq<string>)
    returns (selectParts': seq<string>)
    ensures selectParts' == selectParts + SelectMetrics(lookup, metrics, calendar)
  {
    selectParts' := selectParts;
    for i := 0 to |metrics|
      invariant selectParts' == selectParts + SelectMetrics(lookup, metrics[..i], calendar)
    {
      var c := metrics[i];
      SelectMetricsStep(lookup, metrics, calendar, i);
      if !(c in lookup.metricExprByName && lookup.metricExprByName[c] != "") {
        continue;
      }
      var expr := lookup.metricExprByName[c];
      var metricType := if c in lookup.metricTypeByName then lookup.metricTypeByName[c] else "";
      var metricExpr := NormalizeMetricExpr(expr, metricType);
      if calendar && metricType in CoalesceTypes {
        metricExpr := "COALESCE(" + metricExpr + ", 0)";
      }
      ghost var before := selectParts';
      selectParts' := selectParts' + [metricExpr + " AS " + ReplaceChar(c, '.', '_')];
      assert selectParts' == before + [MetricPart(lookup, c, calendar)];
    }
    assert metrics[..|metrics|] == metrics;
  }

  /** The filter loop. */
  method CollectWhereParts(lookup: SemanticLookup, fs: seq<Filter>) returns (whereParts: seq<string>)
    ensures whereParts == WhereParts(lookup, fs)
  {
    whereParts := [];
    for i := 0 to |fs|
      invariant whereParts == WhereParts(lookup, fs[..i])
    {
      assert fs[..i + 1][..i] == fs[..i];
      var w := WherePart(lookup, fs[i]);
      if w.Some? {
        whereParts := whereParts + [w.value];
      }
    }
    assert fs[..|fs|] == fs;
  }

  /** The join lines of the calendar skeleton: every join but the calendar one. */
  method CollectNonCalendarJoins(lines: seq<string>, clauses: seq<(string, string)>) returns (lines': seq<string>)
    ensures lines' == lines + NonCalendarJoinTexts(clauses)
  {
    lines' := lines;
    for i := 0 to |clauses|
      invariant lines' == lines + NonCalendarJoinTexts(clauses[..i])
    {
      assert clauses[..i + 1][..i] == clauses[..i];
      var (entityName, joinClause) := clauses[i];
      if entityName == "calendar" {
        continue;
      }
      lines' := lines' + [joinClause];
    }
    assert clauses[..|clauses|] == clauses;
  }

  /** The FROM line and the join lines. */
  method CollectFromLines(lookup: SemanticLookup, calendar: bool) returns (lines: seq<string>)
    ensures lines == FromLines(lookup, calendar)
  {
    if calendar {
      lines := ["FROM " + lookup.calendarTable];
      lines := lines + ["LEFT JOIN " + lookup.fromClause + " ON " + lookup.calendarJoinOn];
      lines := CollectNonCalendarJoins(lines, lookup.joinClauses);
    } else {
      lines := ["FROM " + lookup.fromClause];
      lines := lines + JoinTexts(lookup.joinClauses);
    }
  }

  /** The statement lines, built one `append` at a time. */
  method AssembleLines(lookup: SemanticLookup, calendar: bool, selectParts: seq<string>, whereParts: seq<string>, groupByParts: seq<string>)
    returns (lines: seq<string>)
    ensures lines == StatementLines(lookup, calendar, selectParts, whereParts, groupByParts)
  {
    var fromLines := CollectFromLines(lookup, calendar);
    lines := ["SELECT " + Join(", ", selectParts)] + fromLines;
    if whereParts != [] {
      lines := lines + ["WHERE " + Join(" AND ", whereParts)];
    }
    if groupByParts != [] {
      lines := lines + ["GROUP BY " + Join(", ", groupByParts)];
    }
  }

  /** `compile_sql_from_semantic_plan`; `Err` carries the `ValueError` it raises. */
  method CompileSqlFromSemanticPlan(plan: Plan, layer: Layer) returns (r: Result<string, CompileError>)
    ensures r == Compile(plan, layer)
  {
    if plan.datasets == [] {
      return Err(NoDatasetCandidates);
    }
    var name := plan.datasets[0];
    var lookup := BuildSemanticLookup(name, layer);
    if lookup.fromClause == "" {
      return Err(NoFromClause(name));
    }
    var selectParts, groupByParts := CollectDimensions(lookup, plan.dimensions);
    var calendar := ShouldUseCalendarSkeleton(lookup, groupByParts);
    selectParts := CollectMetrics(lookup, plan.metrics, calendar, selectParts);
    if selectParts == [] {
      return Err(NoSelectItems);
    }
    var whereParts := CollectWhereParts(lookup, plan.filters);
    var lines := AssembleLines(lookup, calendar, selectParts, whereParts, groupByParts);
    r := Ok(Join("\n", lines));
  }

  // ---------------------------------------------------------------------
  // Properties of the compiled statement

  /** Each dimension's select item starts with its GROUP BY expr, and the
      two lists have the same length. */
  lemma {:induction false} SelectDimensionsSpec(lookup: SemanticLookup, dims: seq<string>)
    ensures |SelectDimensions(lookup, dims)| == |GroupByExprs(lookup, dims)|
    ensures forall i :: 0 <= i < |GroupByExprs(lookup, dims)| ==>
      StartsWith(SelectDimensions(lookup, dims)[i], GroupByExprs(lookup, dims)[i] + " AS ")
    decreases |dims|
  {
    if dims != [] {
      var n := |dims| - 1;
      var c := dims[n];
      SelectDimensionsSpec(lookup, dims[..n]);
      var s0, g0 := SelectDimensions(lookup, dims[..n]), GroupByExprs(lookup, dims[..n]);
      if Resolves(lookup.dimensionExprByName, c) {
        var e := lookup.dimensionExprByName[c];
        var item := e + " AS " + Alias(c);
        assert SelectDimensions(lookup, dims) == s0 + [item];
        assert GroupByExprs(lookup, dims) == g0 + [e];
        assert item[..|e + " AS "|] == e + " AS ";
      } else {
        assert SelectDimensions(lookup, dims) == s0 + [];
        assert GroupByExprs(lookup, dims) == g0 + [];
      }
    }
  }

  /** GROUP BY lists exactly the exprs of the dimensions that resolve, and
      is empty exactly when none does. */
  lemma {:induction false} GroupByExprsSpec(lookup: SemanticLookup, dims: seq<string>)
    ensures GroupByExprs(lookup, dims) == [] <==> forall c :: c in dims ==> !Resolves(lookup.dimensionExprByName, c)
    ensures forall c :: c in dims && Resolves(lookup.dimensionExprByName, c) ==>
      lookup.dimensionExprByName[c] in GroupByExprs(lookup, dims)
    ensures forall e :: e in GroupByExprs(lookup, dims) ==>
      exists c :: c in dims && Resolves(lookup.dimensionExprByName, c) && lookup.dimensionExprByName[c] == e
    decreases |dims|
  {
    if dims != [] {
      var n := |dims| - 1;
      var c := dims[n];
      var m := lookup.dimensionExprByName;
      GroupByExprsSpec(lookup, dims[..n]);
      var g0 := GroupByExprs(lookup, dims[..n]);
      var tail := if Resolves(m, c) then [m[c]] else [];
      assert GroupByExprs(lookup, dims) == g0 + tail;
      InPrefixOrLast(dims);
      forall e | e in g0 + tail
        ensures exists d :: d in dims && Resolves(m, d) && m[d] == e
      {
        if e in g0 {
          var d :| d in dims[..n] && Resolves(m, d) && m[d] == e;
          assert d in dims;
        } else {
          assert c in dims;
        }
      }
    }
  }

  /** The select items of the metrics: one per resolving metric, each the
      metric's own item, and none when no metric resolves. */
  lemma {:induction false} SelectMetricsSpec(lookup: SemanticLookup, metrics: seq<string>, calendar: bool)
    ensures SelectMetrics(lookup, metrics, calendar) == [] <==>
      forall c :: c in metrics ==> !Resolves(lookup.metricExprByName, c)
    ensures forall c :: c in metrics && Resolves(lookup.metricExprByName, c) ==>
      MetricPart(lookup, c, calendar) in SelectMetrics(lookup, metrics, calendar)
    ensures forall s :: s in SelectMetrics(lookup, metrics, calendar) ==>
      exists c :: c in metrics && Resolves(lookup.metricExprByName, c) && s == MetricPart(lookup, c, calendar)
    decreases |metrics|
  {
    if metrics != [] {
      var n := |metrics| - 1;
      var c := metrics[n];
      var m := lookup.metricExprByName;
      SelectMetricsSpec(lookup, metrics[..n], calendar);
      var s0 := SelectMetrics(lookup, metrics[..n], calendar);
      var tail := if Resolves(m, c) then [MetricPart(lookup, c, calendar)] else [];
      assert SelectMetrics(lookup, metrics, calendar) == s0 + tail;
      InPrefixOrLast(metrics);
      forall s | s in s0 + tail
        ensures exists d :: d in metrics && Resolves(m, d) && s == MetricPart(lookup, d, calendar)
      {
        if s in s0 {
          var d :| d in metrics[..n] && Resolves(m, d) && s == MetricPart(lookup, d, calendar);
          assert d in metrics;
        } else {
          assert c in metrics;
        }
      }
    }
  }

  /** Select items and GROUP BY exprs keep plan order: those of a prefix of
      the plan's names are a prefix of those of all of them. */
  lemma {:induction false} SelectOrder(lookup: SemanticLookup, dims: seq<string>, metrics: seq<string>, calendar: bool, i: nat, j: nat)
    requires i <= |dims| && j <= |metrics|
    ensures SelectDimensions(lookup, dims[..i]) <= SelectDimensions(lookup, dims)
    ensures GroupByExprs(lookup, dims[..i]) <= GroupByExprs(lookup, dims)
    ensures SelectMetrics(lookup, metrics[..j], calendar) <= SelectMetrics(lookup, metrics, calendar)
    decreases |dims| - i + |metrics| - j
  {
    if i < |dims| {
      SelectOrder(lookup, dims, metrics, calendar, i + 1, j);
      assert dims[..i + 1][..i] == dims[..i];
    } else if j < |metrics| {
      SelectOrder(lookup, dims, metrics, calendar, i, j + 1);
      assert metrics[..j + 1][..j] == metrics[..j];
    } else {
      assert dims[..i] == dims && metrics[..j] == metrics;
    }
  }

  lemma NormalizeAggType(t: string)
    requires t in CoalesceTypes
    ensures TokenMatcher.Normalize(t) == t
  {
    StrippedIsFixpoint(t);
    assert Lower(t) == t;
  }

  /** Under the calendar skeleton exactly the sum, avg, count and
      count_distinct metrics change, and they become COALESCE(..., 0). */
  lemma MetricPartCoalesce(lookup: SemanticLookup, c: string)
    requires Resolves(lookup.metricExprByName, c)
    ensures MetricType(lookup, c) !in CoalesceTypes ==> MetricPart(lookup, c, true) == MetricPart(lookup, c, false)
    ensures MetricType(lookup, c) in CoalesceTypes ==>
      StartsWith(MetricPart(lookup, c, true), "COALESCE(") && !StartsWith(MetricPart(lookup, c, false), "COALESCE(")
  {
    var t := MetricType(lookup, c);
    if t in CoalesceTypes {
      NormalizeAggType(t);
      var e := lookup.metricExprByName[c];
      var plain := MetricPart(lookup, c, false);
      assert MetricPart(lookup, c, true)[..9] == "COALESCE(";
      if t == "count" || t == "count_distinct" {
        assert plain[2] == 'U';
      } else {
        assert plain[0] != 'C';
      }
    }
  }

  /** The condition of a filter: the field through the dimension lookup, or verbatim. */
  function FieldExpr(lookup: SemanticLookup, f: Filter): string
    requires f.Filter?
  {
    var field := Strip(if f.field.Some? then f.field.value else "");
    if field in lookup.dimensionExprByName then lookup.dimensionExprByName[field] else field
  }

  /** A filter is dropped exactly when it is not a dict, or it is neither a
      two-bound between, a comparison, a non-empty `in`, nor carries a
      non-blank expr; a string compared against reads back from its quoted
      literal, and a raw expr is used stripped. */
  lemma WherePartSpec(lookup: SemanticLookup, f: Filter)
    ensures WherePart(lookup, f).None? <==>
      f.NotADict? ||
      (var op := TokenMatcher.Normalize(f.op);
       && !(op == "between" && f.value.List? && |f.value.items| == 2)
       && op !in ComparisonOps
       && !(op == "in" && f.value.List? && f.value.items != [])
       && !(f.expr.Some? && Strip(f.expr.value) != ""))
    ensures f.Filter? && TokenMatcher.Normalize(f.op) in ComparisonOps && f.value.Str? ==>
      && WherePart(lookup, f) == Some(FieldExpr(lookup, f) + " " + TokenMatcher.Normalize(f.op) + " " + QuoteSqlValue(f.value))
      && Unquote(QuoteSqlValue(f.value)) == Some(f.value.s)
    ensures (&& WherePart(lookup, f).Some? && f.Filter? && TokenMatcher.Normalize(f.op) !in ComparisonOps
             && TokenMatcher.Normalize(f.op) !in {"between", "in"})
      ==> WherePart(lookup, f).value == Strip(f.expr.value)
  {
    if f.Filter? && f.value.Str? {
      QuoteSqlValueSpec(f.value);
    }
  }

  /** The WHERE conditions: one per filter that is not dropped, in filter order. */
  lemma {:induction false} WherePartsSpec(lookup: SemanticLookup, fs: seq<Filter>)
    ensures WhereParts(lookup, fs) == [] <==> forall f :: f in fs ==> WherePart(lookup, f).None?
    ensures forall f :: f in fs && WherePart(lookup, f).Some? ==> WherePart(lookup, f).value in WhereParts(lookup, fs)
    ensures forall w :: w in WhereParts(lookup, fs) ==> exists f :: f in fs && WherePart(lookup, f) == Some(w)
    decreases |fs|
  {
    if fs != [] {
      var n := |fs| - 1;
      var f := fs[n];
      WherePartsSpec(lookup, fs[..n]);
      var w0 := WhereParts(lookup, fs[..n]);
      var tail := if WherePart(lookup, f).Some? then [WherePart(lookup, f).value] else [];
      assert WhereParts(lookup, fs) == w0 + tail;
      InPrefixOrLast(fs);
      forall w | w in w0 + tail ensures exists g :: g in fs && WherePart(lookup, g) == Some(w) {
        if w in w0 {
          var g :| g in fs[..n] && WherePart(lookup, g) == Some(w);
          assert g in fs;
        } else {
          assert f in fs;
        }
      }
    }
  }

  lemma {:induction false} JoinTextsSpec(cs: seq<(string, string)>)
    ensures |JoinTexts(cs)| == |cs|
    ensures forall i :: 0 <= i < |cs| ==> JoinTexts(cs)[i] == cs[i].1
    decreases |cs|
  {
    if cs != [] {
      JoinTextsSpec(cs[..|cs| - 1]);
    }
  }

  /** The joins kept under the calendar skeleton: the text of every clause
      whose entity is not `calendar`, and nothing else. */
  lemma {:induction false} NonCalendarJoinTextsSpec(cs: seq<(string, string)>)
    ensures forall c :: c in cs && c.0 != "calendar" ==> c.1 in NonCalendarJoinTexts(cs)
    ensures forall t :: t in NonCalendarJoinTexts(cs) ==> exists c :: c in cs && c.0 != "calendar" && c.1 == t
    decreases |cs|
  {
    if cs != [] {
      var n := |cs| - 1;
      var c := cs[n];
      NonCalendarJoinTextsSpec(cs[..n]);
      var t0 := NonCalendarJoinTexts(cs[..n]);
      var tail := if c.0 == "calendar" then [] else [c.1];
      assert NonCalendarJoinTexts(cs) == t0 + tail;
      InPrefixOrLast(cs);
      forall t | t in t0 + tail ensures exists d :: d in cs && d.0 != "calendar" && d.1 == t {
        if t in t0 {
          var d :| d in cs[..n] && d.0 != "calendar" && d.1 == t;
          assert d in cs;
        } else {
          assert c in cs;
        }
      }
    }
  }

  /** Every rendered join clause is a LEFT JOIN. */
  lemma {:induction false} JoinClausesLeftJoin(es: seq<Entity>, js: seq<DatasetJoin>)
    ensures forall c :: c in JoinClauses(es, js) ==> StartsWith(c.1, "LEFT JOIN ")
    decreases |js|
  {
    if js != [] {
      var n := |js| - 1;
      JoinClausesLeftJoin(es, js[..n]);
      JoinClausesStep(es, js, n);
      assert js[..n + 1] == js;
      var c := JoinClause(es, js[n]);
      if c.Some? {
        var rest := EntityTable(es, js[n].entity) + " ON " + JoinOn(js[n]);
        assert c.value.1 == "LEFT JOIN " + rest;
        assert c.value.1[..10] == "LEFT JOIN ";
      }
    }
  }

  /** The keyword every line of the statement starts with. */
  predicate IsClauseLine(line: string) {
    || StartsWith(line, "SELECT ") || StartsWith(line, "FROM ") || StartsWith(line, "LEFT JOIN ")
    || StartsWith(line, "WHERE ") || StartsWith(line, "GROUP BY ")
  }

  /** FROM comes first, then only LEFT JOIN lines: under the calendar
      skeleton FROM names the calendar table, the dataset is joined to it,
      and the calendar join is not repeated. */
  lemma FromLinesSpec(lookup: SemanticLookup, calendar: bool)
    requires forall c :: c in lookup.joinClauses ==> StartsWith(c.1, "LEFT JOIN ")
    ensures var ls := FromLines(lookup, calendar);
      && |ls| >= 1
      && (calendar ==> |ls| >= 2 && ls[0] == "FROM " + lookup.calendarTable
                       && ls[1] == "LEFT JOIN " + lookup.fromClause + " ON " + lookup.calendarJoinOn)
      && (!calendar ==> ls[0] == "FROM " + lookup.fromClause)
      && (forall i :: 1 <= i < |ls| ==> StartsWith(ls[i], "LEFT JOIN "))
  {
    var ls := FromLines(lookup, calendar);
    forall i | 1 <= i < |ls| ensures StartsWith(ls[i], "LEFT JOIN ") {
      if calendar && i == 1 {
        assert ls[1][..10] == "LEFT JOIN ";
      } else if calendar {
        assert ls[i] in NonCalendarJoinTexts(lookup.joinClauses);
        NonCalendarJoinTextsSpec(lookup.joinClauses);
      } else {
        JoinTextsSpec(lookup.joinClauses);
        assert ls[i] == lookup.joinClauses[i - 1].1;
        assert lookup.joinClauses[i - 1] in lookup.joinClauses;
      }
    }
  }

  /** The statement is SELECT, then the FROM lines, then an optional WHERE
      and an optional GROUP BY; no other line (no LIMIT) is emitted. */
  lemma StatementLinesSpec(lookup: SemanticLookup, calendar: bool, select: seq<string>, where: seq<string>, groupBy: seq<string>)
    requires forall c :: c in lookup.joinClauses ==> StartsWith(c.1, "LEFT JOIN ")
    ensures var ls := StatementLines(lookup, calendar, select, where, groupBy);
      && |ls| >= 2
      && StartsWith(ls[0], "SELECT ") && StartsWith(ls[1], "FROM ")
      && (forall i :: 0 <= i < |ls| ==> IsClauseLine(ls[i]))
  {
    var ls := StatementLines(lookup, calendar, select, where, groupBy);
    var from := FromLines(lookup, calendar);
    var w := if where != [] then ["WHERE " + Join(" AND ", where)] else [];
    var g := if groupBy != [] then ["GROUP BY " + Join(", ", groupBy)] else [];
    FromLinesSpec(lookup, calendar);
    assert ls == ["SELECT " + Join(", ", select)] + from + w + g;
    assert ls[0][..7] == "SELECT ";
    assert from[0][..5] == "FROM ";
    forall i | 0 <= i < |ls| ensures IsClauseLine(ls[i]) {
      if 1 <= i < 1 + |from| {
        assert ls[i] == from[i - 1];
      } else if 1 + |from| <= i < 1 + |from| + |w| {
        assert ls[i] == w[0];
        assert w[0][..6] == "WHERE ";
      } else if i > 0 {
        assert ls[i] == g[0];
        assert g[0][..9] == "GROUP BY ";
      }
    }
  }

  /** GROUP BY is the last line exactly when there are GROUP BY exprs. */
  lemma StatementLinesGroupBy(lookup: SemanticLookup, calendar: bool, select: seq<string>, where: seq<string>, groupBy: seq<string>)
    requires forall c :: c in lookup.joinClauses ==> StartsWith(c.1, "LEFT JOIN ")
    ensures var ls := StatementLines(lookup, calendar, select, where, groupBy);
      |ls| >= 2 && (StartsWith(ls[|ls| - 1], "GROUP BY ") <==> groupBy != [])
  {
    var ls := StatementLines(lookup, calendar, select, where, groupBy);
    var from := FromLines(lookup, calendar);
    var w := if where != [] then ["WHERE " + Join(" AND ", where)] else [];
    var g := if groupBy != [] then ["GROUP BY " + Join(", ", groupBy)] else [];
    FromLinesSpec(lookup, calendar);
    assert ls == ["SELECT " + Join(", ", select)] + from + w + g;
    var last := ls[|ls| - 1];
    if g != [] {
      assert last == g[0];
      assert g[0][..9] == "GROUP BY ";
    } else if w != [] {
      assert last == w[0];
      assert last[0] == 'W';
    } else {
      assert last == from[|from| - 1];
      if |from| == 1 {
        assert last[0] == 'F';
      } else {
        assert last[..10] == "LEFT JOIN ";
        assert last[0] == 'L';
      }
    }
  }

  /** Compilation fails with its exact message in each of the three cases:
      no dataset candidate, a dataset without a from clause, no dimension
      or metric that resolves; otherwise it yields the statement's lines
      joined by newlines. */
  lemma CompileSpec(plan: Plan, layer: Layer)
    ensures Compile(plan, layer) == Err(NoDatasetCandidates) <==> plan.datasets == []
    ensures Compile(plan, layer).Err? && Compile(plan, layer).error.NoFromClause? ==>
      plan.datasets != [] && Compile(plan, layer).error.dataset == plan.datasets[0]
    ensures plan.datasets != [] ==>
      (Compile(plan, layer) == Err(NoFromClause(plan.datasets[0])) <==>
        Strip(FindDataset(layer.datasets, plan.datasets[0]).from) == "")
    ensures Compile(plan, layer) == Err(NoSelectItems) <==>
      && plan.datasets != []
      && Strip(FindDataset(layer.datasets, plan.datasets[0]).from) != ""
      && (forall c :: c in plan.dimensions ==> !Resolves(Lookup(plan.datasets[0], layer).dimensionExprByName, c))
      && (forall c :: c in plan.metrics ==> !Resolves(Lookup(plan.datasets[0], layer).metricExprByName, c))
    ensures Compile(plan, layer).Ok? ==> Compile(plan, layer).value == Join("\n", CompiledLines(plan, layer))
  {
    if plan.datasets != [] {
      var name := plan.datasets[0];
      var lookup := Lookup(name, layer);
      var groupBy := GroupByExprs(lookup, plan.dimensions);
      var calendar := ShouldUseCalendarSkeleton(lookup, groupBy);
      SelectDimensionsSpec(lookup, plan.dimensions);
      GroupByExprsSpec(lookup, plan.dimensions);
      SelectMetricsSpec(lookup, plan.metrics, calendar);
    }
  }

  /** The compiled statement has the clause structure `StatementLinesSpec`
      states, for every plan that has a dataset. */
  lemma CompiledLinesSpec(plan: Plan, layer: Layer)
    requires plan.datasets != []
    ensures var ls := CompiledLines(plan, layer);
      && StartsWith(ls[0], "SELECT ") && StartsWith(ls[1], "FROM ")
      && (forall i :: 0 <= i < |ls| ==> IsClauseLine(ls[i]))
      && (StartsWith(ls[|ls| - 1], "GROUP BY ") <==>
            exists c :: c in plan.dimensions && Resolves(Lookup(plan.datasets[0], layer).dimensionExprByName, c))
  {
    var lookup := Lookup(plan.datasets[0], layer);
    var groupBy := GroupByExprs(lookup, plan.dimensions);
    var calendar := ShouldUseCalendarSkeleton(lookup, groupBy);
    var select := SelectDimensions(lookup, plan.dimensions) + SelectMetrics(lookup, plan.metrics, calendar);
    var where := WhereParts(lookup, plan.filters);
    assert CompiledLines(plan, layer) == StatementLines(lookup, calendar, select, where, groupBy);
    assert forall c :: c in lookup.joinClauses ==> StartsWith(c.1, "LEFT JOIN ") by {
      JoinClausesLeftJoin(layer.entities, FindDataset(layer.datasets, plan.datasets[0]).joins);
    }
    StatementLinesSpec(lookup, calendar, select, where, groupBy);
    StatementLinesGroupBy(lookup, calendar, select, where, groupBy);
    assert groupBy != [] <==> exists c :: c in plan.dimensions && Resolves(lookup.dimensionExprByName, c) by {
      GroupByExprsSpec(lookup, plan.dimensions);
    }
  }

  /** The calendar skeleton is chosen exactly for `deposit_balance_daily`
      with a calendar table, a rendered calendar join, and its first time
      expr among the GROUP BY exprs. */
  lemma CalendarSkeletonSpec(name: string, layer: Layer, groupBy: seq<string>)
    ensures var d := FindDataset(layer.datasets, name);
      ShouldUseCalendarSkeleton(Lookup(name, layer), groupBy) <==>
        && name == "deposit_balance_daily"
        && EntityTable(layer.entities, "calendar") != ""
        && (exists i :: 0 <= i < |d.joins| && d.joins[i].entity == "calendar" && JoinClause(layer.entities, d.joins[i]).Some?)
        && FirstTimeExprOf(d.timeDimensions) != ""
        && FirstTimeExprOf(d.timeDimensions) in groupBy
  {
    CalendarJoinOnSpec(layer.entities, FindDataset(layer.datasets, name).joins);
  }
}
