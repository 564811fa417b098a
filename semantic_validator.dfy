/** The plan validator (app/semantic_validator.py): an ordered list of rules,
    each adding an error message and, once per code, a stable error code. */
module SemanticValidator {
  import opened Basics
  import opened Text
  import opened Seqs
  import opened Semantic

  const BlockedMatch := "BLOCKED_MATCH"
  const TimeFilterRequired := "TIME_FILTER_REQUIRED"
  const TimeAxisIncomplete := "TIME_AXIS_INCOMPLETE"
  const EmptySelection := "EMPTY_SELECTION"
  const MultiDatasetNoJoinPath := "MULTI_DATASET_NO_JOIN_PATH"
  const InvalidCanonicalRef := "INVALID_CANONICAL_REF"
  const DatasetMismatch := "DATASET_MISMATCH"
  const InvalidFilterShape := "INVALID_FILTER_SHAPE"
  const InvalidFilterBetween := "INVALID_FILTER_BETWEEN"
  const InvalidFilterValue := "INVALID_FILTER_VALUE"
  const NoCompilableSelect := "NO_COMPILABLE_SELECT"

  /** One error: its code and its message. */
  datatype Violation = Violation(code: string, message: string)

  /** The dict `validate_semantic_plan` returns. */
  datatype ValidationResult = ValidationResult(ok: bool, errors: seq<string>, errorCodes: seq<string>)

  function CodeOf(v: Violation): string {
    v.code
  }

  function MessageOf(v: Violation): string {
    v.message
  }

  predicate HasCode(vs: seq<Violation>, c: string) {
    exists i :: 0 <= i < |vs| && vs[i].code == c
  }

  /** The messages, one per violation, in order. */
  function Messages(vs: seq<Violation>): (r: seq<string>)
    ensures |r| == |vs|
    decreases |vs|
  {
    if vs == [] then [] else Messages(vs[..|vs| - 1]) + [vs[|vs| - 1].message]
  }

  /** The codes as `_add_error` collects them: appended only when new. */
  function Codes(vs: seq<Violation>): seq<string>
    decreases |vs|
  {
    if vs == [] then []
    else
      var codes := Codes(vs[..|vs| - 1]);
      if vs[|vs| - 1].code in codes then codes else codes + [vs[|vs| - 1].code]
  }

  lemma {:induction false} MessagesSpec(vs: seq<Violation>)
    ensures forall i :: 0 <= i < |vs| ==> Messages(vs)[i] == vs[i].message
    decreases |vs|
  {
    if vs != [] {
      var p := vs[..|vs| - 1];
      MessagesSpec(p);
      forall i | 0 <= i < |vs| ensures Messages(vs)[i] == vs[i].message {
        if i < |p| {
          assert Messages(vs)[i] == Messages(p)[i];
        }
      }
    }
  }

  /** Every code that occurs is listed, nothing else is, and each once. */
  lemma {:induction false} CodesSpec(vs: seq<Violation>)
    ensures forall c :: c in Codes(vs) <==> HasCode(vs, c)
    ensures forall i, j :: 0 <= i < j < |Codes(vs)| ==> Codes(vs)[i] != Codes(vs)[j]
    decreases |vs|
  {
    if vs != [] {
      var p := vs[..|vs| - 1];
      CodesSpec(p);
      forall c ensures c in Codes(vs) <==> HasCode(vs, c) {
        if HasCode(p, c) {
          var i :| 0 <= i < |p| && p[i].code == c;
          assert vs[i].code == c;
        }
        if HasCode(vs, c) {
          var i :| 0 <= i < |vs| && vs[i].code == c;
          if i < |p| {
            assert p[i].code == c;
          }
        }
      }
    }
  }

  /** The result for a list of violations, in the order they were added: one
      message each, each code once, ok iff there are none. */
  function Report(vs: seq<Violation>): (r: ValidationResult)
    ensures |r.errors| == |vs| && forall i :: 0 <= i < |vs| ==> r.errors[i] == vs[i].message
    ensures r.ok <==> r.errors == []
    ensures forall c :: c in r.errorCodes <==> HasCode(vs, c)
    ensures forall i, j :: 0 <= i < j < |r.errorCodes| ==> r.errorCodes[i] != r.errorCodes[j]
  {
    MessagesSpec(vs);
    CodesSpec(vs);
    ValidationResult(|vs| == 0, Messages(vs), Codes(vs))
  }

  lemma HasCodeAppend(a: seq<Violation>, b: seq<Violation>, c: string)
    ensures HasCode(a + b, c) <==> HasCode(a, c) || HasCode(b, c)
  {
    if HasCode(a + b, c) {
      var i :| 0 <= i < |a + b| && (a + b)[i].code == c;
      if i >= |a| {
        assert b[i - |a|].code == c;
      }
    }
    if HasCode(b, c) {
      var i :| 0 <= i < |b| && b[i].code == c;
      assert (a + b)[|a| + i].code == c;
    }
    if HasCode(a, c) {
      var i :| 0 <= i < |a| && a[i].code == c;
      assert (a + b)[i].code == c;
    }
  }

  /** `errors` and `codes` are what recording `added` in order leaves. */
  predicate Records(errors: seq<string>, codes: seq<string>, added: seq<Violation>) {
    errors == Messages(added) && codes == Codes(added)
  }

  /** `_add_error`: the message is always appended, the code only when new. */
  method AddError(errors: seq<string>, codes: seq<string>, ghost added: seq<Violation>, code: string, message: string)
    returns (errors': seq<string>, codes': seq<string>)
    requires Records(errors, codes, added)
    ensures Records(errors', codes', added + [Violation(code, message)])
  {
    assert (added + [Violation(code, message)])[..|added|] == added;
    if code !in codes {
      codes' := codes + [code];
    } else {
      codes' := codes;
    }
    errors' := errors + [message];
  }

  // ---------------------------------------------------------------------
  // `_dataset_from_canonical_name` and `_collect_selected_datasets`

  /** The part of `dataset.name` before the first ".", when there is a "."
      and that part is non-empty. */
  function DatasetFromCanonicalName(name: string): (r: Option<string>)
    ensures r.Some? ==> r.value != "" && !Contains(r.value, ".")
    ensures r.Some? ==> |r.value| < |name| && name[..|r.value| + 1] == r.value + "."
    ensures r.None? <==> !Contains(name, ".") || (|name| > 0 && name[0] == '.')
  {
    if !Contains(name, ".") then None
    else
      var parts := SplitOnce(name, ".");
      assert parts[0] + "." + parts[1] == name;
      assert name[..|parts[0]| + 1] == parts[0] + ".";
      if parts[0] == "" then None
      else
        assert parts[0][0] == name[0];
        Some(parts[0])
  }

  /** The dataset a canonical name adds to the span of selected datasets:
      its prefix, unless that names an entity, or the layer lists datasets
      and this is none of them. */
  function SpanDataset(name: string, layer: Option<Layer>): (r: Option<string>)
    ensures r.Some? ==> DatasetFromCanonicalName(name) == r
    ensures r.Some? && layer.Some? ==> !HasEntity(layer.value, r.value)
    ensures r.Some? && layer.Some? ==> layer.value.datasets == [] || HasDataset(layer.value, r.value)
    ensures DatasetFromCanonicalName(name).Some? && r.None? ==> layer.Some?
  {
    match DatasetFromCanonicalName(name)
    case None => None
    case Some(d) =>
      if layer.Some? && HasEntity(layer.value, d) then None
      else if layer.Some? && layer.value.datasets != [] && !HasDataset(layer.value, d) then None
      else Some(d)
  }

  /** The non-empty dataset candidates, in order. */
  function NonEmptyStrings(xs: seq<string>): (r: seq<string>)
    ensures forall x :: x in r <==> x in xs && x != ""
    decreases |xs|
  {
    if xs == [] then []
    else
      assert xs == xs[..|xs| - 1] + [xs[|xs| - 1]];
      NonEmptyStrings(xs[..|xs| - 1]) + (if xs[|xs| - 1] != "" then [xs[|xs| - 1]] else [])
  }

  /** `selected` after the loop over `names`: each span dataset not yet in
      the list is appended. */
  function CollectSpan(selected: seq<string>, names: seq<string>, layer: Option<Layer>): seq<string>
    decreases |names|
  {
    if names == [] then selected
    else
      var prev := CollectSpan(selected, names[..|names| - 1], layer);
      match SpanDataset(names[|names| - 1], layer)
      case None => prev
      case Some(d) => if d in prev then prev else prev + [d]
  }

  /** What `_collect_selected_datasets` returns. */
  function SelectedDatasets(plan: Plan, layer: Option<Layer>): seq<string> {
    CollectSpan(CollectSpan(NonEmptyStrings(plan.datasets), plan.metrics, layer), plan.dimensions, layer)
  }

  /** Some name in `names` adds `d` to the span. */
  predicate Spans(names: seq<string>, layer: Option<Layer>, d: string) {
    exists n :: n in names && SpanDataset(n, layer) == Some(d)
  }

  /** The loop keeps the initial list as a prefix and appends only values
      not already present. */
  lemma {:induction false} CollectSpanPrefix(selected: seq<string>, names: seq<string>, layer: Option<Layer>)
    ensures var r := CollectSpan(selected, names, layer);
      && |selected| <= |r| && r[..|selected|] == selected
      && (forall i :: |selected| <= i < |r| ==> r[i] !in r[..i])
    decreases |names|
  {
    if names != [] {
      var p := names[..|names| - 1];
      var n := names[|names| - 1];
      CollectSpanPrefix(selected, p, layer);
      var prev := CollectSpan(selected, p, layer);
      var r := CollectSpan(selected, names, layer);
      if r != prev {
        assert r == prev + [SpanDataset(n, layer).value];
        assert r[..|selected|] == prev[..|selected|];
        forall i | |selected| <= i < |r| ensures r[i] !in r[..i] {
          if i < |prev| {
            assert r[..i] == prev[..i];
          } else {
            assert r[..i] == prev;
          }
        }
      }
    }
  }

  /** The loop appends exactly the span datasets of `names`. */
  lemma {:induction false} CollectSpanMembers(selected: seq<string>, names: seq<string>, layer: Option<Layer>)
    ensures forall d :: d in CollectSpan(selected, names, layer) ==> d in selected || Spans(names, layer, d)
    ensures forall d :: Spans(names, layer, d) ==> d in CollectSpan(selected, names, layer)
    decreases |names|
  {
    if names != [] {
      var p := names[..|names| - 1];
      var n := names[|names| - 1];
      CollectSpanMembers(selected, p, layer);
      assert names == p + [n];
      var prev := CollectSpan(selected, p, layer);
      var r := CollectSpan(selected, names, layer);
      assert forall d :: d in prev ==> d in r;
      forall d | d in r ensures d in selected || Spans(names, layer, d) {
        if d !in prev {
          assert SpanDataset(n, layer) == Some(d);
        } else if d !in selected {
          var m :| m in p && SpanDataset(m, layer) == Some(d);
          assert m in names;
        }
      }
      forall d | Spans(names, layer, d) ensures d in r {
        var m :| m in names && SpanDataset(m, layer) == Some(d);
        if m != n {
          assert m in p;
          assert Spans(p, layer, d);
        }
      }
    }
  }

  /** The selected datasets are the non-empty candidates followed by the
      span datasets of the selected metrics and dimensions not yet listed;
      entity prefixes and names outside a non-empty dataset list never
      join the span. */
  lemma SelectedDatasetsSpec(plan: Plan, layer: Option<Layer>)
    ensures forall d :: d in SelectedDatasets(plan, layer) ==>
      (d in plan.datasets && d != "") || Spans(plan.metrics, layer, d) || Spans(plan.dimensions, layer, d)
    ensures forall d :: Spans(plan.metrics, layer, d) || Spans(plan.dimensions, layer, d) ==>
      d in SelectedDatasets(plan, layer)
    ensures forall d :: d in plan.datasets && d != "" ==> d in SelectedDatasets(plan, layer)
    ensures forall d :: d in SelectedDatasets(plan, layer) && d !in plan.datasets && layer.Some? ==>
      !HasEntity(layer.value, d) && (layer.value.datasets == [] || HasDataset(layer.value, d))
  {
    var init := NonEmptyStrings(plan.datasets);
    var mid := CollectSpan(init, plan.metrics, layer);
    var r := SelectedDatasets(plan, layer);
    CollectSpanMembers(init, plan.metrics, layer);
    CollectSpanMembers(mid, plan.dimensions, layer);
    CollectSpanPrefix(init, plan.metrics, layer);
    CollectSpanPrefix(mid, plan.dimensions, layer);
    forall d | d in init ensures d in r {
      var i :| 0 <= i < |init| && init[i] == d;
      assert mid[..|init|][i] == d;
      assert r[..|mid|][i] == d;
    }
    forall d | d in r && d !in plan.datasets && layer.Some?
      ensures !HasEntity(layer.value, d) && (layer.value.datasets == [] || HasDataset(layer.value, d))
    {
      if Spans(plan.metrics, layer, d) {
        var n :| n in plan.metrics && SpanDataset(n, layer) == Some(d);
      } else {
        var n :| n in plan.dimensions && SpanDataset(n, layer) == Some(d);
      }
    }
  }

  /** The loop over the selected metrics or dimensions. */
  method AppendSpanDatasets(selected: seq<string>, names: seq<string>, layer: Option<Layer>)
    returns (r: seq<string>)
    ensures r == CollectSpan(selected, names, layer)
  {
    r := selected;
    for i := 0 to |names|
      invariant r == CollectSpan(selected, names[..i], layer)
    {
      assert names[..i + 1][..i] == names[..i];
      var dataset := DatasetFromCanonicalName(names[i]);
      if dataset.None? {
        continue;
      }
      var d := dataset.value;
      if layer.Some? && HasEntity(layer.value, d) {
        continue;
      }
      if layer.Some? && layer.value.datasets != [] && !HasDataset(layer.value, d) {
        continue;
      }
      if d !in r {
        r := r + [d];
      }
    }
    assert names[..|names|] == names;
  }

  /** `_collect_selected_datasets`. */
  method CollectSelectedDatasets(plan: Plan, layer: Option<Layer>) returns (selected: seq<string>)
    ensures selected == SelectedDatasets(plan, layer)
  {
    selected := [];
    for i := 0 to |plan.datasets|
      invariant selected == NonEmptyStrings(plan.datasets[..i])
    {
      assert plan.datasets[..i + 1][..i] == plan.datasets[..i];
      if plan.datasets[i] != "" {
        selected := selected + [plan.datasets[i]];
      }
    }
    assert plan.datasets[..|plan.datasets|] == plan.datasets;
    selected := AppendSpanDatasets(selected, plan.metrics, layer);
    selected := AppendSpanDatasets(selected, plan.dimensions, layer);
  }

  // ---------------------------------------------------------------------
  // `_has_join_path`

  /** The non-empty entity names a dataset joins to. */
  function JoinEntities(d: Dataset): set<string> {
    set j | j in d.joins && j.entity != "" :: j.entity
  }

  function JoinSets(layer: Layer, selected: seq<string>): (r: seq<set<string>>)
    ensures |r| == |selected|
    ensures forall i :: 0 <= i < |selected| ==> r[i] == JoinEntities(FindDataset(layer.datasets, selected[i]))
  {
    seq(|selected|, i requires 0 <= i < |selected| => JoinEntities(FindDataset(layer.datasets, selected[i])))
  }

  /** `set.intersection(*sets)`. */
  function Common(sets: seq<set<string>>): set<string>
    requires sets != []
    decreases |sets|
  {
    if |sets| == 1 then sets[0] else Common(sets[..|sets| - 1]) * sets[|sets| - 1]
  }

  lemma {:induction false} CommonSpec(sets: seq<set<string>>)
    requires sets != []
    ensures forall e :: e in Common(sets) <==> forall k :: 0 <= k < |sets| ==> e in sets[k]
    decreases |sets|
  {
    if |sets| > 1 {
      var p := sets[..|sets| - 1];
      CommonSpec(p);
      forall e ensures e in Common(sets) <==> forall k :: 0 <= k < |sets| ==> e in sets[k] {
        if forall k :: 0 <= k < |sets| ==> e in sets[k] {
          forall k | 0 <= k < |p| ensures e in p[k] {
            assert p[k] == sets[k];
          }
        }
        if e in Common(sets) {
          assert e in Common(p);
          forall k | 0 <= k < |sets| ensures e in sets[k] {
            if k < |p| {
              assert p[k] == sets[k];
            }
          }
        }
      }
    }
  }

  /** The selected datasets can be joined: there are none, or every one of
      them joins to a common entity. */
  predicate JoinPathExists(layer: Layer, selected: seq<string>) {
    selected == [] || Common(JoinSets(layer, selected)) != {}
  }

  /** A selected dataset without join entities rules a join path out. */
  lemma NoJoinEntitiesNoPath(layer: Layer, selected: seq<string>, i: nat)
    requires i < |selected| && JoinSets(layer, selected)[i] == {}
    ensures !JoinPathExists(layer, selected)
  {
    var sets := JoinSets(layer, selected);
    CommonSpec(sets);
    forall e ensures e !in Common(sets) {
      assert e !in sets[i];
    }
  }

  /** With datasets selected, a join path is exactly an entity every
      selected dataset joins to. */
  lemma JoinPathSpec(layer: Layer, selected: seq<string>, e: string)
    requires selected != []
    ensures e in Common(JoinSets(layer, selected)) <==>
      forall i :: 0 <= i < |selected| ==> e in JoinEntities(FindDataset(layer.datasets, selected[i]))
  {
    var sets := JoinSets(layer, selected);
    CommonSpec(sets);
    assert e in Common(sets) <==> forall k :: 0 <= k < |sets| ==> e in sets[k];
  }

  /** `_has_join_path`: collects each dataset's join-entity set, failing on
      an empty one, then intersects them. */
  method HasJoinPath(layer: Layer, selected: seq<string>) returns (b: bool)
    ensures b == JoinPathExists(layer, selected)
  {
    var sets: seq<set<string>> := [];
    for i := 0 to |selected|
      invariant |sets| == i
      invariant forall k :: 0 <= k < i ==> sets[k] == JoinEntities(FindDataset(layer.datasets, selected[k]))
    {
      var joinEntities := JoinEntities(FindDataset(layer.datasets, selected[i]));
      if joinEntities == {} {
        NoJoinEntitiesNoPath(layer, selected, i);
        return false;
      }
      sets := sets + [joinEntities];
    }
    if sets == [] {
      return true;
    }
    assert sets == JoinSets(layer, selected);
    var common := IntersectAll(sets);
    b := common != {};
  }

  /** `common = sets[0]; common &= s` for each later set. */
  method IntersectAll(sets: seq<set<string>>) returns (common: set<string>)
    requires sets != []
    ensures common == Common(sets)
  {
    common := sets[0];
    for k := 1 to |sets|
      invariant common == Common(sets[..k])
    {
      assert sets[..k + 1][..k] == sets[..k];
      common := common * sets[k];
    }
    assert sets[..|sets|] == sets;
  }

  // ---------------------------------------------------------------------
  // `_build_valid_canonical_sets`

  /** `prefix.name` for every item whose stripped name is non-empty. */
  function ItemNames(prefix: string, items: seq<Item>): set<string>
    decreases |items|
  {
    if items == [] then {}
    else
      var it := items[|items| - 1];
      ItemNames(prefix, items[..|items| - 1]) + (if Strip(it.name) != "" then {prefix + "." + Strip(it.name)} else {})
  }

  lemma {:induction false} ItemNamesSpec(prefix: string, items: seq<Item>)
    ensures forall x :: x in ItemNames(prefix, items) <==>
      exists it :: it in items && Strip(it.name) != "" && x == prefix + "." + Strip(it.name)
    decreases |items|
  {
    if items != [] {
      var p := items[..|items| - 1];
      ItemNamesSpec(prefix, p);
      assert items == p + [items[|items| - 1]];
    }
  }

  /** The union of `f(x)` over the elements of `xs`. */
  function Union<T>(xs: seq<T>, f: T -> set<string>): set<string>
    decreases |xs|
  {
    if xs == [] then {} else Union(xs[..|xs| - 1], f) + f(xs[|xs| - 1])
  }

  lemma {:induction false} UnionSpec<T>(xs: seq<T>, f: T -> set<string>)
    ensures forall x :: x in Union(xs, f) <==> exists i :: 0 <= i < |xs| && x in f(xs[i])
    decreases |xs|
  {
    if xs != [] {
      var p := xs[..|xs| - 1];
      UnionSpec(p, f);
      forall x ensures x in Union(xs, f) <==> exists i :: 0 <= i < |xs| && x in f(xs[i]) {
        if x in Union(p, f) {
          var i :| 0 <= i < |p| && x in f(p[i]);
          assert p[i] == xs[i];
        }
        if exists i :: 0 <= i < |xs| && x in f(xs[i]) {
          var i :| 0 <= i < |xs| && x in f(xs[i]);
          if i < |p| {
            assert p[i] == xs[i];
          }
        }
      }
    }
  }

  function MetricNamesOf(d: Dataset): set<string> {
    ItemNames(d.name, d.metrics)
  }

  function DimensionNamesOf(d: Dataset): set<string> {
    ItemNames(d.name, d.dimensions) + ItemNames(d.name, d.timeDimensions)
  }

  function FieldNamesOf(e: Entity): set<string> {
    ItemNames(e.name, e.fields)
  }

  function ValidMetrics(layer: Layer): set<string> {
    Union(layer.datasets, MetricNamesOf)
  }

  function ValidDimensions(layer: Layer): set<string> {
    Union(layer.datasets, DimensionNamesOf) + Union(layer.entities, FieldNamesOf)
  }

  lemma UnionStep<T>(xs: seq<T>, i: nat, f: T -> set<string>)
    requires i < |xs|
    ensures Union(xs[..i + 1], f) == Union(xs[..i], f) + f(xs[i])
  {
    assert xs[..i + 1][..i] == xs[..i];
  }

  function PlainDimensionNamesOf(d: Dataset): set<string> {
    ItemNames(d.name, d.dimensions)
  }

  function TimeDimensionNamesOf(d: Dataset): set<string> {
    ItemNames(d.name, d.timeDimensions)
  }

  /** Some dataset has a metric that `x` names. */
  predicate NamesDatasetMetric(ds: seq<Dataset>, x: string) {
    exists i, it :: 0 <= i < |ds| && it in ds[i].metrics && Names(x, ds[i].name, it)
  }

  predicate NamesDatasetDimension(ds: seq<Dataset>, x: string) {
    exists i, it :: 0 <= i < |ds| && it in ds[i].dimensions && Names(x, ds[i].name, it)
  }

  predicate NamesDatasetTimeDimension(ds: seq<Dataset>, x: string) {
    exists i, it :: 0 <= i < |ds| && it in ds[i].timeDimensions && Names(x, ds[i].name, it)
  }

  predicate NamesEntityField(es: seq<Entity>, x: string) {
    exists i, it :: 0 <= i < |es| && it in es[i].fields && Names(x, es[i].name, it)
  }

  lemma InItemNames(prefix: string, items: seq<Item>, x: string)
    ensures x in ItemNames(prefix, items) <==> exists it :: it in items && Names(x, prefix, it)
  {
    ItemNamesSpec(prefix, items);
    if x in ItemNames(prefix, items) {
      var it :| it in items && Strip(it.name) != "" && x == prefix + "." + Strip(it.name);
      assert Names(x, prefix, it);
    }
  }

  /** A valid metric is `dataset.metric` for a metric of some dataset, and
      a blank metric name never yields one. */
  lemma ValidMetricsSpec(layer: Layer, x: string)
    ensures x in ValidMetrics(layer) <==> NamesDatasetMetric(layer.datasets, x)
  {
    var ds := layer.datasets;
    UnionSpec(ds, MetricNamesOf);
    if x in ValidMetrics(layer) {
      var i :| 0 <= i < |ds| && x in MetricNamesOf(ds[i]);
      InItemNames(ds[i].name, ds[i].metrics, x);
    }
    if NamesDatasetMetric(ds, x) {
      var i, it :| 0 <= i < |ds| && it in ds[i].metrics && Names(x, ds[i].name, it);
      InItemNames(ds[i].name, ds[i].metrics, x);
      assert x in MetricNamesOf(ds[i]);
    }
  }

  lemma PlainDimensionsSpec(ds: seq<Dataset>, x: string)
    ensures x in Union(ds, PlainDimensionNamesOf) <==> NamesDatasetDimension(ds, x)
  {
    UnionSpec(ds, PlainDimensionNamesOf);
    if x in Union(ds, PlainDimensionNamesOf) {
      var i :| 0 <= i < |ds| && x in PlainDimensionNamesOf(ds[i]);
      InItemNames(ds[i].name, ds[i].dimensions, x);
    }
    if NamesDatasetDimension(ds, x) {
      var i, it :| 0 <= i < |ds| && it in ds[i].dimensions && Names(x, ds[i].name, it);
      InItemNames(ds[i].name, ds[i].dimensions, x);
      assert x in PlainDimensionNamesOf(ds[i]);
    }
  }

  lemma TimeDimensionsSpec(ds: seq<Dataset>, x: string)
    ensures x in Union(ds, TimeDimensionNamesOf) <==> NamesDatasetTimeDimension(ds, x)
  {
    UnionSpec(ds, TimeDimensionNamesOf);
    if x in Union(ds, TimeDimensionNamesOf) {
      var i :| 0 <= i < |ds| && x in TimeDimensionNamesOf(ds[i]);
      InItemNames(ds[i].name, ds[i].timeDimensions, x);
    }
    if NamesDatasetTimeDimension(ds, x) {
      var i, it :| 0 <= i < |ds| && it in ds[i].timeDimensions && Names(x, ds[i].name, it);
      InItemNames(ds[i].name, ds[i].timeDimensions, x);
      assert x in TimeDimensionNamesOf(ds[i]);
    }
  }

  lemma DimensionUnionSplit(ds: seq<Dataset>, x: string)
    ensures x in Union(ds, DimensionNamesOf) <==>
      x in Union(ds, PlainDimensionNamesOf) || x in Union(ds, TimeDimensionNamesOf)
  {
    UnionSpec(ds, DimensionNamesOf);
    UnionSpec(ds, PlainDimensionNamesOf);
    UnionSpec(ds, TimeDimensionNamesOf);
    if x in Union(ds, DimensionNamesOf) {
      var i :| 0 <= i < |ds| && x in DimensionNamesOf(ds[i]);
      assert x in PlainDimensionNamesOf(ds[i]) || x in TimeDimensionNamesOf(ds[i]);
    }
    if x in Union(ds, PlainDimensionNamesOf) {
      var i :| 0 <= i < |ds| && x in PlainDimensionNamesOf(ds[i]);
      assert x in DimensionNamesOf(ds[i]);
    }
    if x in Union(ds, TimeDimensionNamesOf) {
      var i :| 0 <= i < |ds| && x in TimeDimensionNamesOf(ds[i]);
      assert x in DimensionNamesOf(ds[i]);
    }
  }

  lemma EntityFieldsSpec(es: seq<Entity>, x: string)
    ensures x in Union(es, FieldNamesOf) <==> NamesEntityField(es, x)
  {
    UnionSpec(es, FieldNamesOf);
    if x in Union(es, FieldNamesOf) {
      var i :| 0 <= i < |es| && x in FieldNamesOf(es[i]);
      InItemNames(es[i].name, es[i].fields, x);
    }
    if NamesEntityField(es, x) {
      var i, it :| 0 <= i < |es| && it in es[i].fields && Names(x, es[i].name, it);
      InItemNames(es[i].name, es[i].fields, x);
      assert x in FieldNamesOf(es[i]);
    }
  }

  /** A valid dimension is `dataset.dimension`, `dataset.time_dimension` or
      `entity.field`. */
  lemma ValidDimensionsSpec(layer: Layer, x: string)
    ensures x in ValidDimensions(layer) <==>
      || NamesDatasetDimension(layer.datasets, x)
      || NamesDatasetTimeDimension(layer.datasets, x)
      || NamesEntityField(layer.entities, x)
  {
    DimensionUnionSplit(layer.datasets, x);
    PlainDimensionsSpec(layer.datasets, x);
    TimeDimensionsSpec(layer.datasets, x);
    EntityFieldsSpec(layer.entities, x);
  }

  /** The loop adding `prefix.name` for each item. */
  method AddItemNames(names: set<string>, prefix: string, items: seq<Item>) returns (r: set<string>)
    ensures r == names + ItemNames(prefix, items)
  {
    r := names;
    for i := 0 to |items|
      invariant r == names + ItemNames(prefix, items[..i])
    {
      assert items[..i + 1][..i] == items[..i];
      var name := Strip(items[i].name);
      if name != "" {
        r := r + {prefix + "." + name};
      }
    }
    assert items[..|items|] == items;
  }

  /** `_build_valid_canonical_sets`. */
  method BuildValidCanonicalSets(layer: Layer) returns (metricSet: set<string>, dimensionSet: set<string>)
    ensures metricSet == ValidMetrics(layer)
    ensures dimensionSet == ValidDimensions(layer)
  {
    metricSet, dimensionSet := {}, {};
    var ds := layer.datasets;
    for i := 0 to |ds|
      invariant metricSet == Union(ds[..i], MetricNamesOf)
      invariant dimensionSet == Union(ds[..i], DimensionNamesOf)
    {
      metricSet := AddItemNames(metricSet, ds[i].name, ds[i].metrics);
      dimensionSet := AddItemNames(dimensionSet, ds[i].name, ds[i].dimensions);
      dimensionSet := AddItemNames(dimensionSet, ds[i].name, ds[i].timeDimensions);
      UnionStep(ds, i, MetricNamesOf);
      UnionStep(ds, i, DimensionNamesOf);
    }
    assert ds[..|ds|] == ds;
    var es := layer.entities;
    for i := 0 to |es|
      invariant dimensionSet == Union(ds, DimensionNamesOf) + Union(es[..i], FieldNamesOf)
    {
      dimensionSet := AddItemNames(dimensionSet, es[i].name, es[i].fields);
      UnionStep(es, i, FieldNamesOf);
    }
    assert es[..|es|] == es;
  }

  // ---------------------------------------------------------------------
  // `_has_compilable_select_item`

  /** `dataset.name` for an item of `ds` with a non-blank name. */
  predicate Names(m: string, dataset: string, it: Item) {
    Strip(it.name) != "" && m == dataset + "." + Strip(it.name)
  }

  /** The primary dataset is a non-empty name and some selected metric is
      one of its metrics or some selected dimension one of its plain
      dimensions. */
  predicate CompilesAgainst(plan: Plan, ds: Dataset)
    requires plan.datasets != []
  {
    var name := Strip(plan.datasets[0]);
    && name != ""
    && ((exists m, it :: m in plan.metrics && it in ds.metrics && Names(m, name, it))
        || (exists d, it :: d in plan.dimensions && it in ds.dimensions && Names(d, name, it)))
  }

  /** Some selected metric is a metric of the primary dataset (the stripped
      first candidate), or some selected dimension one of its plain
      dimensions; time dimensions do not count. */
  function HasCompilableSelectItem(plan: Plan, layer: Layer): (r: bool)
    ensures r ==> plan.datasets != [] && Strip(plan.datasets[0]) != ""
  {
    if plan.datasets == [] then false
    else
      var name := Strip(plan.datasets[0]);
      if name == "" then false
      else
        var ds := FindDataset(layer.datasets, name);
        var metricNames := ItemNames(name, ds.metrics);
        var dimensionNames := ItemNames(name, ds.dimensions);
        (exists m :: m in plan.metrics && m in metricNames) || (exists d :: d in plan.dimensions && d in dimensionNames)
  }

  /** Compilable means: the primary dataset is non-blank and some selected
      metric is one of its metrics or some selected dimension one of its
      plain dimensions. */
  lemma HasCompilableSelectItemSpec(plan: Plan, layer: Layer)
    ensures HasCompilableSelectItem(plan, layer) <==>
      plan.datasets != [] && CompilesAgainst(plan, FindDataset(layer.datasets, Strip(plan.datasets[0])))
  {
    if plan.datasets != [] && Strip(plan.datasets[0]) != "" {
      var name := Strip(plan.datasets[0]);
      var ds := FindDataset(layer.datasets, name);
      ItemNamesSpec(name, ds.metrics);
      ItemNamesSpec(name, ds.dimensions);
      if HasCompilableSelectItem(plan, layer) {
        if exists m :: m in plan.metrics && m in ItemNames(name, ds.metrics) {
          var m :| m in plan.metrics && m in ItemNames(name, ds.metrics);
          var it :| it in ds.metrics && Strip(it.name) != "" && m == name + "." + Strip(it.name);
          assert Names(m, name, it);
        } else {
          var d :| d in plan.dimensions && d in ItemNames(name, ds.dimensions);
          var it :| it in ds.dimensions && Strip(it.name) != "" && d == name + "." + Strip(it.name);
          assert Names(d, name, it);
        }
      }
      if CompilesAgainst(plan, ds) {
        if exists m, it :: m in plan.metrics && it in ds.metrics && Names(m, name, it) {
          var m, it :| m in plan.metrics && it in ds.metrics && Names(m, name, it);
          assert m in ItemNames(name, ds.metrics);
        } else {
          var d, it :| d in plan.dimensions && it in ds.dimensions && Names(d, name, it);
          assert d in ItemNames(name, ds.dimensions);
        }
      }
    }
  }

  // ---------------------------------------------------------------------
  // The rules

  const BlockedMessage := "命中敏感欄位（allowed=false），請改用非敏感欄位或彙總指標。"
  const TimeFilterMessage := "查詢需要時間條件（require_time_filter=true），請補充時間範圍。"
  const TimeAxisMessage := "時間軸解析不完整，缺少 start_date/end_date。"
  const EmptySelectionMessage := "尚未選到可用的指標/維度，請補充查詢條件。"
  const MismatchMessage := "已選欄位與 selected_dataset_candidates[0] 不一致，請改用同一資料集。"
  const NoCompilableMessage := "目前選取內容無法編譯成有效 SELECT，請改選同資料集內的指標/維度。"

  function JoinPathMessage(selected: seq<string>): string {
    "多資料集無法透過共同維度連接（datasets: " + Join(", ", selected) + "），請改用同一資料集的指標/維度。"
  }

  function InvalidRefMessage(invalid: seq<string>): string {
    "選取了語意層不存在的欄位：" + Join(", ", invalid)
  }

  /** Some of metrics, dimensions and dataset candidates is non-empty. */
  predicate HasSelectionContext(plan: Plan) {
    plan.metrics != [] || plan.dimensions != [] || plan.datasets != []
  }

  predicate TimeAxisIsIncomplete(axis: TimeAxis) {
    axis.TimeAxis? && axis.hasTimeFilter && (axis.startDate == "" || axis.endDate == "")
  }

  /** The elements of `xs` outside `valid`, in order. */
  function NotIn(xs: seq<string>, valid: set<string>): (r: seq<string>)
    ensures forall x :: x in r <==> x in xs && x !in valid
    decreases |xs|
  {
    if xs == [] then []
    else
      assert xs == xs[..|xs| - 1] + [xs[|xs| - 1]];
      NotIn(xs[..|xs| - 1], valid) + (if xs[|xs| - 1] !in valid then [xs[|xs| - 1]] else [])
  }

  /** The stripped filter field, when it is a dotted name the filter-field
      check looks at. */
  function CheckedField(f: Filter): (r: Option<string>)
    ensures r.Some? ==> f.Filter? && f.field.Some? && r.value == Strip(f.field.value) && Contains(r.value, ".")
    ensures f.Filter? && f.field.Some? && Contains(Strip(f.field.value), ".") ==> r.Some?
  {
    if f.Filter? && f.field.Some? then
      var field := Strip(f.field.value);
      if field == "" || !Contains(field, ".") then None else Some(field)
    else None
  }

  /** `invalid_filter_fields`. */
  function InvalidFilterFields(fs: seq<Filter>, valid: set<string>): (r: seq<string>)
    ensures forall x :: x in r <==> x !in valid && exists f :: f in fs && CheckedField(f) == Some(x)
    decreases |fs|
  {
    if fs == [] then []
    else
      var f := fs[|fs| - 1];
      assert fs == fs[..|fs| - 1] + [f];
      var field := CheckedField(f);
      InvalidFilterFields(fs[..|fs| - 1], valid) + (if field.Some? && field.value !in valid then [field.value] else [])
  }

  /** The loop collecting `invalid_filter_fields`. */
  method CollectInvalidFilterFields(fs: seq<Filter>, valid: set<string>) returns (r: seq<string>)
    ensures r == InvalidFilterFields(fs, valid)
  {
    r := [];
    for i := 0 to |fs|
      invariant r == InvalidFilterFields(fs[..i], valid)
    {
      assert fs[..i + 1][..i] == fs[..i];
      var f := fs[i];
      if !f.Filter? {
        continue;
      }
      if f.field.None? {
        continue;
      }
      var field := Strip(f.field.value);
      if field == "" || !Contains(field, ".") {
        continue;
      }
      if field !in valid {
        r := r + [field];
      }
    }
    assert fs[..|fs|] == fs;
  }

  /** Every reference absent from the catalog: metrics, then dimensions,
      then filter fields. */
  function InvalidRefs(plan: Plan, layer: Layer): seq<string> {
    NotIn(plan.metrics, ValidMetrics(layer)) + NotIn(plan.dimensions, ValidDimensions(layer))
      + InvalidFilterFields(plan.filters, ValidDimensions(layer))
  }

  function Prefix(name: string): string {
    SplitOnce(name, ".")[0]
  }

  /** A dotted metric from a dataset other than `first`. */
  predicate ForeignMetric(m: string, first: string) {
    Contains(m, ".") && Prefix(m) != first
  }

  /** A dotted dimension from neither `first` nor an entity. */
  predicate ForeignDimension(d: string, first: string, layer: Layer) {
    Contains(d, ".") && Prefix(d) != first && !HasEntity(layer, Prefix(d))
  }

  /** The first dataset candidate as given, or "". */
  function FirstDataset(plan: Plan): string {
    if plan.datasets != [] then plan.datasets[0] else ""
  }

  predicate IsMismatched(plan: Plan, layer: Layer) {
    var first := FirstDataset(plan);
    first != "" &&
      ((exists m :: m in plan.metrics && ForeignMetric(m, first))
       || (exists d :: d in plan.dimensions && ForeignDimension(d, first, layer)))
  }

  const ComparisonOps: set<string> := {"=", "!=", ">", ">=", "<", "<="}

  function FilterOp(f: Filter): string
    requires f.Filter?
  {
    Lower(Strip(f.op))
  }

  predicate HasExpr(f: Filter)
    requires f.Filter?
  {
    f.expr.Some? && Strip(f.expr.value) != ""
  }

  predicate IsPairList(v: Value) {
    v.List? && |v.items| == 2
  }

  predicate IsNonEmptyList(v: Value) {
    v.List? && v.items != []
  }

  /** "第 {idx+1} 個" followed by `rest`. */
  function FilterMessage(idx: nat, rest: string): string {
    "第 " + NatToString(idx + 1) + " 個" + rest
  }

  /** The shape check for the filter at position `idx` (0-based). */
  function FilterViolation(idx: nat, f: Filter): seq<Violation> {
    if f.NotADict? then [Violation(InvalidFilterShape, FilterMessage(idx, "過濾條件格式錯誤，需為物件。"))]
    else
      var op := FilterOp(f);
      if op == "between" then
        if !IsPairList(f.value) then [Violation(InvalidFilterBetween, FilterMessage(idx, " between 條件必須提供兩個值。"))] else []
      else if op in ComparisonOps then
        if f.value == Null then [Violation(InvalidFilterValue, FilterMessage(idx, "過濾條件缺少 value。"))] else []
      else if op == "in" then
        if !IsNonEmptyList(f.value) then [Violation(InvalidFilterValue, FilterMessage(idx, " in 條件需提供至少一個值。"))] else []
      else if op == "is null" || op == "is not null" then []
      else if !HasExpr(f) then [Violation(InvalidFilterShape, FilterMessage(idx, "過濾條件缺少可用欄位（field/op/value 或 expr）。"))]
      else []
  }

  /** `check(i, fs[i])` for every position, concatenated in order. */
  function CheckEach(fs: seq<Filter>, check: (nat, Filter) -> seq<Violation>): seq<Violation>
    decreases |fs|
  {
    if fs == [] then [] else CheckEach(fs[..|fs| - 1], check) + check(|fs| - 1, fs[|fs| - 1])
  }

  function FilterViolations(fs: seq<Filter>): seq<Violation> {
    CheckEach(fs, FilterViolation)
  }

  predicate TimeFilterMissing(plan: Plan, requireTimeFilter: Value) {
    Truthy(requireTimeFilter) && HasSelectionContext(plan) && plan.filters == []
  }

  predicate SelectionEmpty(plan: Plan) {
    plan.metrics == [] && plan.dimensions == []
  }

  /** Several datasets are selected and, with a semantic layer, cannot be
      joined. */
  predicate Unjoinable(plan: Plan, layer: Option<Layer>) {
    var selected := SelectedDatasets(plan, layer);
    |selected| > 1 && layer.Some? && !JoinPathExists(layer.value, selected)
  }

  predicate SomeFilter(fs: seq<Filter>, bad: Filter -> bool) {
    exists i :: 0 <= i < |fs| && bad(fs[i])
  }

  /** One violation when `cond` holds, none otherwise. */
  function Rule(cond: bool, code: string, message: string): seq<Violation> {
    if cond then [Violation(code, message)] else []
  }

  function TimeFilterRule(plan: Plan, requireTimeFilter: Value): seq<Violation> {
    Rule(TimeFilterMissing(plan, requireTimeFilter), TimeFilterRequired, TimeFilterMessage)
  }

  function TimeAxisRule(plan: Plan): seq<Violation> {
    Rule(TimeAxisIsIncomplete(plan.timeAxis), TimeAxisIncomplete, TimeAxisMessage)
  }

  function EmptySelectionRule(plan: Plan): seq<Violation> {
    Rule(SelectionEmpty(plan), EmptySelection, EmptySelectionMessage)
  }

  function JoinPathRule(plan: Plan, layer: Option<Layer>): seq<Violation> {
    Rule(Unjoinable(plan, layer), MultiDatasetNoJoinPath, JoinPathMessage(SelectedDatasets(plan, layer)))
  }

  function InvalidRefRule(plan: Plan, layer: Layer): seq<Violation> {
    var invalid := InvalidRefs(plan, layer);
    Rule(invalid != [], InvalidCanonicalRef, InvalidRefMessage(invalid))
  }

  function MismatchRule(plan: Plan, layer: Layer): seq<Violation> {
    Rule(IsMismatched(plan, layer), DatasetMismatch, MismatchMessage)
  }

  function CompilableRule(plan: Plan, layer: Layer): seq<Violation> {
    Rule(!HasCompilableSelectItem(plan, layer), NoCompilableSelect, NoCompilableMessage)
  }

  /** The rules that need no semantic layer (the join rule is skipped
      without one). */
  function BaseViolations(plan: Plan, requireTimeFilter: Value, layer: Option<Layer>): seq<Violation> {
    TimeFilterRule(plan, requireTimeFilter) + TimeAxisRule(plan) + EmptySelectionRule(plan) + JoinPathRule(plan, layer)
  }

  /** The rules checked against the semantic layer. */
  function CatalogViolations(plan: Plan, layer: Layer): seq<Violation> {
    InvalidRefRule(plan, layer) + MismatchRule(plan, layer) + FilterViolations(plan.filters) + CompilableRule(plan, layer)
  }

  /** The ordered violations `validate_semantic_plan` records. */
  function Violations(plan: Plan, hits: TokenHits, requireTimeFilter: Value, layer: Option<Layer>): seq<Violation> {
    if hits.blocked != [] then [Violation(BlockedMatch, BlockedMessage)]
    else if layer.None? then BaseViolations(plan, requireTimeFilter, layer)
    else BaseViolations(plan, requireTimeFilter, layer) + CatalogViolations(plan, layer.value)
  }

  /** `if cond: _add_error(code, message)`. */
  method AddErrorIf(errors: seq<string>, codes: seq<string>, ghost added: seq<Violation>, cond: bool, code: string, message: string)
    returns (errors': seq<string>, codes': seq<string>, ghost added': seq<Violation>)
    requires Records(errors, codes, added)
    ensures added' == added + Rule(cond, code, message)
    ensures Records(errors', codes', added')
  {
    added' := added + Rule(cond, code, message);
    if cond {
      errors', codes' := AddError(errors, codes, added, code, message);
    } else {
      assert added' == added;
      errors', codes' := errors, codes;
    }
  }

  /** The time, selection and join rules, in order. */
  method CheckBaseRules(plan: Plan, requireTimeFilter: Value, layer: Option<Layer>)
    returns (errors: seq<string>, errorCodes: seq<string>, ghost added: seq<Violation>)
    ensures added == BaseViolations(plan, requireTimeFilter, layer)
    ensures Records(errors, errorCodes, added)
  {
    errors, errorCodes, added := CheckTimeRules(plan, requireTimeFilter);
    errors, errorCodes, added := CheckSelection(errors, errorCodes, added, plan, layer);
    assert added == TimeFilterRule(plan, requireTimeFilter) + TimeAxisRule(plan) + (EmptySelectionRule(plan) + JoinPathRule(plan, layer));
  }

  /** The time-filter and time-axis rules. */
  method CheckTimeRules(plan: Plan, requireTimeFilter: Value)
    returns (errors: seq<string>, errorCodes: seq<string>, ghost added: seq<Violation>)
    ensures added == TimeFilterRule(plan, requireTimeFilter) + TimeAxisRule(plan)
    ensures Records(errors, errorCodes, added)
  {
    var requireTime := Truthy(requireTimeFilter);
    var hasSelectionContext := plan.metrics != [] || plan.dimensions != [] || plan.datasets != [];
    errors, errorCodes, added := AddErrorIf([], [], [],
      requireTime && hasSelectionContext && plan.filters == [], TimeFilterRequired, TimeFilterMessage);
    assert added == TimeFilterRule(plan, requireTimeFilter);

    var axis := plan.timeAxis;
    errors, errorCodes, added := AddErrorIf(errors, errorCodes, added,
      axis.TimeAxis? && axis.hasTimeFilter && (axis.startDate == "" || axis.endDate == ""), TimeAxisIncomplete, TimeAxisMessage);
  }

  /** The empty-selection and join rules. */
  method CheckSelection(errors: seq<string>, errorCodes: seq<string>, ghost added: seq<Violation>, plan: Plan, layer: Option<Layer>)
    returns (errors': seq<string>, errorCodes': seq<string>, ghost added': seq<Violation>)
    requires Records(errors, errorCodes, added)
    ensures added' == added + (EmptySelectionRule(plan) + JoinPathRule(plan, layer))
    ensures Records(errors', errorCodes', added')
  {
    errors', errorCodes', added' := AddErrorIf(errors, errorCodes, added,
      plan.metrics == [] && plan.dimensions == [], EmptySelection, EmptySelectionMessage);
    assert added' == added + EmptySelectionRule(plan);
    errors', errorCodes', added' := CheckJoinPath(errors', errorCodes', added', plan, layer);
  }

  /** The join rule: several datasets selected and no common entity. */
  method CheckJoinPath(errors: seq<string>, errorCodes: seq<string>, ghost added: seq<Violation>, plan: Plan, layer: Option<Layer>)
    returns (errors': seq<string>, errorCodes': seq<string>, ghost added': seq<Violation>)
    requires Records(errors, errorCodes, added)
    ensures added' == added + JoinPathRule(plan, layer)
    ensures Records(errors', errorCodes', added')
  {
    var selected := CollectSelectedDatasets(plan, layer);
    var joinable := true;
    if |selected| > 1 && layer.Some? {
      joinable := HasJoinPath(layer.value, selected);
    }
    errors', errorCodes', added' := AddErrorIf(errors, errorCodes, added, !joinable, MultiDatasetNoJoinPath, JoinPathMessage(selected));
  }

  /** The shape check for the filter at position `idx`, as an if/elif chain. */
  method CheckFilter(errors: seq<string>, errorCodes: seq<string>, ghost added: seq<Violation>, idx: nat, f: Filter)
    returns (errors': seq<string>, errorCodes': seq<string>, ghost added': seq<Violation>)
    requires Records(errors, errorCodes, added)
    ensures added' == added + FilterViolation(idx, f)
    ensures Records(errors', errorCodes', added')
  {
    added' := added + FilterViolation(idx, f);
    errors', errorCodes' := errors, errorCodes;
    if f.NotADict? {
      errors', errorCodes' := AddError(errors, errorCodes, added, InvalidFilterShape, FilterMessage(idx, "過濾條件格式錯誤，需為物件。"));
      return;
    }
    var op := Lower(Strip(f.op));
    if op == "between" {
      if !(f.value.List? && |f.value.items| == 2) {
        errors', errorCodes' := AddError(errors, errorCodes, added, InvalidFilterBetween, FilterMessage(idx, " between 條件必須提供兩個值。"));
        return;
      }
    } else if op in ComparisonOps {
      if f.value == Null {
        errors', errorCodes' := AddError(errors, errorCodes, added, InvalidFilterValue, FilterMessage(idx, "過濾條件缺少 value。"));
        return;
      }
    } else if op == "in" {
      if !(f.value.List? && f.value.items != []) {
        errors', errorCodes' := AddError(errors, errorCodes, added, InvalidFilterValue, FilterMessage(idx, " in 條件需提供至少一個值。"));
        return;
      }
    } else if op == "is null" || op == "is not null" {
    } else if !(f.expr.Some? && Strip(f.expr.value) != "") {
      errors', errorCodes' := AddError(errors, errorCodes, added, InvalidFilterShape, FilterMessage(idx, "過濾條件缺少可用欄位（field/op/value 或 expr）。"));
      return;
    }
    assert FilterViolation(idx, f) == [];
    assert added' == added;
  }

  lemma FilterViolationsSnoc(fs: seq<Filter>, idx: nat)
    requires idx < |fs|
    ensures FilterViolations(fs[..idx + 1]) == FilterViolations(fs[..idx]) + FilterViolation(idx, fs[idx])
  {
    assert fs[..idx + 1][..idx] == fs[..idx];
  }

  /** The per-filter shape rules, in filter order. */
  method CheckFilters(errors: seq<string>, errorCodes: seq<string>, ghost added: seq<Violation>, filters: seq<Filter>)
    returns (errors': seq<string>, errorCodes': seq<string>, ghost added': seq<Violation>)
    requires Records(errors, errorCodes, added)
    ensures added' == added + FilterViolations(filters)
    ensures Records(errors', errorCodes', added')
  {
    errors', errorCodes', added' := errors, errorCodes, added;
    assert added + FilterViolations(filters[..0]) == added;
    for idx := 0 to |filters|
      invariant added' == added + FilterViolations(filters[..idx])
      invariant Records(errors', errorCodes', added')
    {
      FilterViolationsSnoc(filters, idx);
      errors', errorCodes', added' := CheckFilter(errors', errorCodes', added', idx, filters[idx]);
    }
    assert filters[..|filters|] == filters;
  }

  lemma Regroup(a: seq<Violation>, b: seq<Violation>, c: seq<Violation>, d: seq<Violation>, e: seq<Violation>)
    ensures a + b + c + d + e == a + (b + c + d + e)
  {
  }

  /** The references absent from the catalog. */
  method CollectInvalidRefs(plan: Plan, layer: Layer) returns (invalid: seq<string>)
    ensures invalid == InvalidRefs(plan, layer)
  {
    var validMetrics, validDimensions := BuildValidCanonicalSets(layer);
    var invalidFields := CollectInvalidFilterFields(plan.filters, validDimensions);
    invalid := NotIn(plan.metrics, validMetrics) + NotIn(plan.dimensions, validDimensions) + invalidFields;
  }

  /** The catalog rules, in order, after those already recorded. */
  method CheckCatalogRules(errors: seq<string>, errorCodes: seq<string>, ghost added: seq<Violation>, plan: Plan, layer: Layer)
    returns (errors': seq<string>, errorCodes': seq<string>, ghost added': seq<Violation>)
    requires Records(errors, errorCodes, added)
    ensures added' == added + CatalogViolations(plan, layer)
    ensures Records(errors', errorCodes', added')
  {
    var invalid := CollectInvalidRefs(plan, layer);
    errors', errorCodes', added' := AddErrorIf(errors, errorCodes, added, invalid != [], InvalidCanonicalRef, InvalidRefMessage(invalid));
    assert added' == added + InvalidRefRule(plan, layer);

    var first := FirstDataset(plan);
    errors', errorCodes', added' := AddErrorIf(errors', errorCodes', added',
      first != "" && IsMismatched(plan, layer), DatasetMismatch, MismatchMessage);
    assert added' == added + InvalidRefRule(plan, layer) + MismatchRule(plan, layer);

    errors', errorCodes', added' := CheckFilters(errors', errorCodes', added', plan.filters);

    errors', errorCodes', added' := AddErrorIf(errors', errorCodes', added',
      !HasCompilableSelectItem(plan, layer), NoCompilableSelect, NoCompilableMessage);
    assert added' == added + InvalidRefRule(plan, layer) + MismatchRule(plan, layer) + FilterViolations(plan.filters) + CompilableRule(plan, layer);
    Regroup(added, InvalidRefRule(plan, layer), MismatchRule(plan, layer), FilterViolations(plan.filters), CompilableRule(plan, layer));
  }

  /** `validate_semantic_plan`. */
  method ValidateSemanticPlan(plan: Plan, hits: TokenHits, requireTimeFilter: Value, layer: Option<Layer>)
    returns (res: ValidationResult)
    ensures res == Report(Violations(plan, hits, requireTimeFilter, layer))
  {
    var errors: seq<string> := [];
    var errorCodes: seq<string> := [];
    ghost var added: seq<Violation>;

    if hits.blocked != [] {
      errors, errorCodes := AddError(errors, errorCodes, [], BlockedMatch, BlockedMessage);
      return ValidationResult(false, errors, errorCodes);
    }

    errors, errorCodes, added := CheckBaseRules(plan, requireTimeFilter, layer);
    if layer.Some? {
      errors, errorCodes, added := CheckCatalogRules(errors, errorCodes, added, plan, layer.value);
    }
    assert added == Violations(plan, hits, requireTimeFilter, layer);
    res := ValidationResult(|errors| == 0, errors, errorCodes);
  }

  // ---------------------------------------------------------------------
  // Which codes a plan gets

  lemma HasCodeRule(cond: bool, code: string, message: string, c: string)
    ensures HasCode(Rule(cond, code, message), c) <==> cond && c == code
  {
    if cond {
      assert Rule(cond, code, message)[0].code == code;
    }
  }

  /** A `between` filter without exactly two values. */
  predicate BadBetween(f: Filter) {
    f.Filter? && FilterOp(f) == "between" && !IsPairList(f.value)
  }

  /** A comparison without a value, or an `in` without a non-empty list. */
  predicate BadValue(f: Filter) {
    f.Filter? &&
      ((FilterOp(f) in ComparisonOps && f.value == Null) || (FilterOp(f) == "in" && !IsNonEmptyList(f.value)))
  }

  const KnownOps: set<string> := ComparisonOps + {"between", "in", "is null", "is not null"}

  /** Not a mapping, or an operator outside the known ones with no usable
      expression. */
  predicate BadShape(f: Filter) {
    f.NotADict? || (FilterOp(f) !in KnownOps && !HasExpr(f))
  }

  /** Each filter gets at most one code, and which one is decided by the
      three predicates above; the message names its 1-based position. */
  lemma FilterViolationSpec(idx: nat, f: Filter, c: string)
    ensures |FilterViolation(idx, f)| <= 1
    ensures HasCode(FilterViolation(idx, f), c) <==>
      || (c == InvalidFilterBetween && BadBetween(f))
      || (c == InvalidFilterValue && BadValue(f))
      || (c == InvalidFilterShape && BadShape(f))
  {
    var v := FilterViolation(idx, f);
    if v != [] {
      assert HasCode(v, c) <==> v[0].code == c;
    }
    if f.Filter? {
      var op := FilterOp(f);
      if op == "between" {
        assert op !in ComparisonOps && op in KnownOps;
      } else if op in ComparisonOps {
        assert op != "in" && op in KnownOps;
      } else if op == "in" || op == "is null" || op == "is not null" {
        assert op in KnownOps;
      } else {
        assert op !in KnownOps;
      }
    }
  }

  lemma {:induction false} CheckEachCodes(fs: seq<Filter>, check: (nat, Filter) -> seq<Violation>, c: string)
    ensures HasCode(CheckEach(fs, check), c) <==> exists i :: 0 <= i < |fs| && HasCode(check(i, fs[i]), c)
  {
    if HasCode(CheckEach(fs, check), c) {
      var i := CheckEachWitness(fs, check, c);
    }
    forall i | 0 <= i < |fs| && HasCode(check(i, fs[i]), c) ensures HasCode(CheckEach(fs, check), c) {
      CheckEachHas(fs, check, c, i);
    }
  }

  /** A code of the combined result comes from some position. */
  lemma {:induction false} CheckEachWitness(fs: seq<Filter>, check: (nat, Filter) -> seq<Violation>, c: string)
    returns (i: nat)
    requires HasCode(CheckEach(fs, check), c)
    ensures i < |fs| && HasCode(check(i, fs[i]), c)
    decreases |fs|
  {
    var last := |fs| - 1;
    var p := fs[..last];
    HasCodeAppend(CheckEach(p, check), check(last, fs[last]), c);
    if HasCode(CheckEach(p, check), c) {
      i := CheckEachWitness(p, check, c);
      assert fs[i] == p[i];
    } else {
      i := last;
    }
  }

  /** A code of any position is a code of the combined result. */
  lemma {:induction false} CheckEachHas(fs: seq<Filter>, check: (nat, Filter) -> seq<Violation>, c: string, i: nat)
    requires i < |fs| && HasCode(check(i, fs[i]), c)
    ensures HasCode(CheckEach(fs, check), c)
    decreases |fs|
  {
    var last := |fs| - 1;
    var p := fs[..last];
    HasCodeAppend(CheckEach(p, check), check(last, fs[last]), c);
    if i < last {
      assert fs[i] == p[i];
      CheckEachHas(p, check, c, i);
    }
  }

  lemma FilterViolationsCodes(fs: seq<Filter>, c: string)
    ensures HasCode(FilterViolations(fs), c) <==> exists i :: 0 <= i < |fs| && HasCode(FilterViolation(i, fs[i]), c)
  {
    CheckEachCodes(fs, FilterViolation, c);
  }

  /** The filter codes over a whole list: some filter is bad in that way. */
  lemma FilterCodes(fs: seq<Filter>)
    ensures HasCode(FilterViolations(fs), InvalidFilterBetween) <==> SomeFilter(fs, BadBetween)
    ensures HasCode(FilterViolations(fs), InvalidFilterValue) <==> SomeFilter(fs, BadValue)
    ensures HasCode(FilterViolations(fs), InvalidFilterShape) <==> SomeFilter(fs, BadShape)
    ensures forall c :: HasCode(FilterViolations(fs), c) ==> c in {InvalidFilterBetween, InvalidFilterValue, InvalidFilterShape}
  {
    forall c {
      FilterViolationsCodes(fs, c);
    }
    forall i, c | 0 <= i < |fs| {
      FilterViolationSpec(i, fs[i], c);
    }
  }

  /** The filter rules only report the three filter codes. */
  lemma FilterCodesOnly(fs: seq<Filter>, c: string)
    ensures HasCode(FilterViolations(fs), c) ==> c in {InvalidFilterBetween, InvalidFilterValue, InvalidFilterShape}
  {
    FilterCodes(fs);
  }

  lemma BaseCodes(plan: Plan, requireTimeFilter: Value, layer: Option<Layer>, c: string)
    ensures HasCode(BaseViolations(plan, requireTimeFilter, layer), c) <==>
      || (c == TimeFilterRequired && TimeFilterMissing(plan, requireTimeFilter))
      || (c == TimeAxisIncomplete && TimeAxisIsIncomplete(plan.timeAxis))
      || (c == EmptySelection && SelectionEmpty(plan))
      || (c == MultiDatasetNoJoinPath && Unjoinable(plan, layer))
  {
    var a, b, d, e := TimeFilterRule(plan, requireTimeFilter), TimeAxisRule(plan), EmptySelectionRule(plan), JoinPathRule(plan, layer);
    HasCodeAppend(a + b + d, e, c);
    HasCodeAppend(a + b, d, c);
    HasCodeAppend(a, b, c);
    HasCodeRule(TimeFilterMissing(plan, requireTimeFilter), TimeFilterRequired, TimeFilterMessage, c);
    HasCodeRule(TimeAxisIsIncomplete(plan.timeAxis), TimeAxisIncomplete, TimeAxisMessage, c);
    HasCodeRule(SelectionEmpty(plan), EmptySelection, EmptySelectionMessage, c);
    HasCodeRule(Unjoinable(plan, layer), MultiDatasetNoJoinPath, JoinPathMessage(SelectedDatasets(plan, layer)), c);
  }

  lemma CatalogCodes(plan: Plan, layer: Layer, c: string)
    ensures HasCode(CatalogViolations(plan, layer), c) <==>
      || (c == InvalidCanonicalRef && InvalidRefs(plan, layer) != [])
      || (c == DatasetMismatch && IsMismatched(plan, layer))
      || HasCode(FilterViolations(plan.filters), c)
      || (c == NoCompilableSelect && !HasCompilableSelectItem(plan, layer))
  {
    var a, b, d, e := InvalidRefRule(plan, layer), MismatchRule(plan, layer), FilterViolations(plan.filters), CompilableRule(plan, layer);
    HasCodeAppend(a + b + d, e, c);
    HasCodeAppend(a + b, d, c);
    HasCodeAppend(a, b, c);
    var invalid := InvalidRefs(plan, layer);
    HasCodeRule(invalid != [], InvalidCanonicalRef, InvalidRefMessage(invalid), c);
    HasCodeRule(IsMismatched(plan, layer), DatasetMismatch, MismatchMessage, c);
    HasCodeRule(!HasCompilableSelectItem(plan, layer), NoCompilableSelect, NoCompilableMessage, c);
  }

  lemma BaseCodesOnly(plan: Plan, requireTimeFilter: Value, layer: Option<Layer>, c: string)
    ensures HasCode(BaseViolations(plan, requireTimeFilter, layer), c) ==>
      c in {TimeFilterRequired, TimeAxisIncomplete, EmptySelection, MultiDatasetNoJoinPath}
  {
    BaseCodes(plan, requireTimeFilter, layer, c);
  }

  lemma CatalogCodesOnly(plan: Plan, layer: Layer, c: string)
    ensures HasCode(CatalogViolations(plan, layer), c) ==>
      c in {InvalidCanonicalRef, DatasetMismatch, NoCompilableSelect, InvalidFilterBetween, InvalidFilterValue, InvalidFilterShape}
  {
    CatalogCodes(plan, layer, c);
    FilterCodesOnly(plan.filters, c);
  }

  /** A blocked match short-circuits: one error, one code, not ok. */
  lemma BlockedShortCircuit(plan: Plan, hits: TokenHits, requireTimeFilter: Value, layer: Option<Layer>)
    requires hits.blocked != []
    ensures var r := Report(Violations(plan, hits, requireTimeFilter, layer));
      !r.ok && r.errors == [BlockedMessage] && r.errorCodes == [BlockedMatch]
  {
    var vs := Violations(plan, hits, requireTimeFilter, layer);
    assert vs == [Violation(BlockedMatch, BlockedMessage)];
    assert vs[..|vs| - 1] == [];
    assert Messages(vs) == [BlockedMessage];
    assert Codes(vs) == [BlockedMatch];
  }

  lemma ViolationsCode(plan: Plan, hits: TokenHits, requireTimeFilter: Value, layer: Option<Layer>, c: string)
    requires hits.blocked == []
    ensures HasCode(Violations(plan, hits, requireTimeFilter, layer), c) <==>
      HasCode(BaseViolations(plan, requireTimeFilter, layer), c) || (layer.Some? && HasCode(CatalogViolations(plan, layer.value), c))
  {
    if layer.Some? {
      HasCodeAppend(BaseViolations(plan, requireTimeFilter, layer), CatalogViolations(plan, layer.value), c);
    }
  }

  /** Without a blocked match, the reported codes are those of the base
      rules and, with a semantic layer, of the catalog rules. */
  lemma ReportedCode(plan: Plan, hits: TokenHits, requireTimeFilter: Value, layer: Option<Layer>, c: string)
    requires hits.blocked == []
    ensures c in Report(Violations(plan, hits, requireTimeFilter, layer)).errorCodes <==>
      HasCode(BaseViolations(plan, requireTimeFilter, layer), c) || (layer.Some? && HasCode(CatalogViolations(plan, layer.value), c))
  {
    ViolationsCode(plan, hits, requireTimeFilter, layer, c);
  }

  /** The time-filter code is reported exactly when a time filter is required and the plan has none. */
  lemma TimeFilterReported(plan: Plan, hits: TokenHits, requireTimeFilter: Value, layer: Option<Layer>)
    requires hits.blocked == []
    ensures TimeFilterRequired in Report(Violations(plan, hits, requireTimeFilter, layer)).errorCodes <==>
      TimeFilterMissing(plan, requireTimeFilter)
  {
    ReportedCode(plan, hits, requireTimeFilter, layer, TimeFilterRequired);
    BaseCodes(plan, requireTimeFilter, layer, TimeFilterRequired);
    if layer.Some? {
      CatalogCodesOnly(plan, layer.value, TimeFilterRequired);
    }
  }

  /** The time-axis code is reported exactly when the axis is partly filled in. */
  lemma TimeAxisReported(plan: Plan, hits: TokenHits, requireTimeFilter: Value, layer: Option<Layer>)
    requires hits.blocked == []
    ensures TimeAxisIncomplete in Report(Violations(plan, hits, requireTimeFilter, layer)).errorCodes <==>
      TimeAxisIsIncomplete(plan.timeAxis)
  {
    ReportedCode(plan, hits, requireTimeFilter, layer, TimeAxisIncomplete);
    BaseCodes(plan, requireTimeFilter, layer, TimeAxisIncomplete);
    if layer.Some? {
      CatalogCodesOnly(plan, layer.value, TimeAxisIncomplete);
    }
  }

  /** The empty-selection code is reported exactly when the plan selects nothing. */
  lemma EmptySelectionReported(plan: Plan, hits: TokenHits, requireTimeFilter: Value, layer: Option<Layer>)
    requires hits.blocked == []
    ensures EmptySelection in Report(Violations(plan, hits, requireTimeFilter, layer)).errorCodes <==>
      SelectionEmpty(plan)
  {
    ReportedCode(plan, hits, requireTimeFilter, layer, EmptySelection);
    BaseCodes(plan, requireTimeFilter, layer, EmptySelection);
    if layer.Some? {
      CatalogCodesOnly(plan, layer.value, EmptySelection);
    }
  }

  /** The join-path code is reported exactly when several datasets are selected and they share no join entity. */
  lemma JoinPathReported(plan: Plan, hits: TokenHits, requireTimeFilter: Value, layer: Option<Layer>)
    requires hits.blocked == []
    ensures MultiDatasetNoJoinPath in Report(Violations(plan, hits, requireTimeFilter, layer)).errorCodes <==>
      Unjoinable(plan, layer)
  {
    ReportedCode(plan, hits, requireTimeFilter, layer, MultiDatasetNoJoinPath);
    BaseCodes(plan, requireTimeFilter, layer, MultiDatasetNoJoinPath);
    if layer.Some? {
      CatalogCodesOnly(plan, layer.value, MultiDatasetNoJoinPath);
    }
  }

  /** The canonical-reference code is reported exactly when there is a semantic layer and some reference is not in it. */
  lemma InvalidRefReported(plan: Plan, hits: TokenHits, requireTimeFilter: Value, layer: Option<Layer>)
    requires hits.blocked == []
    ensures InvalidCanonicalRef in Report(Violations(plan, hits, requireTimeFilter, layer)).errorCodes <==>
      layer.Some? && InvalidRefs(plan, layer.value) != []
  {
    ReportedCode(plan, hits, requireTimeFilter, layer, InvalidCanonicalRef);
    BaseCodesOnly(plan, requireTimeFilter, layer, InvalidCanonicalRef);
    if layer.Some? {
      CatalogCodes(plan, layer.value, InvalidCanonicalRef);
      FilterCodesOnly(plan.filters, InvalidCanonicalRef);
    }
  }

  /** The mismatch code is reported exactly when there is a semantic layer and the plan mixes datasets. */
  lemma MismatchReported(plan: Plan, hits: TokenHits, requireTimeFilter: Value, layer: Option<Layer>)
    requires hits.blocked == []
    ensures DatasetMismatch in Report(Violations(plan, hits, requireTimeFilter, layer)).errorCodes <==>
      layer.Some? && IsMismatched(plan, layer.value)
  {
    ReportedCode(plan, hits, requireTimeFilter, layer, DatasetMismatch);
    BaseCodesOnly(plan, requireTimeFilter, layer, DatasetMismatch);
    if layer.Some? {
      CatalogCodes(plan, layer.value, DatasetMismatch);
      FilterCodesOnly(plan.filters, DatasetMismatch);
    }
  }

  /** The compilable-select code is reported exactly when there is a semantic layer and no select item compiles. */
  lemma CompilableReported(plan: Plan, hits: TokenHits, requireTimeFilter: Value, layer: Option<Layer>)
    requires hits.blocked == []
    ensures NoCompilableSelect in Report(Violations(plan, hits, requireTimeFilter, layer)).errorCodes <==>
      layer.Some? && !HasCompilableSelectItem(plan, layer.value)
  {
    ReportedCode(plan, hits, requireTimeFilter, layer, NoCompilableSelect);
    BaseCodesOnly(plan, requireTimeFilter, layer, NoCompilableSelect);
    if layer.Some? {
      CatalogCodes(plan, layer.value, NoCompilableSelect);
      FilterCodesOnly(plan.filters, NoCompilableSelect);
    }
  }

  /** The between-filter code is reported exactly when there is a semantic layer and some between filter lacks two values. */
  lemma FilterBetweenReported(plan: Plan, hits: TokenHits, requireTimeFilter: Value, layer: Option<Layer>)
    requires hits.blocked == []
    ensures InvalidFilterBetween in Report(Violations(plan, hits, requireTimeFilter, layer)).errorCodes <==>
      layer.Some? && SomeFilter(plan.filters, BadBetween)
  {
    ReportedCode(plan, hits, requireTimeFilter, layer, InvalidFilterBetween);
    BaseCodesOnly(plan, requireTimeFilter, layer, InvalidFilterBetween);
    if layer.Some? {
      CatalogCodes(plan, layer.value, InvalidFilterBetween);
      FilterCodes(plan.filters);
    }
  }

  /** The filter-value code is reported exactly when there is a semantic layer and some filter lacks its value. */
  lemma FilterValueReported(plan: Plan, hits: TokenHits, requireTimeFilter: Value, layer: Option<Layer>)
    requires hits.blocked == []
    ensures InvalidFilterValue in Report(Violations(plan, hits, requireTimeFilter, layer)).errorCodes <==>
      layer.Some? && SomeFilter(plan.filters, BadValue)
  {
    ReportedCode(plan, hits, requireTimeFilter, layer, InvalidFilterValue);
    BaseCodesOnly(plan, requireTimeFilter, layer, InvalidFilterValue);
    if layer.Some? {
      CatalogCodes(plan, layer.value, InvalidFilterValue);
      FilterCodes(plan.filters);
    }
  }

  /** The filter-shape code is reported exactly when there is a semantic layer and some filter has no usable shape. */
  lemma FilterShapeReported(plan: Plan, hits: TokenHits, requireTimeFilter: Value, layer: Option<Layer>)
    requires hits.blocked == []
    ensures InvalidFilterShape in Report(Violations(plan, hits, requireTimeFilter, layer)).errorCodes <==>
      layer.Some? && SomeFilter(plan.filters, BadShape)
  {
    ReportedCode(plan, hits, requireTimeFilter, layer, InvalidFilterShape);
    BaseCodesOnly(plan, requireTimeFilter, layer, InvalidFilterShape);
    if layer.Some? {
      CatalogCodes(plan, layer.value, InvalidFilterShape);
      FilterCodes(plan.filters);
    }
  }

  /** Without a blocked match, no code outside the ten rule codes is ever
      reported (in particular not BLOCKED_MATCH). */
  lemma OtherCodesNotReported(plan: Plan, hits: TokenHits, requireTimeFilter: Value, layer: Option<Layer>, c: string)
    requires hits.blocked == []
    requires c !in {TimeFilterRequired, TimeAxisIncomplete, EmptySelection, MultiDatasetNoJoinPath,
                    InvalidCanonicalRef, DatasetMismatch, NoCompilableSelect,
                    InvalidFilterBetween, InvalidFilterValue, InvalidFilterShape}
    ensures c !in Report(Violations(plan, hits, requireTimeFilter, layer)).errorCodes
  {
    ReportedCode(plan, hits, requireTimeFilter, layer, c);
    BaseCodesOnly(plan, requireTimeFilter, layer, c);
    if layer.Some? {
      CatalogCodesOnly(plan, layer.value, c);
    }
  }

  /** The filter rules report nothing exactly when no filter is bad. */
  lemma FilterViolationsEmpty(fs: seq<Filter>)
    ensures FilterViolations(fs) == [] <==>
      !SomeFilter(fs, BadBetween) && !SomeFilter(fs, BadValue) && !SomeFilter(fs, BadShape)
  {
    var vs := FilterViolations(fs);
    FilterCodes(fs);
    if vs != [] {
      assert HasCode(vs, vs[0].code);
    }
  }

  /** Without a blocked match, the result is ok exactly when no rule fires. */
  lemma OkSpec(plan: Plan, hits: TokenHits, requireTimeFilter: Value, layer: Option<Layer>)
    requires hits.blocked == []
    ensures Report(Violations(plan, hits, requireTimeFilter, layer)).ok <==>
      && !TimeFilterMissing(plan, requireTimeFilter)
      && !TimeAxisIsIncomplete(plan.timeAxis)
      && !SelectionEmpty(plan)
      && !Unjoinable(plan, layer)
      && (layer.Some? ==>
            && InvalidRefs(plan, layer.value) == []
            && !IsMismatched(plan, layer.value)
            && !SomeFilter(plan.filters, BadBetween)
            && !SomeFilter(plan.filters, BadValue)
            && !SomeFilter(plan.filters, BadShape)
            && HasCompilableSelectItem(plan, layer.value))
  {
    FilterViolationsEmpty(plan.filters);
  }
}
