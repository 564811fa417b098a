/** The plan builder: turns matcher hits and the extracted free-text filters
    and time bounds into a query plan (app/sql_planner.py). */
module SqlPlanner {
  import opened Basics
  import opened Text
  import opened Seqs
  import opened Semantic

  const TimeFilterField := "calendar.biz_date"
  const TimeBoundsSource := "step_b_time_bounds"
  const TextFilterSource := "step_b_filters"
  const RejectReason := "sensitive_or_disallowed"
  const ClarificationQuestion := "請補充要查詢的指標或維度名稱。"

  /** `_unique_keep_order`: a seen-set walk over the input. */
  method UniqueKeepOrder(values: seq<string>) returns (out: seq<string>)
    ensures out == Dedup(values)
  {
    var seen: set<string> := {};
    out := [];
    for i := 0 to |values|
      invariant out == Dedup(values[..i])
      invariant forall x :: x in seen <==> x in out
    {
      assert values[..i + 1][..i] == values[..i];
      assert Keys(out, Id) == out;
      if values[i] !in seen {
        seen := seen + {values[i]};
        out := out + [values[i]];
      }
    }
    assert values[..|values|] == values;
  }

  /** A match that may be selected as `objectType`: right type, `allowed` is
      not `False`, and a non-empty canonical name. */
  predicate Selectable(m: CandidateMatch, objectType: string) {
    m.objectType == objectType && m.allowed != Bool(false) && m.canonicalName != ""
  }

  /** The comprehension feeding `_unique_keep_order` for metrics or dimensions. */
  function SelectableNames(ms: seq<CandidateMatch>, objectType: string): (r: seq<string>)
    ensures forall x :: x in r <==> exists m :: m in ms && Selectable(m, objectType) && m.canonicalName == x
    decreases |ms|
  {
    if ms == [] then []
    else
      var m := ms[|ms| - 1];
      assert ms == ms[..|ms| - 1] + [m];
      SelectableNames(ms[..|ms| - 1], objectType) + (if Selectable(m, objectType) then [m.canonicalName] else [])
  }

  /** The comprehension feeding `_unique_keep_order` for dataset candidates. */
  function MatchDatasets(ms: seq<CandidateMatch>): (r: seq<string>)
    ensures forall x :: x in r <==> exists m :: m in ms && m.dataset != "" && m.dataset == x
    decreases |ms|
  {
    if ms == [] then []
    else
      var m := ms[|ms| - 1];
      assert ms == ms[..|ms| - 1] + [m];
      MatchDatasets(ms[..|ms| - 1]) + (if m.dataset != "" then [m.dataset] else [])
  }

  predicate IsBlankText(v: Value) {
    !v.Str? || Strip(v.s) == ""
  }

  /** Each non-blank free-text filter as `{"expr": stripped, "source": ...}`. */
  function TextFilters(fs: seq<Value>): seq<Filter>
    decreases |fs|
  {
    if fs == [] then []
    else
      var f := fs[|fs| - 1];
      TextFilters(fs[..|fs| - 1]) +
        (if IsBlankText(f) then [] else [Filter(None, "", Null, Some(Strip(f.s)), TextFilterSource)])
  }

  /** `_build_time_filter_from_bounds` (the second, identical definition is
      the one in force). */
  function TimeFilterFromBounds(timeStart: string, timeEnd: string): (r: seq<Filter>)
    ensures |r| <= 1
    ensures |r| == 1 <==> Strip(timeStart) != "" && Strip(timeEnd) != ""
    ensures |r| == 1 ==>
      && r[0].Filter? && r[0].field == Some(TimeFilterField) && r[0].op == "between"
      && r[0].value == List([Str(Strip(timeStart)), Str(Strip(timeEnd))])
  {
    var start := Strip(timeStart);
    var end := Strip(timeEnd);
    if start == "" || end == "" then []
    else [Filter(Some(TimeFilterField), "between", List([Str(start), Str(end)]), None, TimeBoundsSource)]
  }

  function RejectedCandidates(blocked: seq<CandidateMatch>): seq<Rejected>
    decreases |blocked|
  {
    if blocked == [] then []
    else
      var b := blocked[|blocked| - 1];
      RejectedCandidates(blocked[..|blocked| - 1]) +
        (if b.canonicalName != "" then [Rejected(b.canonicalName, RejectReason)] else [])
  }

  function Confidence(metrics: seq<string>, dimensions: seq<string>, matches: seq<CandidateMatch>): real {
    if metrics != [] || dimensions != [] then 0.8
    else if matches != [] then 0.4
    else 0.0
  }

  /** What `build_semantic_plan` returns. */
  function SemanticPlan(features: Features, hits: TokenHits): Plan {
    var metrics := Dedup(SelectableNames(hits.matches, "metric"));
    var dimensions := Dedup(SelectableNames(hits.matches, "dimension"));
    var needsClarification := metrics == [] && dimensions == [];
    Plan(
      metrics,
      dimensions,
      TextFilters(features.filters)
        + TimeFilterFromBounds(StrOrEmpty(features.timeStart), StrOrEmpty(features.timeEnd)),
      Dedup(MatchDatasets(hits.matches)),
      RejectedCandidates(hits.blocked),
      needsClarification,
      if needsClarification then [ClarificationQuestion] else [],
      Confidence(metrics, dimensions, hits.matches),
      NoTimeAxis)
  }

  /** `build_semantic_plan`. */
  method BuildSemanticPlan(features: Features, hits: TokenHits) returns (plan: Plan)
    ensures plan == SemanticPlan(features, hits)
  {
    var metrics := UniqueKeepOrder(SelectableNames(hits.matches, "metric"));
    var dimensions := UniqueKeepOrder(SelectableNames(hits.matches, "dimension"));
    var datasets := UniqueKeepOrder(MatchDatasets(hits.matches));

    var filters: seq<Filter> := [];
    for i := 0 to |features.filters|
      invariant filters == TextFilters(features.filters[..i])
    {
      assert features.filters[..i + 1][..i] == features.filters[..i];
      var f := features.filters[i];
      if f.Str? && Strip(f.s) != "" {
        filters := filters + [Filter(None, "", Null, Some(Strip(f.s)), TextFilterSource)];
      }
    }
    assert features.filters[..|features.filters|] == features.filters;
    filters := filters + TimeFilterFromBounds(StrOrEmpty(features.timeStart), StrOrEmpty(features.timeEnd));

    var needsClarification := metrics == [] && dimensions == [];
    var questions: seq<string> := [];
    if needsClarification {
      questions := questions + [ClarificationQuestion];
    }
    var confidence := 0.0;
    if metrics != [] || dimensions != [] {
      confidence := 0.8;
    } else if hits.matches != [] {
      confidence := 0.4;
    }
    plan := Plan(metrics, dimensions, filters, datasets, RejectedCandidates(hits.blocked),
                 needsClarification, questions, confidence, NoTimeAxis);
  }

  /** The selected metrics are exactly the canonical names of the selectable
      metric matches, each once, in order of first appearance; likewise the
      dimensions. Nothing outside the matches can be selected. */
  lemma PlanSelections(features: Features, hits: TokenHits)
    ensures var plan := SemanticPlan(features, hits);
      && (forall x :: x in plan.metrics <==>
            exists m :: m in hits.matches && Selectable(m, "metric") && m.canonicalName == x)
      && (forall x :: x in plan.dimensions <==>
            exists m :: m in hits.matches && Selectable(m, "dimension") && m.canonicalName == x)
      && (forall i, j :: 0 <= i < j < |plan.metrics| ==> plan.metrics[i] != plan.metrics[j])
      && (forall i, j :: 0 <= i < j < |plan.dimensions| ==> plan.dimensions[i] != plan.dimensions[j])
  {
    DedupSpec(SelectableNames(hits.matches, "metric"));
    DedupSpec(SelectableNames(hits.matches, "dimension"));
  }

  /** Dataset candidates come from every match with a dataset, whatever its
      type or `allowed` flag, each once. */
  lemma PlanDatasets(features: Features, hits: TokenHits)
    ensures var plan := SemanticPlan(features, hits);
      && (forall x :: x in plan.datasets <==> exists m :: m in hits.matches && m.dataset != "" && m.dataset == x)
      && (forall i, j :: 0 <= i < j < |plan.datasets| ==> plan.datasets[i] != plan.datasets[j])
  {
    DedupSpec(MatchDatasets(hits.matches));
  }

  function CountNonBlank(fs: seq<Value>): nat {
    if fs == [] then 0 else CountNonBlank(fs[..|fs| - 1]) + (if IsBlankText(fs[|fs| - 1]) then 0 else 1)
  }

  /** The free-text filters that survive: the non-blank strings, in input
      order. */
  function NonBlankTexts(fs: seq<Value>): seq<Value> {
    Seqs.Filter(v => !IsBlankText(v), fs)
  }

  /** Free-text filters become raw-expression filters, one per non-blank
      string, in input order, each holding that string stripped, tagged with
      its source and carrying no field. */
  lemma TextFiltersShape(fs: seq<Value>)
    ensures |TextFilters(fs)| == CountNonBlank(fs) == |NonBlankTexts(fs)|
    ensures forall i :: 0 <= i < |TextFilters(fs)| ==>
      NonBlankTexts(fs)[i].Str? && TextFilters(fs)[i].Filter? && TextFilters(fs)[i].expr == Some(Strip(NonBlankTexts(fs)[i].s))
    ensures forall f :: f in TextFilters(fs) ==>
      f.Filter? && f.field.None? && f.expr.Some? && f.expr.value != "" && IsStripped(f.expr.value)
      && f.source == TextFilterSource
  {
    TextFiltersCount(fs);
    TextFiltersExprs(fs);
    TextFiltersForm(fs);
  }

  lemma {:induction false} TextFiltersCount(fs: seq<Value>)
    ensures |TextFilters(fs)| == CountNonBlank(fs) == |NonBlankTexts(fs)|
    decreases |fs|
  {
    if fs != [] {
      var pre, f := fs[..|fs| - 1], fs[|fs| - 1];
      TextFiltersCount(pre);
      assert fs == pre + [f];
      FilterSnoc(v => !IsBlankText(v), pre, f);
    }
  }

  lemma {:induction false} TextFiltersExprs(fs: seq<Value>)
    ensures |TextFilters(fs)| == |NonBlankTexts(fs)|
    ensures forall i :: 0 <= i < |TextFilters(fs)| ==>
      NonBlankTexts(fs)[i].Str? && TextFilters(fs)[i].Filter? && TextFilters(fs)[i].expr == Some(Strip(NonBlankTexts(fs)[i].s))
    decreases |fs|
  {
    if fs != [] {
      var pre, f := fs[..|fs| - 1], fs[|fs| - 1];
      TextFiltersExprs(pre);
      assert fs == pre + [f];
      FilterSnoc(v => !IsBlankText(v), pre, f);
      var texts, filters := NonBlankTexts(pre), TextFilters(pre);
      if IsBlankText(f) {
        assert NonBlankTexts(fs) == texts && TextFilters(fs) == filters;
      } else {
        var g := Filter(None, "", Null, Some(Strip(f.s)), TextFilterSource);
        assert NonBlankTexts(fs) == texts + [f] && TextFilters(fs) == filters + [g];
        forall i | 0 <= i < |filters| + 1
          ensures (texts + [f])[i].Str? && (filters + [g])[i].Filter? && (filters + [g])[i].expr == Some(Strip((texts + [f])[i].s))
        {
          if i < |filters| {
            assert (texts + [f])[i] == texts[i] && (filters + [g])[i] == filters[i];
          }
        }
      }
    }
  }

  lemma {:induction false} TextFiltersForm(fs: seq<Value>)
    ensures forall f :: f in TextFilters(fs) ==>
      f.Filter? && f.field.None? && f.expr.Some? && f.expr.value != "" && IsStripped(f.expr.value)
      && f.source == TextFilterSource
    decreases |fs|
  {
    if fs != [] {
      var pre, f := fs[..|fs| - 1], fs[|fs| - 1];
      TextFiltersForm(pre);
      if !IsBlankText(f) {
        StripSpec(f.s);
      }
    }
  }


  /** The plan carries the text filters, then exactly one `between` filter on
      `calendar.biz_date` when both bounds are non-blank, and none otherwise. */
  lemma PlanFilters(features: Features, hits: TokenHits)
    ensures var plan := SemanticPlan(features, hits);
      var start := Strip(StrOrEmpty(features.timeStart));
      var end := Strip(StrOrEmpty(features.timeEnd));
      var n := CountNonBlank(features.filters);
      && |plan.filters| == n + (if start != "" && end != "" then 1 else 0)
      && (forall i :: 0 <= i < n ==> plan.filters[i].Filter? && plan.filters[i].field.None?)
      && |NonBlankTexts(features.filters)| == n
      && (forall i :: 0 <= i < n ==>
            NonBlankTexts(features.filters)[i].Str? && plan.filters[i].expr == Some(Strip(NonBlankTexts(features.filters)[i].s)))
      && (start != "" && end != "" ==>
            plan.filters[n] == Filter(Some(TimeFilterField), "between", List([Str(start), Str(end)]), None, TimeBoundsSource))
  {
    TextFiltersShape(features.filters);
    var plan := SemanticPlan(features, hits);
    var tf := TextFilters(features.filters);
    forall i | 0 <= i < CountNonBlank(features.filters)
      ensures plan.filters[i].Filter? && plan.filters[i].field.None?
    {
      assert plan.filters[i] == tf[i];
      assert tf[i] in tf;
    }
  }

  /** Clarification is needed exactly when nothing was selected, with exactly
      one question then; confidence is 0.8 with a selection, else 0.4 with any
      match, and 0.0 only when there were no matches at all. */
  lemma PlanClarificationAndConfidence(features: Features, hits: TokenHits)
    ensures var plan := SemanticPlan(features, hits);
      && (plan.needsClarification <==> plan.metrics == [] && plan.dimensions == [])
      && |plan.questions| == (if plan.needsClarification then 1 else 0)
      && (plan.confidence == 0.8 <==> !plan.needsClarification)
      && (plan.confidence == 0.0 <==> hits.matches == [])
  {
    var plan := SemanticPlan(features, hits);
    PlanSelections(features, hits);
    if hits.matches == [] {
      assert SelectableNames(hits.matches, "metric") == [];
      assert SelectableNames(hits.matches, "dimension") == [];
    }
  }

  /** Every blocked match with a canonical name is rejected, in order, with
      the fixed reason; blocked matches without one are dropped. */
  lemma {:induction false} RejectedShape(blocked: seq<CandidateMatch>)
    ensures forall r :: r in RejectedCandidates(blocked) ==>
      r.reason == RejectReason && r.canonicalName != ""
      && exists b :: b in blocked && b.canonicalName == r.canonicalName
    ensures forall b :: b in blocked && b.canonicalName != "" ==>
      Rejected(b.canonicalName, RejectReason) in RejectedCandidates(blocked)
    decreases |blocked|
  {
    if blocked != [] {
      var prefix := blocked[..|blocked| - 1];
      RejectedShape(prefix);
      assert blocked == prefix + [blocked[|blocked| - 1]];
    }
  }
}
