/** The semantic token matcher (app/token_matcher.py): alias indices built
    once from a parsed semantic layer, then used to resolve extracted metric,
    dimension and filter strings to catalog expressions. The layer arrives as
    a value; reading and parsing the YAML file is not part of this model. */
module TokenMatcher {
  import opened Basics
  import opened Text
  import opened Seqs
  import opened Semantic

  /** `_normalize`: strip, then lowercase. */
  function Normalize(t: string): string {
    Lower(Strip(t))
  }

  /** Normalizing twice is normalizing once, and the result has no
      surrounding whitespace. */
  lemma NormalizeIdempotent(t: string)
    ensures Normalize(Normalize(t)) == Normalize(t)
    ensures IsStripped(Normalize(t))
    ensures Normalize(t) == [] <==> AllSpace(t)
  {
    StripSpec(t);
    StripSpec(Lower(Strip(t)));
    StripLowerCommute(Strip(t));
    StripIdempotent(t);
    LowerIdempotent(Strip(t));
    StripLowerCommute(t);
  }

  /** A non-blank string candidate for an alias. */
  predicate IsAliasText(v: Value) {
    v.Str? && Strip(v.s) != ""
  }

  /** What `_collect_aliases` looks at, in order: name, synonyms, then expr
      when it is a non-empty string. */
  function AliasCandidates(item: Item): seq<Value> {
    [Str(item.name)] + item.synonyms + (if item.expr != "" then [Str(item.expr)] else [])
  }

  function NormalizedAliases(vs: seq<Value>): seq<string>
    decreases |vs|
  {
    if vs == [] then []
    else
      var v := vs[|vs| - 1];
      NormalizedAliases(vs[..|vs| - 1]) + (if IsAliasText(v) then [Normalize(v.s)] else [])
  }

  /** `_collect_aliases`. */
  function CollectAliases(item: Item): seq<string> {
    NormalizedAliases(AliasCandidates(item))
  }

  /** A non-blank string normalizes to a non-empty, normalized alias. */
  lemma AliasTextNormalizes(s: string)
    requires Strip(s) != ""
    ensures Normalize(s) != "" && Normalize(Normalize(s)) == Normalize(s)
  {
    NormalizeIdempotent(s);
    assert |Normalize(s)| == |Strip(s)|;
  }

  lemma {:induction false} NormalizedAliasesClean(vs: seq<Value>)
    ensures |NormalizedAliases(vs)| <= |vs|
    ensures forall a :: a in NormalizedAliases(vs) ==> a != "" && Normalize(a) == a
    decreases |vs|
  {
    if vs != [] {
      var v := vs[|vs| - 1];
      NormalizedAliasesClean(vs[..|vs| - 1]);
      if IsAliasText(v) {
        AliasTextNormalizes(v.s);
      }
    }
  }

  lemma {:induction false} NormalizedAliasesMembers(vs: seq<Value>)
    ensures forall a :: a in NormalizedAliases(vs) ==>
      exists v :: v in vs && IsAliasText(v) && Normalize(v.s) == a
    ensures forall v :: v in vs && IsAliasText(v) ==> Normalize(v.s) in NormalizedAliases(vs)
    decreases |vs|
  {
    if vs != [] {
      var p := vs[..|vs| - 1];
      var last := vs[|vs| - 1];
      var r := NormalizedAliases(vs);
      NormalizedAliasesMembers(p);
      assert vs == p + [last];
      forall a | a in r
        ensures exists v :: v in vs && IsAliasText(v) && Normalize(v.s) == a
      {
        if a !in NormalizedAliases(p) {
          assert IsAliasText(last) && a == Normalize(last.s);
        }
      }
      forall v | v in vs && IsAliasText(v)
        ensures Normalize(v.s) in r
      {
        if v != last {
          assert v in p;
        }
      }
    }
  }

  lemma {:induction false} NormalizedAliasesFirst(vs: seq<Value>)
    requires |vs| > 0 && IsAliasText(vs[0])
    ensures |NormalizedAliases(vs)| > 0 && NormalizedAliases(vs)[0] == Normalize(vs[0].s)
    decreases |vs|
  {
    if |vs| > 1 {
      var p := vs[..|vs| - 1];
      assert p[0] == vs[0];
      NormalizedAliasesFirst(p);
    }
  }

  /** Every alias is normalized and non-empty; the aliases are exactly the
      normalized non-blank string candidates (non-strings and blanks are
      dropped), and a non-blank name comes first. */
  lemma CollectAliasesSpec(item: Item)
    ensures |CollectAliases(item)| <= 2 + |item.synonyms|
    ensures forall a :: a in CollectAliases(item) ==> a != "" && Normalize(a) == a
    ensures forall a :: a in CollectAliases(item) ==>
      exists v :: v in AliasCandidates(item) && IsAliasText(v) && Normalize(v.s) == a
    ensures forall v :: v in AliasCandidates(item) && IsAliasText(v) ==> Normalize(v.s) in CollectAliases(item)
    ensures Strip(item.name) != "" ==>
      |CollectAliases(item)| > 0 && CollectAliases(item)[0] == Normalize(item.name)
  {
    var vs := AliasCandidates(item);
    NormalizedAliasesClean(vs);
    NormalizedAliasesMembers(vs);
    if Strip(item.name) != "" {
      assert vs[0] == Str(item.name);
      NormalizedAliasesFirst(vs);
    }
  }

  // ---------------------------------------------------------------------
  // dict.setdefault over a sequence of (key, value) registrations

  function Fst<V>(p: (string, V)): string {
    p.0
  }

  /** Registers each pair with `setdefault`, in order. */
  function SetDefaults<V>(m: map<string, V>, ps: seq<(string, V)>): map<string, V>
    decreases |ps|
  {
    if ps == [] then m
    else
      var m' := SetDefaults(m, ps[..|ps| - 1]);
      var p := ps[|ps| - 1];
      if p.0 in m' then m' else m'[p.0 := p.1]
  }

  /** The first registration of a key wins: a key is present iff some pair
      registers it, and its value is the one of its first pair. */
  lemma SetDefaultsFirstWins<V>(ps: seq<(string, V)>)
    ensures forall k :: k in SetDefaults(map[], ps) <==> k in Keys(ps, Fst)
    ensures forall k :: k in Keys(ps, Fst) ==> SetDefaults(map[], ps)[k] == ps[FirstIndex(ps, Fst, k)].1
  {
    SetDefaultsDomain(ps);
    SetDefaultsValues(ps);
  }

  lemma {:induction false} SetDefaultsDomain<V>(ps: seq<(string, V)>)
    ensures forall k :: k in SetDefaults(map[], ps) <==> k in Keys(ps, Fst)
    decreases |ps|
  {
    if ps != [] {
      var n := |ps| - 1;
      SetDefaultsDomain(ps[..n]);
      assert Keys(ps, Fst) == Keys(ps[..n], Fst) + [ps[n].0];
    }
  }

  lemma {:induction false} SetDefaultsValues<V>(ps: seq<(string, V)>)
    ensures forall k :: k in Keys(ps, Fst) ==> k in SetDefaults(map[], ps) && SetDefaults(map[], ps)[k] == ps[FirstIndex(ps, Fst, k)].1
    decreases |ps|
  {
    if ps != [] {
      var n := |ps| - 1;
      var p := ps[..n];
      SetDefaultsValues(p);
      SetDefaultsDomain(p);
      var m := SetDefaults(map[], p);
      assert SetDefaults(map[], ps) == if ps[n].0 in m then m else m[ps[n].0 := ps[n].1];
      assert Keys(ps, Fst) == Keys(p, Fst) + [ps[n].0];
      forall k | k in Keys(ps, Fst)
        ensures k in SetDefaults(map[], ps) && SetDefaults(map[], ps)[k] == ps[FirstIndex(ps, Fst, k)].1
      {
        if k in Keys(p, Fst) {
          FirstIndexOfPrefix(ps, n, Fst, k);
        } else {
          assert k == ps[n].0 && k !in m;
          assert FirstIndex(ps, Fst, k) == n;
        }
      }
    }
  }

  /** Registering more pairs never changes an existing key. */
  lemma {:induction false} SetDefaultsKeeps<V>(m: map<string, V>, ps: seq<(string, V)>)
    ensures forall k :: k in m ==> k in SetDefaults(m, ps) && SetDefaults(m, ps)[k] == m[k]
    decreases |ps|
  {
    if ps != [] {
      SetDefaultsKeeps(m, ps[..|ps| - 1]);
    }
  }

  lemma {:induction false} SetDefaultsAppend<V>(m: map<string, V>, a: seq<(string, V)>, b: seq<(string, V)>)
    ensures SetDefaults(m, a + b) == SetDefaults(SetDefaults(m, a), b)
    decreases |b|
  {
    if b == [] {
      assert a + b == a;
    } else {
      assert (a + b)[..|a + b| - 1] == a + b[..|b| - 1];
      SetDefaultsAppend(m, a, b[..|b| - 1]);
    }
  }

  // ---------------------------------------------------------------------
  // Entries and index payloads

  /** `SemanticEntry`; "" stands for `None` in `dataset`, `entity`, `table`. */
  datatype Entry = Entry(
    objectType: string,
    canonicalName: string,
    aliases: seq<string>,
    dataset: string,
    entity: string,
    table: string,
    allowed: bool)

  datatype MetricPayload = MetricPayload(dataset: string, name: string, agg: string, expr: string)

  datatype DimPayload = DimPayload(name: string, expr: string)

  /** One entry per item, in item order. */
  function ItemEntries(objectType: string, owner: string, dataset: string, entity: string, table: string,
                       sensitive: bool, items: seq<Item>): seq<Entry>
    decreases |items|
  {
    if items == [] then []
    else
      var it := items[|items| - 1];
      ItemEntries(objectType, owner, dataset, entity, table, sensitive, items[..|items| - 1])
        + [Entry(objectType, owner + "." + it.name, CollectAliases(it), dataset, entity, table,
                 if sensitive then it.allowed else true)]
  }

  function EntitiesEntries(es: seq<Entity>): seq<Entry>
    decreases |es|
  {
    if es == [] then []
    else
      var e := es[|es| - 1];
      EntitiesEntries(es[..|es| - 1])
        + ItemEntries("field", e.name, "", e.name, e.table, false, e.fields)
        + ItemEntries("sensitive_field", e.name, "", e.name, e.table, true, e.sensitiveFields)
  }

  function DatasetsEntries(ds: seq<Dataset>): seq<Entry>
    decreases |ds|
  {
    if ds == [] then []
    else
      var d := ds[|ds| - 1];
      DatasetsEntries(ds[..|ds| - 1])
        + ItemEntries("time_dimension", d.name, d.name, "", "", false, d.timeDimensions)
        + ItemEntries("metric", d.name, d.name, "", "", false, d.metrics)
        + ItemEntries("dimension", d.name, d.name, "", "", false, d.dimensions)
  }

  /** The `entries` list: entity fields and sensitive fields, then dataset
      time dimensions, metrics and dimensions. */
  function Entries(layer: Layer): seq<Entry> {
    EntitiesEntries(layer.entities) + DatasetsEntries(layer.datasets)
  }

  function AliasPairs<V>(aliases: seq<string>, payload: V): (r: seq<(string, V)>)
    ensures |r| == |aliases|
    ensures forall i :: 0 <= i < |aliases| ==> r[i] == (aliases[i], payload)
  {
    seq(|aliases|, i requires 0 <= i < |aliases| => (aliases[i], payload))
  }

  /** A field or dimension is indexed only when both name and expr are non-empty. */
  predicate DimAdmitted(it: Item) {
    it.name != "" && it.expr != ""
  }

  function ItemDimPairs(items: seq<Item>): seq<(string, DimPayload)>
    decreases |items|
  {
    if items == [] then []
    else
      var it := items[|items| - 1];
      ItemDimPairs(items[..|items| - 1])
        + (if DimAdmitted(it) then AliasPairs(CollectAliases(it), DimPayload(it.name, it.expr)) else [])
  }

  function EntitiesDimPairs(es: seq<Entity>): seq<(string, DimPayload)>
    decreases |es|
  {
    if es == [] then [] else EntitiesDimPairs(es[..|es| - 1]) + ItemDimPairs(es[|es| - 1].fields)
  }

  function DatasetsDimPairs(ds: seq<Dataset>): seq<(string, DimPayload)>
    decreases |ds|
  {
    if ds == [] then [] else DatasetsDimPairs(ds[..|ds| - 1]) + ItemDimPairs(ds[|ds| - 1].dimensions)
  }

  /** Every dimension registration, entity fields before dataset dimensions. */
  function DimPairs(layer: Layer): seq<(string, DimPayload)> {
    EntitiesDimPairs(layer.entities) + DatasetsDimPairs(layer.datasets)
  }

  /** The filter index registers `{"expr": ...}` under the same aliases. */
  function FilterPairs(ps: seq<(string, DimPayload)>): (r: seq<(string, string)>)
    ensures |r| == |ps|
    ensures forall i :: 0 <= i < |ps| ==> r[i] == (ps[i].0, ps[i].1.expr)
  {
    seq(|ps|, i requires 0 <= i < |ps| => (ps[i].0, ps[i].1.expr))
  }

  /** A metric is indexed only when name, type, expr and dataset are all non-empty. */
  predicate MetricAdmitted(datasetName: string, m: Item) {
    m.name != "" && m.aggType != "" && m.expr != "" && datasetName != ""
  }

  function MetricPairsOf(datasetName: string, metrics: seq<Item>): seq<(string, MetricPayload)>
    decreases |metrics|
  {
    if metrics == [] then []
    else
      var m := metrics[|metrics| - 1];
      MetricPairsOf(datasetName, metrics[..|metrics| - 1])
        + (if MetricAdmitted(datasetName, m)
           then AliasPairs(CollectAliases(m), MetricPayload(datasetName, m.name, m.aggType, m.expr))
           else [])
  }

  function MetricPairs(ds: seq<Dataset>): seq<(string, MetricPayload)>
    decreases |ds|
  {
    if ds == [] then [] else MetricPairs(ds[..|ds| - 1]) + MetricPairsOf(ds[|ds| - 1].name, ds[|ds| - 1].metrics)
  }

  function TimePairsOf(datasetName: string, times: seq<Item>): seq<(string, string)>
    decreases |times|
  {
    if times == [] then []
    else
      var t := times[|times| - 1];
      TimePairsOf(datasetName, times[..|times| - 1])
        + (if datasetName != "" && t.expr != "" then [(datasetName, t.expr)] else [])
  }

  function TimePairs(ds: seq<Dataset>): seq<(string, string)>
    decreases |ds|
  {
    if ds == [] then [] else TimePairs(ds[..|ds| - 1]) + TimePairsOf(ds[|ds| - 1].name, ds[|ds| - 1].timeDimensions)
  }

  function MetricIndex(layer: Layer): map<string, MetricPayload> {
    SetDefaults(map[], MetricPairs(layer.datasets))
  }

  function DimensionIndex(layer: Layer): map<string, DimPayload> {
    SetDefaults(map[], DimPairs(layer))
  }

  function FilterFieldIndex(layer: Layer): map<string, string> {
    SetDefaults(map[], FilterPairs(DimPairs(layer)))
  }

  function TimeIndex(layer: Layer): map<string, string> {
    SetDefaults(map[], TimePairs(layer.datasets))
  }

  // ---------------------------------------------------------------------
  // What the indices hold

  lemma PairKeyInIndex<V>(ps: seq<(string, V)>, k: string, v: V)
    requires (k, v) in ps
    ensures k in SetDefaults(map[], ps)
  {
    SetDefaultsFirstWins(ps);
    var i :| 0 <= i < |ps| && ps[i] == (k, v);
    assert Keys(ps, Fst)[i] == k;
  }

  lemma IndexValueInPairs<V>(ps: seq<(string, V)>, k: string)
    requires k in SetDefaults(map[], ps)
    ensures (k, SetDefaults(map[], ps)[k]) in ps
  {
    SetDefaultsFirstWins(ps);
    var i := FirstIndex(ps, Fst, k);
    assert ps[i] == (k, SetDefaults(map[], ps)[k]);
  }

  lemma AliasPairsHas<V>(aliases: seq<string>, payload: V, a: string)
    requires a in aliases
    ensures (a, payload) in AliasPairs(aliases, payload)
  {
    var k :| 0 <= k < |aliases| && aliases[k] == a;
    assert AliasPairs(aliases, payload)[k] == (a, payload);
  }

  /** `a` is an alias of metric `j` of dataset `i`, and that metric is admitted. */
  predicate IsMetricAlias(ds: seq<Dataset>, i: int, j: int, a: string) {
    0 <= i < |ds| && 0 <= j < |ds[i].metrics| && MetricAdmitted(ds[i].name, ds[i].metrics[j])
    && a in CollectAliases(ds[i].metrics[j])
  }

  /** `a` is an alias of field `j` of entity `i`, and that field is admitted. */
  predicate IsFieldAlias(es: seq<Entity>, i: int, j: int, a: string) {
    0 <= i < |es| && 0 <= j < |es[i].fields| && DimAdmitted(es[i].fields[j])
    && a in CollectAliases(es[i].fields[j])
  }

  /** `a` is an alias of dimension `j` of dataset `i`, and that dimension is admitted. */
  predicate IsDimensionAlias(ds: seq<Dataset>, i: int, j: int, a: string) {
    0 <= i < |ds| && 0 <= j < |ds[i].dimensions| && DimAdmitted(ds[i].dimensions[j])
    && a in CollectAliases(ds[i].dimensions[j])
  }

  lemma {:induction false} MetricPairsOfShape(n: string, ms: seq<Item>)
    ensures forall p :: p in MetricPairsOf(n, ms) ==>
      p.1.dataset == n && n != "" && p.1.name != "" && p.1.agg != "" && p.1.expr != ""
    decreases |ms|
  {
    if ms != [] {
      var last := |ms| - 1;
      var m := ms[last];
      MetricPairsOfShape(n, ms[..last]);
      if MetricAdmitted(n, m) {
        var payload := MetricPayload(n, m.name, m.aggType, m.expr);
        forall p | p in AliasPairs(CollectAliases(m), payload) ensures p.1 == payload {
        }
      }
    }
  }

  lemma {:induction false} MetricPairsOfCover(n: string, ms: seq<Item>)
    ensures forall j, a :: 0 <= j < |ms| && MetricAdmitted(n, ms[j]) && a in CollectAliases(ms[j]) ==>
      (a, MetricPayload(n, ms[j].name, ms[j].aggType, ms[j].expr)) in MetricPairsOf(n, ms)
    decreases |ms|
  {
    if ms != [] {
      var last := |ms| - 1;
      var prev := MetricPairsOf(n, ms[..last]);
      var m := ms[last];
      var payload := MetricPayload(n, m.name, m.aggType, m.expr);
      var mine := if MetricAdmitted(n, m) then AliasPairs(CollectAliases(m), payload) else [];
      assert MetricPairsOf(n, ms) == prev + mine;
      MetricPairsOfCover(n, ms[..last]);
      forall j, a | 0 <= j < |ms| && MetricAdmitted(n, ms[j]) && a in CollectAliases(ms[j])
        ensures (a, MetricPayload(n, ms[j].name, ms[j].aggType, ms[j].expr)) in prev + mine
      {
        if j < last {
          assert ms[..last][j] == ms[j];
          assert (a, MetricPayload(n, ms[j].name, ms[j].aggType, ms[j].expr)) in prev;
        } else {
          AliasPairsHas(CollectAliases(m), payload, a);
        }
      }
    }
  }

  lemma MetricPairsSpec(ds: seq<Dataset>)
    ensures forall p :: p in MetricPairs(ds) ==>
      p.1.name != "" && p.1.agg != "" && p.1.expr != "" && p.1.dataset != ""
      && exists i :: 0 <= i < |ds| && ds[i].name == p.1.dataset
    ensures forall i, j, a :: IsMetricAlias(ds, i, j, a) ==> a in Keys(MetricPairs(ds), Fst)
  {
    MetricPairsPayloads(ds);
    MetricPairsCover(ds);
  }

  lemma {:induction false} MetricPairsPayloads(ds: seq<Dataset>)
    ensures forall p :: p in MetricPairs(ds) ==>
      p.1.name != "" && p.1.agg != "" && p.1.expr != "" && p.1.dataset != ""
      && exists i :: 0 <= i < |ds| && ds[i].name == p.1.dataset
    decreases |ds|
  {
    if ds != [] {
      var last := |ds| - 1;
      var prev := MetricPairs(ds[..last]);
      var mine := MetricPairsOf(ds[last].name, ds[last].metrics);
      MetricPairsPayloads(ds[..last]);
      MetricPairsOfShape(ds[last].name, ds[last].metrics);
      assert MetricPairs(ds) == prev + mine;
      forall p: (string, MetricPayload) | p in prev + mine
        ensures p.1.name != "" && p.1.agg != "" && p.1.expr != "" && p.1.dataset != ""
        ensures exists i :: 0 <= i < |ds| && ds[i].name == p.1.dataset
      {
        if p in prev {
          var i :| 0 <= i < last && ds[..last][i].name == p.1.dataset;
          assert ds[i].name == p.1.dataset;
        } else {
          assert ds[last].name == p.1.dataset;
        }
      }
    }
  }

  lemma {:induction false} MetricPairsCover(ds: seq<Dataset>)
    ensures forall i, j, a :: IsMetricAlias(ds, i, j, a) ==> a in Keys(MetricPairs(ds), Fst)
    decreases |ds|
  {
    if ds != [] {
      var last := |ds| - 1;
      var prev := MetricPairs(ds[..last]);
      var mine := MetricPairsOf(ds[last].name, ds[last].metrics);
      MetricPairsCover(ds[..last]);
      MetricPairsOfCover(ds[last].name, ds[last].metrics);
      assert MetricPairs(ds) == prev + mine;
      assert Keys(MetricPairs(ds), Fst) == Keys(prev, Fst) + Keys(mine, Fst);
      forall i, j, a | IsMetricAlias(ds, i, j, a)
        ensures a in Keys(prev, Fst) + Keys(mine, Fst)
      {
        if i < last {
          assert ds[..last][i] == ds[i];
          assert IsMetricAlias(ds[..last], i, j, a);
          assert a in Keys(prev, Fst);
        } else {
          var payload := MetricPayload(ds[i].name, ds[i].metrics[j].name, ds[i].metrics[j].aggType, ds[i].metrics[j].expr);
          var k :| 0 <= k < |mine| && mine[k] == (a, payload);
          assert Keys(mine, Fst)[k] == a;
        }
      }
    }
  }

  /** The metric index only holds payloads whose name, type, expr and dataset
      are all non-empty, naming a dataset of the layer; every alias of every
      such metric is a key. */
  lemma MetricIndexSpec(layer: Layer)
    ensures forall a :: a in MetricIndex(layer) ==>
      var p := MetricIndex(layer)[a];
      p.name != "" && p.agg != "" && p.expr != "" && p.dataset != "" && HasDataset(layer, p.dataset)
    ensures forall i, j, a :: IsMetricAlias(layer.datasets, i, j, a) ==> a in MetricIndex(layer)
  {
    var ps := MetricPairs(layer.datasets);
    MetricPairsSpec(layer.datasets);
    SetDefaultsFirstWins(ps);
    forall a | a in MetricIndex(layer)
      ensures (a, MetricIndex(layer)[a]) in ps
    {
      IndexValueInPairs(ps, a);
    }
  }

  lemma {:induction false} ItemDimPairsSpec(items: seq<Item>)
    ensures forall p :: p in ItemDimPairs(items) ==> p.1.name != "" && p.1.expr != ""
    ensures forall j, a :: 0 <= j < |items| && DimAdmitted(items[j]) && a in CollectAliases(items[j]) ==>
      (a, DimPayload(items[j].name, items[j].expr)) in ItemDimPairs(items)
  {
    ItemDimPairsPayloads(items);
    ItemDimPairsCover(items);
  }

  lemma {:induction false} ItemDimPairsPayloads(items: seq<Item>)
    ensures forall p :: p in ItemDimPairs(items) ==> p.1.name != "" && p.1.expr != ""
    decreases |items|
  {
    if items != [] {
      var last := |items| - 1;
      var it := items[last];
      ItemDimPairsPayloads(items[..last]);
      var prev := ItemDimPairs(items[..last]);
      var tail: seq<(string, DimPayload)> := if DimAdmitted(it) then AliasPairs(CollectAliases(it), DimPayload(it.name, it.expr)) else [];
      assert ItemDimPairs(items) == prev + tail;
      forall p | p in prev + tail ensures p.1.name != "" && p.1.expr != "" {
        if p !in prev {
          var k :| 0 <= k < |tail| && tail[k] == p;
        }
      }
    }
  }

  lemma {:induction false} ItemDimPairsCover(items: seq<Item>)
    ensures forall j, a :: 0 <= j < |items| && DimAdmitted(items[j]) && a in CollectAliases(items[j]) ==>
      (a, DimPayload(items[j].name, items[j].expr)) in ItemDimPairs(items)
    decreases |items|
  {
    if items != [] {
      var last := |items| - 1;
      var it := items[last];
      ItemDimPairsCover(items[..last]);
      var prev := ItemDimPairs(items[..last]);
      var tail: seq<(string, DimPayload)> := if DimAdmitted(it) then AliasPairs(CollectAliases(it), DimPayload(it.name, it.expr)) else [];
      assert ItemDimPairs(items) == prev + tail;
      forall j, a | 0 <= j < |items| && DimAdmitted(items[j]) && a in CollectAliases(items[j])
        ensures (a, DimPayload(items[j].name, items[j].expr)) in prev + tail
      {
        if j < last {
          assert items[..last][j] == items[j];
          assert (a, DimPayload(items[j].name, items[j].expr)) in prev;
        } else {
          assert j == last && items[j] == it;
          AliasPairsHas(CollectAliases(it), DimPayload(it.name, it.expr), a);
        }
      }
    }
  }

  lemma EntitiesDimPairsSpec(es: seq<Entity>)
    ensures forall p :: p in EntitiesDimPairs(es) ==> p.1.name != "" && p.1.expr != ""
    ensures forall i, j, a :: IsFieldAlias(es, i, j, a) ==>
      (a, DimPayload(es[i].fields[j].name, es[i].fields[j].expr)) in EntitiesDimPairs(es)
  {
    EntitiesDimPairsPayloads(es);
    EntitiesDimPairsCover(es);
  }

  lemma {:induction false} EntitiesDimPairsPayloads(es: seq<Entity>)
    ensures forall p :: p in EntitiesDimPairs(es) ==> p.1.name != "" && p.1.expr != ""
    decreases |es|
  {
    if es != [] {
      var last := |es| - 1;
      EntitiesDimPairsPayloads(es[..last]);
      ItemDimPairsPayloads(es[last].fields);
      assert EntitiesDimPairs(es) == EntitiesDimPairs(es[..last]) + ItemDimPairs(es[last].fields);
    }
  }

  lemma {:induction false} EntitiesDimPairsCover(es: seq<Entity>)
    ensures forall i, j, a :: IsFieldAlias(es, i, j, a) ==>
      (a, DimPayload(es[i].fields[j].name, es[i].fields[j].expr)) in EntitiesDimPairs(es)
    decreases |es|
  {
    if es != [] {
      var last := |es| - 1;
      EntitiesDimPairsCover(es[..last]);
      ItemDimPairsCover(es[last].fields);
      var prev := EntitiesDimPairs(es[..last]);
      var tail := ItemDimPairs(es[last].fields);
      assert EntitiesDimPairs(es) == prev + tail;
      forall i, j, a | IsFieldAlias(es, i, j, a)
        ensures (a, DimPayload(es[i].fields[j].name, es[i].fields[j].expr)) in prev + tail
      {
        if i < last {
          assert es[..last][i] == es[i];
          assert IsFieldAlias(es[..last], i, j, a);
          assert (a, DimPayload(es[i].fields[j].name, es[i].fields[j].expr)) in prev;
        }
      }
    }
  }

  lemma DatasetsDimPairsSpec(ds: seq<Dataset>)
    ensures forall p :: p in DatasetsDimPairs(ds) ==> p.1.name != "" && p.1.expr != ""
    ensures forall i, j, a :: IsDimensionAlias(ds, i, j, a) ==>
      (a, DimPayload(ds[i].dimensions[j].name, ds[i].dimensions[j].expr)) in DatasetsDimPairs(ds)
  {
    DatasetsDimPairsPayloads(ds);
    DatasetsDimPairsCover(ds);
  }

  lemma {:induction false} DatasetsDimPairsPayloads(ds: seq<Dataset>)
    ensures forall p :: p in DatasetsDimPairs(ds) ==> p.1.name != "" && p.1.expr != ""
    decreases |ds|
  {
    if ds != [] {
      var last := |ds| - 1;
      DatasetsDimPairsPayloads(ds[..last]);
      ItemDimPairsPayloads(ds[last].dimensions);
      assert DatasetsDimPairs(ds) == DatasetsDimPairs(ds[..last]) + ItemDimPairs(ds[last].dimensions);
    }
  }

  lemma {:induction false} DatasetsDimPairsCover(ds: seq<Dataset>)
    ensures forall i, j, a :: IsDimensionAlias(ds, i, j, a) ==>
      (a, DimPayload(ds[i].dimensions[j].name, ds[i].dimensions[j].expr)) in DatasetsDimPairs(ds)
    decreases |ds|
  {
    if ds != [] {
      var last := |ds| - 1;
      DatasetsDimPairsCover(ds[..last]);
      ItemDimPairsCover(ds[last].dimensions);
      var prev := DatasetsDimPairs(ds[..last]);
      var tail := ItemDimPairs(ds[last].dimensions);
      assert DatasetsDimPairs(ds) == prev + tail;
      forall i, j, a | IsDimensionAlias(ds, i, j, a)
        ensures (a, DimPayload(ds[i].dimensions[j].name, ds[i].dimensions[j].expr)) in prev + tail
      {
        if i < last {
          assert ds[..last][i] == ds[i];
          assert IsDimensionAlias(ds[..last], i, j, a);
          assert (a, DimPayload(ds[i].dimensions[j].name, ds[i].dimensions[j].expr)) in prev;
        }
      }
    }
  }

  /** The dimension index only holds payloads with a non-empty name and expr,
      and every alias of every entity field and dataset dimension that has
      both is a key. */
  lemma DimensionIndexSpec(layer: Layer)
    ensures forall a :: a in DimensionIndex(layer) ==>
      DimensionIndex(layer)[a].name != "" && DimensionIndex(layer)[a].expr != ""
    ensures forall i, j, a :: IsFieldAlias(layer.entities, i, j, a) ==> a in DimensionIndex(layer)
    ensures forall i, j, a :: IsDimensionAlias(layer.datasets, i, j, a) ==> a in DimensionIndex(layer)
  {
    var ps := DimPairs(layer);
    EntitiesDimPairsSpec(layer.entities);
    DatasetsDimPairsSpec(layer.datasets);
    forall a | a in DimensionIndex(layer)
      ensures DimensionIndex(layer)[a].name != "" && DimensionIndex(layer)[a].expr != ""
    {
      IndexValueInPairs(ps, a);
    }
    forall i, j, a | IsFieldAlias(layer.entities, i, j, a)
      ensures a in DimensionIndex(layer)
    {
      var f := layer.entities[i].fields[j];
      PairKeyInIndex(ps, a, DimPayload(f.name, f.expr));
    }
    forall i, j, a | IsDimensionAlias(layer.datasets, i, j, a)
      ensures a in DimensionIndex(layer)
    {
      var d := layer.datasets[i].dimensions[j];
      PairKeyInIndex(ps, a, DimPayload(d.name, d.expr));
    }
  }

  lemma {:induction false} FilterPairsAgree(ps: seq<(string, DimPayload)>)
    ensures forall k :: k in SetDefaults(map[], FilterPairs(ps)) <==> k in SetDefaults(map[], ps)
    ensures forall k :: k in SetDefaults(map[], ps) ==>
      SetDefaults(map[], FilterPairs(ps))[k] == SetDefaults(map[], ps)[k].expr
    decreases |ps|
  {
    if ps != [] {
      assert FilterPairs(ps)[..|ps| - 1] == FilterPairs(ps[..|ps| - 1]);
      FilterPairsAgree(ps[..|ps| - 1]);
    }
  }

  /** The filter-field index has exactly the dimension index's keys and maps
      each to that dimension's expr. */
  lemma FilterFieldIndexAgrees(layer: Layer)
    ensures forall a :: a in FilterFieldIndex(layer) <==> a in DimensionIndex(layer)
    ensures forall a :: a in DimensionIndex(layer) ==> FilterFieldIndex(layer)[a] == DimensionIndex(layer)[a].expr
  {
    FilterPairsAgree(DimPairs(layer));
  }

  /** Entity fields are registered before dataset dimensions, so a dataset
      dimension never takes over an alias an entity field registered. */
  lemma EntityFieldsWin(layer: Layer, a: string)
    requires a in SetDefaults(map[], EntitiesDimPairs(layer.entities))
    ensures a in DimensionIndex(layer)
    ensures DimensionIndex(layer)[a] == SetDefaults(map[], EntitiesDimPairs(layer.entities))[a]
  {
    var first := SetDefaults(map[], EntitiesDimPairs(layer.entities));
    SetDefaultsAppend(map[], EntitiesDimPairs(layer.entities), DatasetsDimPairs(layer.datasets));
    SetDefaultsKeeps(first, DatasetsDimPairs(layer.datasets));
  }

  /** The expr of the first time dimension that has one, or "". */
  function FirstTimeExpr(times: seq<Item>): (r: string)
    ensures r != "" ==> exists t :: t in times && t.expr == r
    ensures r == "" ==> forall t :: t in times ==> t.expr == ""
    decreases |times|
  {
    if times == [] then ""
    else
      var f := FirstTimeExpr(times[..|times| - 1]);
      if f != "" then f else times[|times| - 1].expr
  }

  lemma SetDefaultsOne<V>(m: map<string, V>, k: string, v: V)
    ensures SetDefaults(m, [(k, v)]) == if k in m then m else m[k := v]
  {
    assert [(k, v)][..0] == [];
  }

  lemma {:induction false} TimePairsOfRegisters(m: map<string, string>, n: string, times: seq<Item>)
    requires n != "" && n !in m
    ensures SetDefaults(m, TimePairsOf(n, times)) ==
      if FirstTimeExpr(times) != "" then m[n := FirstTimeExpr(times)] else m
    decreases |times|
  {
    if times != [] {
      var last := |times| - 1;
      var t := times[last];
      var step := if t.expr != "" then [(n, t.expr)] else [];
      TimePairsOfRegisters(m, n, times[..last]);
      assert TimePairsOf(n, times) == TimePairsOf(n, times[..last]) + step;
      SetDefaultsAppend(m, TimePairsOf(n, times[..last]), step);
      var before := SetDefaults(m, TimePairsOf(n, times[..last]));
      if t.expr != "" {
        SetDefaultsOne(before, n, t.expr);
      }
    }
  }

  lemma {:induction false} TimePairsOfEmptyName(times: seq<Item>)
    ensures TimePairsOf("", times) == []
    decreases |times|
  {
    if times != [] {
      TimePairsOfEmptyName(times[..|times| - 1]);
    }
  }

  /** Dataset names are the keys of a mapping, so they are distinct. */
  predicate DistinctDatasetNames(ds: seq<Dataset>) {
    forall i, j :: 0 <= i < j < |ds| ==> ds[i].name != ds[j].name
  }

  /** The time index after the first `n` datasets, for a dataset among them. */
  predicate TimeIndexed(m: map<string, string>, d: Dataset) {
    d.name != "" ==>
      && (d.name in m <==> FirstTimeExpr(d.timeDimensions) != "")
      && (d.name in m ==> m[d.name] == FirstTimeExpr(d.timeDimensions))
  }

  lemma {:induction false} TimePairsDomain(ds: seq<Dataset>)
    ensures forall n :: n in SetDefaults(map[], TimePairs(ds)) ==> exists i :: 0 <= i < |ds| && ds[i].name == n
    decreases |ds|
  {
    if ds != [] {
      var last := |ds| - 1;
      var d := ds[last];
      var prev := SetDefaults(map[], TimePairs(ds[..last]));
      TimePairsDomain(ds[..last]);
      SetDefaultsAppend(map[], TimePairs(ds[..last]), TimePairsOf(d.name, d.timeDimensions));
      if d.name != "" && d.name !in prev {
        TimePairsOfRegisters(prev, d.name, d.timeDimensions);
      } else if d.name == "" {
        TimePairsOfEmptyName(d.timeDimensions);
      } else {
        SetDefaultsKeepsDomain(prev, d.name, d.timeDimensions);
      }
      forall n | n in SetDefaults(map[], TimePairs(ds)) ensures exists i :: 0 <= i < |ds| && ds[i].name == n {
        if n in prev {
          var i :| 0 <= i < last && ds[..last][i].name == n;
          assert ds[i].name == n;
        } else {
          assert ds[last].name == n;
        }
      }
    }
  }

  /** Time pairs of a dataset whose name is already a key add no new key. */
  lemma {:induction false} SetDefaultsKeepsDomain(m: map<string, string>, n: string, times: seq<Item>)
    requires n in m
    ensures SetDefaults(m, TimePairsOf(n, times)) == m
    decreases |times|
  {
    if times != [] {
      var last := |times| - 1;
      var t := times[last];
      SetDefaultsKeepsDomain(m, n, times[..last]);
      SetDefaultsAppend(m, TimePairsOf(n, times[..last]), if n != "" && t.expr != "" then [(n, t.expr)] else []);
    }
  }

  /** Adding the last dataset registers at most its own name. */
  lemma TimePairsStep(ds: seq<Dataset>)
    requires ds != [] && DistinctDatasetNames(ds)
    ensures var d := ds[|ds| - 1];
      var prev := SetDefaults(map[], TimePairs(ds[..|ds| - 1]));
      SetDefaults(map[], TimePairs(ds)) ==
        if d.name != "" && FirstTimeExpr(d.timeDimensions) != "" then prev[d.name := FirstTimeExpr(d.timeDimensions)] else prev
    ensures ds[|ds| - 1].name != "" ==> ds[|ds| - 1].name !in SetDefaults(map[], TimePairs(ds[..|ds| - 1]))
  {
    var last := |ds| - 1;
    var d := ds[last];
    var prev := SetDefaults(map[], TimePairs(ds[..last]));
    SetDefaultsAppend(map[], TimePairs(ds[..last]), TimePairsOf(d.name, d.timeDimensions));
    if d.name != "" {
      TimePairsDomain(ds[..last]);
      forall j | 0 <= j < last ensures ds[..last][j].name != d.name {
        assert ds[..last][j] == ds[j];
      }
      assert d.name !in prev;
      TimePairsOfRegisters(prev, d.name, d.timeDimensions);
    } else {
      TimePairsOfEmptyName(d.timeDimensions);
    }
  }

  lemma {:induction false} TimePairsIndex(ds: seq<Dataset>)
    requires DistinctDatasetNames(ds)
    ensures forall i :: 0 <= i < |ds| ==> TimeIndexed(SetDefaults(map[], TimePairs(ds)), ds[i])
    decreases |ds|
  {
    if ds != [] {
      var last := |ds| - 1;
      var d := ds[last];
      var p := ds[..last];
      assert DistinctDatasetNames(p) by {
        forall i, j | 0 <= i < j < |p| ensures p[i].name != p[j].name {
          assert p[i] == ds[i] && p[j] == ds[j];
        }
      }
      TimePairsIndex(p);
      TimePairsStep(ds);
      var prev := SetDefaults(map[], TimePairs(p));
      var now := SetDefaults(map[], TimePairs(ds));
      forall i | 0 <= i < |ds| ensures TimeIndexed(now, ds[i]) {
        if i < last {
          assert p[i] == ds[i];
          assert ds[i].name != d.name;
          assert TimeIndexed(prev, ds[i]);
        }
      }
    }
  }

  /** `time_index` maps each named dataset that has a non-empty time expr to
      the first one, and holds nothing else. */
  lemma TimeIndexSpec(layer: Layer)
    requires DistinctDatasetNames(layer.datasets)
    ensures forall i :: 0 <= i < |layer.datasets| ==> TimeIndexed(TimeIndex(layer), layer.datasets[i])
    ensures forall n :: n in TimeIndex(layer) ==> HasDataset(layer, n)
  {
    TimePairsIndex(layer.datasets);
    TimePairsDomain(layer.datasets);
  }

  // ---------------------------------------------------------------------
  // Building the entries and indices (`_build_entries_and_indexes`)

  /** `for alias in aliases: index.setdefault(alias, payload)`. */
  method RegisterAliases<V>(index: map<string, V>, aliases: seq<string>, payload: V) returns (r: map<string, V>)
    ensures r == SetDefaults(index, AliasPairs(aliases, payload))
  {
    r := index;
    for k := 0 to |aliases|
      invariant r == SetDefaults(index, AliasPairs(aliases[..k], payload))
    {
      var ps := AliasPairs(aliases[..k + 1], payload);
      assert ps[..k] == AliasPairs(aliases[..k], payload);
      if aliases[k] !in r {
        r := r[aliases[k] := payload];
      }
    }
    assert aliases[..|aliases|] == aliases;
  }

  lemma FilterPairsAppend(a: seq<(string, DimPayload)>, b: seq<(string, DimPayload)>)
    ensures FilterPairs(a + b) == FilterPairs(a) + FilterPairs(b)
  {
    assert FilterPairs(a + b) == FilterPairs(a) + FilterPairs(b);
  }

  lemma ItemEntriesStep(objectType: string, owner: string, dataset: string, entity: string, table: string,
                        sensitive: bool, items: seq<Item>, j: nat)
    requires j < |items|
    ensures ItemEntries(objectType, owner, dataset, entity, table, sensitive, items[..j + 1])
      == ItemEntries(objectType, owner, dataset, entity, table, sensitive, items[..j])
         + [Entry(objectType, owner + "." + items[j].name, CollectAliases(items[j]), dataset, entity, table,
                  if sensitive then items[j].allowed else true)]
  {
    assert items[..j + 1][..j] == items[..j];
  }

  /** One step of the dimension registration loop, for both indices. */
  lemma ItemDimStep(dims: map<string, DimPayload>, filters: map<string, string>, items: seq<Item>, j: nat)
    requires j < |items|
    ensures var it := items[j];
      SetDefaults(dims, ItemDimPairs(items[..j + 1])) ==
        if DimAdmitted(it)
        then SetDefaults(SetDefaults(dims, ItemDimPairs(items[..j])), AliasPairs(CollectAliases(it), DimPayload(it.name, it.expr)))
        else SetDefaults(dims, ItemDimPairs(items[..j]))
    ensures var it := items[j];
      SetDefaults(filters, FilterPairs(ItemDimPairs(items[..j + 1]))) ==
        if DimAdmitted(it)
        then SetDefaults(SetDefaults(filters, FilterPairs(ItemDimPairs(items[..j]))), AliasPairs(CollectAliases(it), it.expr))
        else SetDefaults(filters, FilterPairs(ItemDimPairs(items[..j])))
  {
    var it := items[j];
    var prev := ItemDimPairs(items[..j]);
    assert items[..j + 1][..j] == items[..j];
    if DimAdmitted(it) {
      var mine := AliasPairs(CollectAliases(it), DimPayload(it.name, it.expr));
      assert ItemDimPairs(items[..j + 1]) == prev + mine;
      SetDefaultsAppend(dims, prev, mine);
      FilterPairsAppend(prev, mine);
      assert FilterPairs(mine) == AliasPairs(CollectAliases(it), it.expr);
      SetDefaultsAppend(filters, FilterPairs(prev), FilterPairs(mine));
    } else {
      assert ItemDimPairs(items[..j + 1]) == prev;
    }
  }

  lemma MetricStep(metrics: map<string, MetricPayload>, n: string, ms: seq<Item>, j: nat)
    requires j < |ms|
    ensures var m := ms[j];
      SetDefaults(metrics, MetricPairsOf(n, ms[..j + 1])) ==
        if MetricAdmitted(n, m)
        then SetDefaults(SetDefaults(metrics, MetricPairsOf(n, ms[..j])),
                         AliasPairs(CollectAliases(m), MetricPayload(n, m.name, m.aggType, m.expr)))
        else SetDefaults(metrics, MetricPairsOf(n, ms[..j]))
  {
    var m := ms[j];
    assert ms[..j + 1][..j] == ms[..j];
    assert MetricPairsOf(n, ms[..j + 1]) == MetricPairsOf(n, ms[..j])
      + (if MetricAdmitted(n, m)
         then AliasPairs(CollectAliases(m), MetricPayload(n, m.name, m.aggType, m.expr))
         else []);
    if MetricAdmitted(n, m) {
      var mine := AliasPairs(CollectAliases(m), MetricPayload(n, m.name, m.aggType, m.expr));
      assert MetricPairsOf(n, ms[..j + 1]) == MetricPairsOf(n, ms[..j]) + mine;
      SetDefaultsAppend(metrics, MetricPairsOf(n, ms[..j]), mine);
    } else {
      assert MetricPairsOf(n, ms[..j + 1]) == MetricPairsOf(n, ms[..j]);
    }
  }

  lemma TimeStep(times: map<string, string>, n: string, ts: seq<Item>, j: nat)
    requires j < |ts|
    ensures var m := SetDefaults(times, TimePairsOf(n, ts[..j]));
      SetDefaults(times, TimePairsOf(n, ts[..j + 1])) ==
        if n != "" && ts[j].expr != "" && n !in m then m[n := ts[j].expr] else m
  {
    assert ts[..j + 1][..j] == ts[..j];
    var prev := TimePairsOf(n, ts[..j]);
    var ps := TimePairsOf(n, ts[..j + 1]);
    if n != "" && ts[j].expr != "" {
      assert ps == prev + [(n, ts[j].expr)];
      assert ps[..|ps| - 1] == prev;
    } else {
      assert ps == prev;
    }
  }

  /** The loop over an entity's `fields` or a dataset's `dimensions`: one
      entry per item, and an index registration for each alias of an item
      with both a name and an expr. */
  method AddDimensionItems(objectType: string, owner: string, dataset: string, entity: string, table: string,
                           items: seq<Item>, entries: seq<Entry>, dims: map<string, DimPayload>, filters: map<string, string>)
    returns (entries': seq<Entry>, dims': map<string, DimPayload>, filters': map<string, string>)
    ensures entries' == entries + ItemEntries(objectType, owner, dataset, entity, table, false, items)
    ensures dims' == SetDefaults(dims, ItemDimPairs(items))
    ensures filters' == SetDefaults(filters, FilterPairs(ItemDimPairs(items)))
  {
    entries', dims', filters' := entries, dims, filters;
    for j := 0 to |items|
      invariant entries' == entries + ItemEntries(objectType, owner, dataset, entity, table, false, items[..j])
      invariant dims' == SetDefaults(dims, ItemDimPairs(items[..j]))
      invariant filters' == SetDefaults(filters, FilterPairs(ItemDimPairs(items[..j])))
    {
      var it := items[j];
      ItemEntriesStep(objectType, owner, dataset, entity, table, false, items, j);
      ItemDimStep(dims, filters, items, j);
      var aliases := CollectAliases(it);
      entries' := entries' + [Entry(objectType, owner + "." + it.name, aliases, dataset, entity, table, true)];
      if it.name != "" && it.expr != "" {
        dims' := RegisterAliases(dims', aliases, DimPayload(it.name, it.expr));
        filters' := RegisterAliases(filters', aliases, it.expr);
      }
    }
    assert items[..|items|] == items;
  }

  /** The loop over an entity's `sensitive_fields`: entries only. */
  method AddSensitiveFields(e: Entity, entries: seq<Entry>) returns (entries': seq<Entry>)
    ensures entries' == entries + ItemEntries("sensitive_field", e.name, "", e.name, e.table, true, e.sensitiveFields)
  {
    entries' := entries;
    for j := 0 to |e.sensitiveFields|
      invariant entries' == entries + ItemEntries("sensitive_field", e.name, "", e.name, e.table, true, e.sensitiveFields[..j])
    {
      var field := e.sensitiveFields[j];
      ItemEntriesStep("sensitive_field", e.name, "", e.name, e.table, true, e.sensitiveFields, j);
      entries' := entries' + [Entry("sensitive_field", e.name + "." + field.name, CollectAliases(field), "", e.name, e.table, field.allowed)];
    }
    assert e.sensitiveFields[..|e.sensitiveFields|] == e.sensitiveFields;
  }

  /** The loop over a dataset's `time_dimensions`. */
  method AddTimeDimensions(d: Dataset, entries: seq<Entry>, times: map<string, string>)
    returns (entries': seq<Entry>, times': map<string, string>)
    ensures entries' == entries + ItemEntries("time_dimension", d.name, d.name, "", "", false, d.timeDimensions)
    ensures times' == SetDefaults(times, TimePairsOf(d.name, d.timeDimensions))
  {
    entries', times' := entries, times;
    for j := 0 to |d.timeDimensions|
      invariant entries' == entries + ItemEntries("time_dimension", d.name, d.name, "", "", false, d.timeDimensions[..j])
      invariant times' == SetDefaults(times, TimePairsOf(d.name, d.timeDimensions[..j]))
    {
      var t := d.timeDimensions[j];
      ItemEntriesStep("time_dimension", d.name, d.name, "", "", false, d.timeDimensions, j);
      TimeStep(times, d.name, d.timeDimensions, j);
      entries' := entries' + [Entry("time_dimension", d.name + "." + t.name, CollectAliases(t), d.name, "", "", true)];
      if d.name != "" && t.expr != "" && d.name !in times' {
        times' := times'[d.name := t.expr];
      }
    }
    assert d.timeDimensions[..|d.timeDimensions|] == d.timeDimensions;
  }

  /** The loop over a dataset's `metrics`. */
  method AddMetrics(d: Dataset, entries: seq<Entry>, metrics: map<string, MetricPayload>)
    returns (entries': seq<Entry>, metrics': map<string, MetricPayload>)
    ensures entries' == entries + ItemEntries("metric", d.name, d.name, "", "", false, d.metrics)
    ensures metrics' == SetDefaults(metrics, MetricPairsOf(d.name, d.metrics))
  {
    entries', metrics' := entries, metrics;
    for j := 0 to |d.metrics|
      invariant entries' == entries + ItemEntries("metric", d.name, d.name, "", "", false, d.metrics[..j])
      invariant metrics' == SetDefaults(metrics, MetricPairsOf(d.name, d.metrics[..j]))
    {
      var m := d.metrics[j];
      ghost var e0, m0 := entries', metrics';
      var aliases := CollectAliases(m);
      entries' := entries' + [Entry("metric", d.name + "." + m.name, aliases, d.name, "", "", true)];
      if m.name != "" && m.aggType != "" && m.expr != "" && d.name != "" {
        metrics' := RegisterAliases(metrics', aliases, MetricPayload(d.name, m.name, m.aggType, m.expr));
      }
      assert entries' == entries + ItemEntries("metric", d.name, d.name, "", "", false, d.metrics[..j + 1]) by {
        ItemEntriesStep("metric", d.name, d.name, "", "", false, d.metrics, j);
        assert entries' == e0 + [Entry("metric", d.name + "." + m.name, CollectAliases(m), d.name, "", "", true)];
      }
      assert metrics' == SetDefaults(metrics, MetricPairsOf(d.name, d.metrics[..j + 1])) by {
        MetricStep(metrics, d.name, d.metrics, j);
      }
    }
    assert d.metrics[..|d.metrics|] == d.metrics;
  }

  lemma EntitiesStep(es: seq<Entity>, i: nat)
    requires i < |es|
    ensures EntitiesEntries(es[..i + 1]) == EntitiesEntries(es[..i])
      + ItemEntries("field", es[i].name, "", es[i].name, es[i].table, false, es[i].fields)
      + ItemEntries("sensitive_field", es[i].name, "", es[i].name, es[i].table, true, es[i].sensitiveFields)
    ensures SetDefaults(map[], EntitiesDimPairs(es[..i + 1]))
      == SetDefaults(SetDefaults(map[], EntitiesDimPairs(es[..i])), ItemDimPairs(es[i].fields))
    ensures SetDefaults(map[], FilterPairs(EntitiesDimPairs(es[..i + 1])))
      == SetDefaults(SetDefaults(map[], FilterPairs(EntitiesDimPairs(es[..i]))), FilterPairs(ItemDimPairs(es[i].fields)))
  {
    assert es[..i + 1][..i] == es[..i];
    var prev := EntitiesDimPairs(es[..i]);
    SetDefaultsAppend(map[], prev, ItemDimPairs(es[i].fields));
    FilterPairsAppend(prev, ItemDimPairs(es[i].fields));
    SetDefaultsAppend(map[], FilterPairs(prev), FilterPairs(ItemDimPairs(es[i].fields)));
  }

  lemma DatasetsStep(entityPairs: seq<(string, DimPayload)>, ds: seq<Dataset>, i: nat)
    requires i < |ds|
    ensures DatasetsEntries(ds[..i + 1]) == DatasetsEntries(ds[..i])
      + ItemEntries("time_dimension", ds[i].name, ds[i].name, "", "", false, ds[i].timeDimensions)
      + ItemEntries("metric", ds[i].name, ds[i].name, "", "", false, ds[i].metrics)
      + ItemEntries("dimension", ds[i].name, ds[i].name, "", "", false, ds[i].dimensions)
    ensures SetDefaults(map[], MetricPairs(ds[..i + 1]))
      == SetDefaults(SetDefaults(map[], MetricPairs(ds[..i])), MetricPairsOf(ds[i].name, ds[i].metrics))
    ensures SetDefaults(map[], entityPairs + DatasetsDimPairs(ds[..i + 1]))
      == SetDefaults(SetDefaults(map[], entityPairs + DatasetsDimPairs(ds[..i])), ItemDimPairs(ds[i].dimensions))
    ensures SetDefaults(map[], FilterPairs(entityPairs + DatasetsDimPairs(ds[..i + 1])))
      == SetDefaults(SetDefaults(map[], FilterPairs(entityPairs + DatasetsDimPairs(ds[..i]))),
                     FilterPairs(ItemDimPairs(ds[i].dimensions)))
    ensures SetDefaults(map[], TimePairs(ds[..i + 1]))
      == SetDefaults(SetDefaults(map[], TimePairs(ds[..i])), TimePairsOf(ds[i].name, ds[i].timeDimensions))
  {
    assert ds[..i + 1][..i] == ds[..i];
    var d := ds[i];
    var prevDims := entityPairs + DatasetsDimPairs(ds[..i]);
    assert entityPairs + DatasetsDimPairs(ds[..i + 1]) == prevDims + ItemDimPairs(d.dimensions);
    SetDefaultsAppend(map[], MetricPairs(ds[..i]), MetricPairsOf(d.name, d.metrics));
    SetDefaultsAppend(map[], prevDims, ItemDimPairs(d.dimensions));
    FilterPairsAppend(prevDims, ItemDimPairs(d.dimensions));
    SetDefaultsAppend(map[], FilterPairs(prevDims), FilterPairs(ItemDimPairs(d.dimensions)));
    SetDefaultsAppend(map[], TimePairs(ds[..i]), TimePairsOf(d.name, d.timeDimensions));
  }

  /** The loop over `entities`. */
  method AddEntities(es: seq<Entity>)
    returns (entries: seq<Entry>, dimensionIndex: map<string, DimPayload>, filterFieldIndex: map<string, string>)
    ensures entries == EntitiesEntries(es)
    ensures dimensionIndex == SetDefaults(map[], EntitiesDimPairs(es))
    ensures filterFieldIndex == SetDefaults(map[], FilterPairs(EntitiesDimPairs(es)))
  {
    entries, dimensionIndex, filterFieldIndex := [], map[], map[];
    for i := 0 to |es|
      invariant entries == EntitiesEntries(es[..i])
      invariant dimensionIndex == SetDefaults(map[], EntitiesDimPairs(es[..i]))
      invariant filterFieldIndex == SetDefaults(map[], FilterPairs(EntitiesDimPairs(es[..i])))
    {
      var e := es[i];
      EntitiesStep(es, i);
      entries, dimensionIndex, filterFieldIndex :=
        AddDimensionItems("field", e.name, "", e.name, e.table, e.fields, entries, dimensionIndex, filterFieldIndex);
      entries := AddSensitiveFields(e, entries);
    }
    assert es[..|es|] == es;
  }

  /** The loop over `datasets`; the dimension and filter indices continue
      from the registrations `entityPairs` of the entity pass. */
  method AddDatasets(ds: seq<Dataset>, ghost entityPairs: seq<(string, DimPayload)>,
                     dims0: map<string, DimPayload>, filters0: map<string, string>)
    returns (entries: seq<Entry>, metricIndex: map<string, MetricPayload>, dimensionIndex: map<string, DimPayload>,
             filterFieldIndex: map<string, string>, timeIndex: map<string, string>)
    requires dims0 == SetDefaults(map[], entityPairs)
    requires filters0 == SetDefaults(map[], FilterPairs(entityPairs))
    ensures entries == DatasetsEntries(ds)
    ensures metricIndex == SetDefaults(map[], MetricPairs(ds))
    ensures dimensionIndex == SetDefaults(map[], entityPairs + DatasetsDimPairs(ds))
    ensures filterFieldIndex == SetDefaults(map[], FilterPairs(entityPairs + DatasetsDimPairs(ds)))
    ensures timeIndex == SetDefaults(map[], TimePairs(ds))
  {
    entries, metricIndex, timeIndex := [], map[], map[];
    dimensionIndex, filterFieldIndex := dims0, filters0;
    assert entityPairs + DatasetsDimPairs(ds[..0]) == entityPairs;
    for i := 0 to |ds|
      invariant entries == DatasetsEntries(ds[..i])
      invariant metricIndex == SetDefaults(map[], MetricPairs(ds[..i]))
      invariant dimensionIndex == SetDefaults(map[], entityPairs + DatasetsDimPairs(ds[..i]))
      invariant filterFieldIndex == SetDefaults(map[], FilterPairs(entityPairs + DatasetsDimPairs(ds[..i])))
      invariant timeIndex == SetDefaults(map[], TimePairs(ds[..i]))
    {
      var d := ds[i];
      DatasetsStep(entityPairs, ds, i);
      entries, timeIndex := AddTimeDimensions(d, entries, timeIndex);
      entries, metricIndex := AddMetrics(d, entries, metricIndex);
      entries, dimensionIndex, filterFieldIndex :=
        AddDimensionItems("dimension", d.name, d.name, "", "", d.dimensions, entries, dimensionIndex, filterFieldIndex);
    }
    assert ds[..|ds|] == ds;
  }

  /** `_build_entries_and_indexes`, from an already-parsed layer: all
      entities first, then all datasets, each in mapping order. */
  method BuildEntriesAndIndexes(layer: Layer)
    returns (entries: seq<Entry>, metricIndex: map<string, MetricPayload>, dimensionIndex: map<string, DimPayload>,
             filterFieldIndex: map<string, string>, timeIndex: map<string, string>)
    ensures entries == Entries(layer)
    ensures metricIndex == MetricIndex(layer)
    ensures dimensionIndex == DimensionIndex(layer)
    ensures filterFieldIndex == FilterFieldIndex(layer)
    ensures timeIndex == TimeIndex(layer)
  {
    var entityEntries, entityDims, entityFilters := AddEntities(layer.entities);
    var datasetEntries;
    datasetEntries, metricIndex, dimensionIndex, filterFieldIndex, timeIndex :=
      AddDatasets(layer.datasets, EntitiesDimPairs(layer.entities), entityDims, entityFilters);
    entries := entityEntries + datasetEntries;
  }

  lemma {:induction false} ItemEntriesSpec(objectType: string, owner: string, dataset: string, entity: string,
                                           table: string, sensitive: bool, items: seq<Item>)
    ensures var r := ItemEntries(objectType, owner, dataset, entity, table, sensitive, items);
      && |r| == |items|
      && (forall i :: 0 <= i < |items| ==>
            && r[i].objectType == objectType && r[i].canonicalName == owner + "." + items[i].name
            && r[i].aliases == CollectAliases(items[i]) && (sensitive || r[i].allowed))
    decreases |items|
  {
    if items != [] {
      var last := |items| - 1;
      ItemEntriesSpec(objectType, owner, dataset, entity, table, sensitive, items[..last]);
      var prev := ItemEntries(objectType, owner, dataset, entity, table, sensitive, items[..last]);
      var r := ItemEntries(objectType, owner, dataset, entity, table, sensitive, items);
      assert r == prev + [r[last]];
      forall i | 0 <= i < last
        ensures r[i].objectType == objectType && r[i].canonicalName == owner + "." + items[i].name
        ensures r[i].aliases == CollectAliases(items[i]) && (sensitive || r[i].allowed)
      {
        assert r[i] == prev[i];
        assert items[..last][i] == items[i];
      }
    }
  }

  /** Every entry's aliases are normalized and non-empty, and only sensitive
      fields can be disallowed. */
  lemma EntriesSpec(layer: Layer)
    ensures forall e :: e in Entries(layer) ==>
      (!e.allowed ==> e.objectType == "sensitive_field")
      && forall a :: a in e.aliases ==> a != "" && Normalize(a) == a
  {
    EntitiesEntriesSpec(layer.entities);
    DatasetsEntriesSpec(layer.datasets);
  }

  predicate EntryShape(e: Entry) {
    (!e.allowed ==> e.objectType == "sensitive_field")
    && forall a :: a in e.aliases ==> a != "" && Normalize(a) == a
  }

  lemma ItemEntriesShape(objectType: string, owner: string, dataset: string, entity: string,
                         table: string, sensitive: bool, items: seq<Item>)
    requires sensitive ==> objectType == "sensitive_field"
    ensures forall e :: e in ItemEntries(objectType, owner, dataset, entity, table, sensitive, items) ==> EntryShape(e)
  {
    var r := ItemEntries(objectType, owner, dataset, entity, table, sensitive, items);
    ItemEntriesSpec(objectType, owner, dataset, entity, table, sensitive, items);
    forall e | e in r ensures EntryShape(e) {
      var i :| 0 <= i < |r| && r[i] == e;
      CollectAliasesSpec(items[i]);
    }
  }

  lemma {:induction false} EntitiesEntriesSpec(es: seq<Entity>)
    ensures forall e :: e in EntitiesEntries(es) ==> EntryShape(e)
    decreases |es|
  {
    if es != [] {
      var x := es[|es| - 1];
      EntitiesEntriesSpec(es[..|es| - 1]);
      ItemEntriesShape("field", x.name, "", x.name, x.table, false, x.fields);
      ItemEntriesShape("sensitive_field", x.name, "", x.name, x.table, true, x.sensitiveFields);
    }
  }

  lemma {:induction false} DatasetsEntriesSpec(ds: seq<Dataset>)
    ensures forall e :: e in DatasetsEntries(ds) ==> EntryShape(e)
    decreases |ds|
  {
    if ds != [] {
      var d := ds[|ds| - 1];
      DatasetsEntriesSpec(ds[..|ds| - 1]);
      ItemEntriesShape("time_dimension", d.name, d.name, "", "", false, d.timeDimensions);
      ItemEntriesShape("metric", d.name, d.name, "", "", false, d.metrics);
      ItemEntriesShape("dimension", d.name, d.name, "", "", false, d.dimensions);
    }
  }

  // ---------------------------------------------------------------------
  // Resolving extracted features (`_build_semantic_refs`)

  datatype MetricRef = MetricRef(name: string, agg: string, expr: string)

  datatype DimensionRef = DimensionRef(name: string, expr: string)

  datatype FilterRef = FilterRef(expr: string, op: string, value: string)

  datatype SemanticRefs = SemanticRefs(
    dataset: string,
    timeField: string,
    limit: Value,
    metrics: seq<MetricRef>,
    dimensions: seq<DimensionRef>,
    filters: seq<FilterRef>)

  /** What `match` returns. */
  datatype MatchResult = MatchResult(tokens: seq<Value>, timeStart: Value, timeEnd: Value, refs: SemanticRefs)

  /** The metric a feature value resolves to, if it is a non-blank string
      whose normalized form is a metric alias with a non-empty name. */
  function MetricRefOf(index: map<string, MetricPayload>, v: Value): Option<MetricRef> {
    if IsAliasText(v) && Normalize(v.s) in index && index[Normalize(v.s)].name != "" then
      var p := index[Normalize(v.s)];
      Some(MetricRef(p.name, p.agg, p.expr))
    else None
  }

  function MappedMetrics(index: map<string, MetricPayload>, vs: seq<Value>): seq<MetricRef>
    decreases |vs|
  {
    if vs == [] then []
    else
      var r := MetricRefOf(index, vs[|vs| - 1]);
      MappedMetrics(index, vs[..|vs| - 1]) + (if r.Some? then [r.value] else [])
  }

  function MetricRefName(r: MetricRef): string {
    r.name
  }

  function DimensionRefOf(index: map<string, DimPayload>, v: Value): Option<DimensionRef> {
    if IsAliasText(v) && Normalize(v.s) in index && index[Normalize(v.s)].expr != "" then
      var p := index[Normalize(v.s)];
      Some(DimensionRef(p.name, p.expr))
    else None
  }

  function MappedDimensions(index: map<string, DimPayload>, vs: seq<Value>): seq<DimensionRef>
    decreases |vs|
  {
    if vs == [] then []
    else
      var r := DimensionRefOf(index, vs[|vs| - 1]);
      MappedDimensions(index, vs[..|vs| - 1]) + (if r.Some? then [r.value] else [])
  }

  function DimensionRefExpr(r: DimensionRef): string {
    r.expr
  }

  /** A filter string `lhs=rhs` (split at the first "="), with the normalized
      lhs a filter-field alias whose expr is non-empty. */
  function FilterRefOf(index: map<string, string>, v: Value): (r: Option<FilterRef>)
    ensures r.Some? ==> v.Str? && Contains(v.s, "=")
    ensures r.Some? ==> r.value.op == "=" && r.value.expr != "" && IsStripped(r.value.value)
    ensures r.Some? ==> r.value.expr in index.Values
  {
    if v.Str? && Contains(v.s, "=") then
      var parts := SplitOnce(v.s, "=");
      var key := Normalize(parts[0]);
      StripSpec(parts[1]);
      if key in index && index[key] != "" then Some(FilterRef(index[key], "=", Strip(parts[1]))) else None
    else None
  }

  function MappedFilters(index: map<string, string>, vs: seq<Value>): seq<FilterRef>
    decreases |vs|
  {
    if vs == [] then []
    else
      var r := FilterRefOf(index, vs[|vs| - 1]);
      MappedFilters(index, vs[..|vs| - 1]) + (if r.Some? then [r.value] else [])
  }

  /** The dataset of the first string value that maps to a metric with a
      non-empty dataset, or "". */
  function FirstMetricDataset(index: map<string, MetricPayload>, vs: seq<Value>): (r: string)
    ensures r != "" ==> exists v :: v in vs && v.Str? && Normalize(v.s) in index && index[Normalize(v.s)].dataset == r
    ensures r == "" <==> forall v :: v in vs && v.Str? && Normalize(v.s) in index ==> index[Normalize(v.s)].dataset == ""
  {
    if vs == [] then ""
    else if vs[0].Str? && Normalize(vs[0].s) in index && index[Normalize(vs[0].s)].dataset != "" then
      index[Normalize(vs[0].s)].dataset
    else
      assert forall v :: v in vs ==> v == vs[0] || v in vs[1..];
      FirstMetricDataset(index, vs[1..])
  }

  /** Where the dataset comes from, in order: the first metric feature when
      any metric resolved, then any metric feature, then any token. */
  function ResolveDataset(index: map<string, MetricPayload>, features: Features, haveMetricRefs: bool): (d: string)
    ensures d != "" ==> exists a :: a in index && index[a].dataset == d
    ensures d == "" <==>
      && (haveMetricRefs && features.metrics != [] && Normalize(PyStr(features.metrics[0])) in index ==>
            index[Normalize(PyStr(features.metrics[0]))].dataset == "")
      && (forall v :: v in features.metrics && v.Str? && Normalize(v.s) in index ==> index[Normalize(v.s)].dataset == "")
      && (forall v :: v in features.tokens && v.Str? && Normalize(v.s) in index ==> index[Normalize(v.s)].dataset == "")
  {
    var first :=
      if haveMetricRefs && features.metrics != [] && Normalize(PyStr(features.metrics[0])) in index
      then index[Normalize(PyStr(features.metrics[0]))].dataset
      else "";
    if first != "" then first
    else
      var fromMetrics := FirstMetricDataset(index, features.metrics);
      if fromMetrics != "" then fromMetrics else FirstMetricDataset(index, features.tokens)
  }

  /** `time_field`: looked up only for a non-empty dataset. */
  function TimeFieldOf(timeIndex: map<string, string>, dataset: string): (t: string)
    ensures dataset == "" ==> t == ""
    ensures t != "" ==> dataset in timeIndex && timeIndex[dataset] == t
  {
    if dataset != "" && dataset in timeIndex then timeIndex[dataset] else ""
  }

  /** What `_build_semantic_refs` returns, given the four indices. */
  function SemanticRefsOf(metricIndex: map<string, MetricPayload>, dimensionIndex: map<string, DimPayload>,
                          filterFieldIndex: map<string, string>, timeIndex: map<string, string>,
                          features: Features): SemanticRefs
  {
    var metrics := DedupBy(MappedMetrics(metricIndex, features.metrics), MetricRefName);
    var dataset := ResolveDataset(metricIndex, features, metrics != []);
    SemanticRefs(
      dataset,
      TimeFieldOf(timeIndex, dataset),
      features.limit,
      metrics,
      DedupBy(MappedDimensions(dimensionIndex, features.dimensions), DimensionRefExpr),
      Dedup(MappedFilters(filterFieldIndex, features.filters)))
  }

  lemma MappedMetricsStep(index: map<string, MetricPayload>, vs: seq<Value>, i: nat)
    requires i < |vs|
    ensures MappedMetrics(index, vs[..i + 1]) == MappedMetrics(index, vs[..i])
      + (if MetricRefOf(index, vs[i]).Some? then [MetricRefOf(index, vs[i]).value] else [])
  {
    assert vs[..i + 1][..i] == vs[..i];
  }

  lemma MappedDimensionsStep(index: map<string, DimPayload>, vs: seq<Value>, i: nat)
    requires i < |vs|
    ensures MappedDimensions(index, vs[..i + 1]) == MappedDimensions(index, vs[..i])
      + (if DimensionRefOf(index, vs[i]).Some? then [DimensionRefOf(index, vs[i]).value] else [])
  {
    assert vs[..i + 1][..i] == vs[..i];
  }

  lemma MappedFiltersStep(index: map<string, string>, vs: seq<Value>, i: nat)
    requires i < |vs|
    ensures MappedFilters(index, vs[..i + 1]) == MappedFilters(index, vs[..i])
      + (if FilterRefOf(index, vs[i]).Some? then [FilterRefOf(index, vs[i]).value] else [])
  {
    assert vs[..i + 1][..i] == vs[..i];
  }

  /** The loops over `metrics` and `tokens` that stop at the first mapped
      metric with a non-empty dataset. */
  method ScanMetricDataset(index: map<string, MetricPayload>, vs: seq<Value>) returns (dataset: string)
    ensures dataset == FirstMetricDataset(index, vs)
  {
    dataset := "";
    var i := 0;
    while i < |vs|
      invariant 0 <= i <= |vs|
      invariant dataset == ""
      invariant FirstMetricDataset(index, vs) == FirstMetricDataset(index, vs[i..])
    {
      var v := vs[i];
      assert vs[i..][0] == v;
      if v.Str? {
        var key := Normalize(v.s);
        if key in index {
          dataset := index[key].dataset;
          if dataset != "" {
            break;
          }
        }
      }
      assert vs[i..][1..] == vs[i + 1..];
      i := i + 1;
    }
  }

  lemma {:induction false} MappedMetricsMembers(index: map<string, MetricPayload>, vs: seq<Value>)
    ensures forall x :: x in MappedMetrics(index, vs) <==> exists v :: v in vs && MetricRefOf(index, v) == Some(x)
    decreases |vs|
  {
    if vs != [] {
      var p := vs[..|vs| - 1];
      MappedMetricsMembers(index, p);
      assert vs == p + [vs[|vs| - 1]];
    }
  }

  lemma {:induction false} MappedDimensionsMembers(index: map<string, DimPayload>, vs: seq<Value>)
    ensures forall x :: x in MappedDimensions(index, vs) <==> exists v :: v in vs && DimensionRefOf(index, v) == Some(x)
    decreases |vs|
  {
    if vs != [] {
      var p := vs[..|vs| - 1];
      MappedDimensionsMembers(index, p);
      assert vs == p + [vs[|vs| - 1]];
    }
  }

  lemma {:induction false} MappedFiltersMembers(index: map<string, string>, vs: seq<Value>)
    ensures forall x :: x in MappedFilters(index, vs) <==> exists v :: v in vs && FilterRefOf(index, v) == Some(x)
    decreases |vs|
  {
    if vs != [] {
      var p := vs[..|vs| - 1];
      MappedFiltersMembers(index, p);
      assert vs == p + [vs[|vs| - 1]];
    }
  }

  /** Metric refs: no two share a name; each is the index payload of some
      non-blank metric feature; and every feature that resolves is
      represented by a ref with its name. */
  lemma MetricRefsSpec(index: map<string, MetricPayload>, vs: seq<Value>)
    ensures var r := DedupBy(MappedMetrics(index, vs), MetricRefName);
      && (forall i, j :: 0 <= i < j < |r| ==> r[i].name != r[j].name)
      && (forall x :: x in r ==> exists v :: v in vs && MetricRefOf(index, v) == Some(x))
      && (forall v :: v in vs && MetricRefOf(index, v).Some? ==>
            exists x :: x in r && x.name == MetricRefOf(index, v).value.name)
  {
    var xs := MappedMetrics(index, vs);
    var r := DedupBy(xs, MetricRefName);
    DedupByKeeps(xs, MetricRefName);
    MappedMetricsMembers(index, vs);
    forall i, j | 0 <= i < j < |r| ensures r[i].name != r[j].name {
      assert MetricRefName(r[i]) != MetricRefName(r[j]);
    }
    forall x | x in r ensures exists v :: v in vs && MetricRefOf(index, v) == Some(x) {
      assert x in xs;
    }
    forall v | v in vs && MetricRefOf(index, v).Some?
      ensures exists x :: x in r && x.name == MetricRefOf(index, v).value.name
    {
      var y := MetricRefOf(index, v).value;
      assert y in xs;
      var x :| x in r && MetricRefName(x) == MetricRefName(y);
      assert x.name == y.name;
    }
  }

  /** Dimension refs: no two share an expr; each comes from some non-blank
      dimension feature; every feature that resolves is represented. */
  lemma DimensionRefsSpec(index: map<string, DimPayload>, vs: seq<Value>)
    ensures var r := DedupBy(MappedDimensions(index, vs), DimensionRefExpr);
      && (forall i, j :: 0 <= i < j < |r| ==> r[i].expr != r[j].expr)
      && (forall x :: x in r ==> exists v :: v in vs && DimensionRefOf(index, v) == Some(x))
      && (forall v :: v in vs && DimensionRefOf(index, v).Some? ==>
            exists x :: x in r && x.expr == DimensionRefOf(index, v).value.expr)
  {
    var xs := MappedDimensions(index, vs);
    var r := DedupBy(xs, DimensionRefExpr);
    DedupByKeeps(xs, DimensionRefExpr);
    MappedDimensionsMembers(index, vs);
    forall i, j | 0 <= i < j < |r| ensures r[i].expr != r[j].expr {
      assert DimensionRefExpr(r[i]) != DimensionRefExpr(r[j]);
    }
    forall x | x in r ensures exists v :: v in vs && DimensionRefOf(index, v) == Some(x) {
      assert x in xs;
    }
    forall v | v in vs && DimensionRefOf(index, v).Some?
      ensures exists x :: x in r && x.expr == DimensionRefOf(index, v).value.expr
    {
      var y := DimensionRefOf(index, v).value;
      assert y in xs;
      var x :| x in r && DimensionRefExpr(x) == DimensionRefExpr(y);
      assert x.expr == y.expr;
    }
  }

  /** Filter refs: each once, each from a filter string containing "=", and
      every resolving filter string is represented. */
  lemma FilterRefsSpec(index: map<string, string>, vs: seq<Value>)
    ensures var r := Dedup(MappedFilters(index, vs));
      && (forall i, j :: 0 <= i < j < |r| ==> r[i] != r[j])
      && (forall x :: x in r ==> exists v :: v in vs && FilterRefOf(index, v) == Some(x))
      && (forall v :: v in vs && FilterRefOf(index, v).Some? ==> FilterRefOf(index, v).value in r)
      && (forall x :: x in r ==> x.op == "=" && IsStripped(x.value))
  {
    var xs := MappedFilters(index, vs);
    var r := Dedup(xs);
    DedupSpec(xs);
    MappedFiltersMembers(index, vs);
    forall x | x in r ensures (exists v :: v in vs && FilterRefOf(index, v) == Some(x)) && x.op == "=" && IsStripped(x.value) {
      assert x in xs;
      var v :| v in vs && FilterRefOf(index, v) == Some(x);
      var o := FilterRefOf(index, v);
      assert o.Some? && o.value == x;
    }
    forall v | v in vs && FilterRefOf(index, v).Some? ensures FilterRefOf(index, v).value in r {
      assert FilterRefOf(index, v).value in xs;
    }
  }

  /** The matcher: entries and the four alias indices, set once from the
      layer and read by every lookup. */
  class SemanticTokenMatcher {
    const entries: seq<Entry>
    const metricIndex: map<string, MetricPayload>
    const dimensionIndex: map<string, DimPayload>
    const filterFieldIndex: map<string, string>
    const timeIndex: map<string, string>

    constructor (layer: Layer)
      ensures entries == Entries(layer)
      ensures metricIndex == MetricIndex(layer)
      ensures dimensionIndex == DimensionIndex(layer)
      ensures filterFieldIndex == FilterFieldIndex(layer)
      ensures timeIndex == TimeIndex(layer)
    {
      var e, m, d, f, t := BuildEntriesAndIndexes(layer);
      entries, metricIndex, dimensionIndex, filterFieldIndex, timeIndex := e, m, d, f, t;
    }

    /** `_build_semantic_refs`. */
    method BuildSemanticRefs(features: Features) returns (refs: SemanticRefs)
      ensures refs == SemanticRefsOf(metricIndex, dimensionIndex, filterFieldIndex, timeIndex, features)
    {
      var metricRefs := ResolveMetrics(features.metrics);
      var dimensionRefs := ResolveDimensions(features.dimensions);
      var filterRefs := ResolveFilters(features.filters);

      var dataset := "";
      if metricRefs != [] {
        assert features.metrics != [];
        var firstKey := Normalize(PyStr(features.metrics[0]));
        if firstKey in metricIndex {
          dataset := metricIndex[firstKey].dataset;
        }
      }
      if dataset == "" {
        dataset := ScanMetricDataset(metricIndex, features.metrics);
      }
      if dataset == "" {
        dataset := ScanMetricDataset(metricIndex, features.tokens);
      }
      var timeField := "";
      if dataset != "" && dataset in timeIndex {
        timeField := timeIndex[dataset];
      }
      refs := SemanticRefs(dataset, timeField, features.limit, metricRefs, dimensionRefs, filterRefs);
    }

    /** The metric loop of `_build_semantic_refs`, with its `seen_metric_names`. */
    method ResolveMetrics(metrics: seq<Value>) returns (metricRefs: seq<MetricRef>)
      ensures metricRefs == DedupBy(MappedMetrics(metricIndex, metrics), MetricRefName)
    {
      metricRefs := [];
      var seen: set<string> := {};
      for i := 0 to |metrics|
        invariant metricRefs == DedupBy(MappedMetrics(metricIndex, metrics[..i]), MetricRefName)
        invariant forall n :: n in seen <==> n in Keys(metricRefs, MetricRefName)
      {
        var v := metrics[i];
        MappedMetricsStep(metricIndex, metrics, i);
        ghost var before := MappedMetrics(metricIndex, metrics[..i]);
        if MetricRefOf(metricIndex, v).None? {
          assert MappedMetrics(metricIndex, metrics[..i + 1]) == before;
        } else {
          assert MappedMetrics(metricIndex, metrics[..i + 1]) == before + [MetricRefOf(metricIndex, v).value];
        }
        if v.Str? && Strip(v.s) != "" {
          var key := Normalize(v.s);
          if key in metricIndex {
            var mapped := metricIndex[key];
            if mapped.name != "" && mapped.name !in seen {
              var r := MetricRef(mapped.name, mapped.agg, mapped.expr);
              DedupByStep(MappedMetrics(metricIndex, metrics[..i]), r, MetricRefName);
              KeysSnoc(metricRefs, r, MetricRefName);
              seen := seen + {mapped.name};
              metricRefs := metricRefs + [r];
            } else if mapped.name != "" {
              DedupByStep(MappedMetrics(metricIndex, metrics[..i]), MetricRef(mapped.name, mapped.agg, mapped.expr), MetricRefName);
            }
          }
        }
      }
      assert metrics[..|metrics|] == metrics;
    }

    /** The dimension loop of `_build_semantic_refs`, with its `seen_dimension_exprs`. */
    method ResolveDimensions(dimensions: seq<Value>) returns (dimensionRefs: seq<DimensionRef>)
      ensures dimensionRefs == DedupBy(MappedDimensions(dimensionIndex, dimensions), DimensionRefExpr)
    {
      dimensionRefs := [];
      var seen: set<string> := {};
      for i := 0 to |dimensions|
        invariant dimensionRefs == DedupBy(MappedDimensions(dimensionIndex, dimensions[..i]), DimensionRefExpr)
        invariant forall e :: e in seen <==> e in Keys(dimensionRefs, DimensionRefExpr)
      {
        var v := dimensions[i];
        MappedDimensionsStep(dimensionIndex, dimensions, i);
        ghost var before := MappedDimensions(dimensionIndex, dimensions[..i]);
        if DimensionRefOf(dimensionIndex, v).None? {
          assert MappedDimensions(dimensionIndex, dimensions[..i + 1]) == before;
        } else {
          assert MappedDimensions(dimensionIndex, dimensions[..i + 1]) == before + [DimensionRefOf(dimensionIndex, v).value];
        }
        if v.Str? && Strip(v.s) != "" {
          var key := Normalize(v.s);
          if key in dimensionIndex {
            var mapped := dimensionIndex[key];
            if mapped.expr != "" && mapped.expr !in seen {
              var r := DimensionRef(mapped.name, mapped.expr);
              DedupByStep(MappedDimensions(dimensionIndex, dimensions[..i]), r, DimensionRefExpr);
              KeysSnoc(dimensionRefs, r, DimensionRefExpr);
              seen := seen + {mapped.expr};
              dimensionRefs := dimensionRefs + [r];
            } else if mapped.expr != "" {
              DedupByStep(MappedDimensions(dimensionIndex, dimensions[..i]), DimensionRef(mapped.name, mapped.expr), DimensionRefExpr);
            }
          }
        }
      }
      assert dimensions[..|dimensions|] == dimensions;
    }

    /** The filter loop of `_build_semantic_refs`, with its `seen_filters`. */
    method ResolveFilters(filters: seq<Value>) returns (filterRefs: seq<FilterRef>)
      ensures filterRefs == Dedup(MappedFilters(filterFieldIndex, filters))
    {
      filterRefs := [];
      var seen: set<FilterRef> := {};
      for i := 0 to |filters|
        invariant filterRefs == Dedup(MappedFilters(filterFieldIndex, filters[..i]))
        invariant forall f :: f in seen <==> f in filterRefs
      {
        var v := filters[i];
        MappedFiltersStep(filterFieldIndex, filters, i);
        ghost var before := MappedFilters(filterFieldIndex, filters[..i]);
        if FilterRefOf(filterFieldIndex, v).None? {
          assert MappedFilters(filterFieldIndex, filters[..i + 1]) == before;
        } else {
          assert MappedFilters(filterFieldIndex, filters[..i + 1]) == before + [FilterRefOf(filterFieldIndex, v).value];
        }
        assert Keys(filterRefs, Id) == filterRefs;
        if v.Str? && Contains(v.s, "=") {
          var parts := SplitOnce(v.s, "=");
          var fieldKey := Normalize(parts[0]);
          if fieldKey in filterFieldIndex {
            var expr := filterFieldIndex[fieldKey];
            var value := Strip(parts[1]);
            if expr != "" {
              var r := FilterRef(expr, "=", value);
              DedupByStep(MappedFilters(filterFieldIndex, filters[..i]), r, Id);
              if r !in seen {
                seen := seen + {r};
                filterRefs := filterRefs + [r];
              }
            }
          }
        }
      }
      assert filters[..|filters|] == filters;
    }

    /** `match`: the resolved references, with tokens and time bounds passed
        through untouched. */
    method Match(features: Features) returns (result: MatchResult)
      ensures result.tokens == features.tokens
      ensures result.timeStart == features.timeStart && result.timeEnd == features.timeEnd
      ensures result.refs == SemanticRefsOf(metricIndex, dimensionIndex, filterFieldIndex, timeIndex, features)
    {
      var refs := BuildSemanticRefs(features);
      result := MatchResult(features.tokens, features.timeStart, features.timeEnd, refs);
    }
  }
}
