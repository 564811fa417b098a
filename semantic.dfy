/** The values that flow through the pipeline: the parsed semantic layer
    (entities, datasets, joins), the loosely typed values a YAML loader or the
    feature extractor hands over, and the plan, match and filter records that
    the planner, validator and compiler pass along. A key missing from a
    source dict is the empty string (or `Null` for a `Value`). */
module Semantic {
  import opened Basics
  import opened Text

  /** A loosely typed value: what `dict.get` may return. */
  datatype Value = Null | Bool(b: bool) | Int(i: int) | Str(s: string) | List(items: seq<Value>)

  /** Python truthiness. */
  predicate Truthy(v: Value) {
    match v
    case Null => false
    case Bool(b) => b
    case Int(i) => i != 0
    case Str(s) => s != ""
    case List(items) => items != []
  }

  /** Python's `str(v)`. */
  function PyStr(v: Value): string
    decreases v, 1
  {
    match v
    case Null => "None"
    case Bool(b) => if b then "True" else "False"
    case Int(i) => IntToString(i)
    case Str(s) => s
    case List(items) => "[" + Join(", ", seq(|items|, k requires 0 <= k < |items| => PyRepr(items[k]))) + "]"
  }

  /** Python's `repr(v)` for an element of a list: a string is quoted and
      escaped, anything else is written as by `str`. */
  function PyRepr(v: Value): string
    decreases v, 2
  {
    if v.Str? then
      var q := ReprQuote(v.s);
      [q] + ReprBody(v.s, q) + [q]
    else PyStr(v)
  }

  /** The quote `repr` puts around a string: double quotes when the text has
      a single quote and no double quote, single quotes otherwise. */
  function ReprQuote(s: string): (q: char)
    ensures q == '\'' || q == '"'
    ensures q == '"' <==> '\'' in s && '"' !in s
  {
    if '\'' in s && '"' !in s then '"' else '\''
  }

  /** The Latin-1 characters `repr` does not write as themselves: the C0
      controls, DEL, the C1 controls, the no-break space and the soft hyphen. */
  predicate Unprintable(c: char) {
    c < ' ' || ('\U{7F}' <= c <= '\U{A0}') || c == '\U{AD}'
  }

  /** A lower-case hexadecimal digit. */
  function HexDigit(d: nat): (c: char)
    requires d < 16
  {
    if d < 10 then ('0' as int + d) as char else ('a' as int + d - 10) as char
  }

  /** Reads a lower-case hexadecimal digit back. */
  function HexValue(c: char): (d: nat)
    ensures d < 16
  {
    if '0' <= c <= '9' then c as int - '0' as int
    else if 'a' <= c <= 'f' then c as int - 'a' as int + 10
    else 0
  }

  /** One character of a string inside `repr`'s quote `q`. */
  function ReprChar(c: char, q: char): string {
    if c == q || c == '\\' then ['\\', c]
    else if c == '\t' then "\\t"
    else if c == '\n' then "\\n"
    else if c == '\r' then "\\r"
    else if Unprintable(c) then ['\\', 'x', HexDigit(c as int / 16), HexDigit(c as int % 16)]
    else [c]
  }

  /** The text of a string between `repr`'s quotes. */
  function ReprBody(s: string, q: char): string {
    if s == [] then [] else ReprChar(s[0], q) + ReprBody(s[1..], q)
  }

  /** Reads the text between `repr`'s quotes back: the reference that
      `ReprBody` is checked against. */
  function UnreprBody(t: string): string
    decreases |t|
  {
    if t == [] then []
    else if t[0] == '\\' && |t| >= 2 then
      var e := t[1];
      if e == 't' then "\t" + UnreprBody(t[2..])
      else if e == 'n' then "\n" + UnreprBody(t[2..])
      else if e == 'r' then "\r" + UnreprBody(t[2..])
      else if e == 'x' && |t| >= 4 then [(HexValue(t[2]) * 16 + HexValue(t[3])) as char] + UnreprBody(t[4..])
      else [e] + UnreprBody(t[2..])
    else [t[0]] + UnreprBody(t[1..])
  }

  lemma UnreprChar(c: char, q: char, rest: string)
    requires q == '\'' || q == '"'
    ensures UnreprBody(ReprChar(c, q) + rest) == [c] + UnreprBody(rest)
  {
    var t := ReprChar(c, q) + rest;
    if c == q || c == '\\' || c == '\t' || c == '\n' || c == '\r' {
      assert t[2..] == rest;
    } else if Unprintable(c) {
      var hi, lo := c as int / 16, c as int % 16;
      assert HexValue(HexDigit(hi)) == hi && HexValue(HexDigit(lo)) == lo;
      assert t[4..] == rest;
    } else {
      assert t[1..] == rest;
    }
  }

  /** Reading `repr`'s text back gives the string: nothing is lost or
      confused by the escaping. */
  lemma {:induction false} ReprRoundTrip(s: string, q: char)
    requires q == '\'' || q == '"'
    ensures UnreprBody(ReprBody(s, q)) == s
    decreases |s|
  {
    if s != [] {
      UnreprChar(s[0], q, ReprBody(s[1..], q));
      ReprRoundTrip(s[1..], q);
    }
  }

  /** A character `repr` writes as itself inside quote `q`. */
  predicate Plain(c: char, q: char) {
    c != q && c != '\\' && !Unprintable(c) && !('\t' <= c <= '\r')
  }

  /** Text with nothing to escape is written as it is. */
  lemma {:induction false} ReprBodyPlain(s: string, q: char)
    requires forall i :: 0 <= i < |s| ==> Plain(s[i], q)
    ensures ReprBody(s, q) == s
    decreases |s|
  {
    if s != [] {
      ReprBodyPlain(s[1..], q);
    }
  }

  /** A one-element list is its element's `repr` in brackets. */
  lemma PyStrSingleton(v: Value)
    ensures PyStr(List([v])) == "[" + PyRepr(v) + "]"
  {
    assert seq(1, k requires 0 <= k < 1 => PyRepr([v][k])) == [PyRepr(v)];
  }

  /** A string with a single quote, no double quote and nothing to escape
      is written in double quotes, with the single quote as it is. */
  lemma DoubleQuotedRepr(s: string)
    requires '\'' in s && '"' !in s
    requires forall i :: 0 <= i < |s| ==> Plain(s[i], '"')
    ensures PyStr(List([Str(s)])) == "[\"" + s + "\"]"
  {
    ReprBodyPlain(s, '"');
    PyStrSingleton(Str(s));
  }

  /** The list `["O'Brien"]` is written `["O'Brien"]`, not `['O'Brien']`. */
  lemma ReprQuoteExample()
    ensures PyStr(List([Str("O'Brien")])) == "[\"" + "O'Brien" + "\"]"
  {
    var s := "O'Brien";
    assert s[1] == '\'';
    DoubleQuotedRepr(s);
  }

  /** Python's `str(v or "")`. */
  function StrOrEmpty(v: Value): string {
    if Truthy(v) then PyStr(v) else ""
  }

  /** A field, metric, dimension or time dimension of the layer. `aggType` is a
      metric's `type`; `allowed` is a sensitive field's `allowed` flag. */
  datatype Item = Item(name: string, expr: string, synonyms: seq<Value>, aggType: string, allowed: bool)

  datatype Entity = Entity(name: string, table: string, fields: seq<Item>, sensitiveFields: seq<Item>)

  /** A dataset join. `onTrueKey` is the value stored under the YAML 1.1
      boolean key `True` when an unquoted `on:` was parsed as a boolean. */
  datatype DatasetJoin = DatasetJoin(entity: string, on: string, onTrueKey: string)

  datatype Dataset = Dataset(
    name: string,
    from: string,
    metrics: seq<Item>,
    dimensions: seq<Item>,
    timeDimensions: seq<Item>,
    joins: seq<DatasetJoin>)

  /** The `semantic_layer` mapping; entities and datasets in YAML order. */
  datatype Layer = Layer(entities: seq<Entity>, datasets: seq<Dataset>)

  predicate HasEntity(layer: Layer, name: string) {
    exists i :: 0 <= i < |layer.entities| && layer.entities[i].name == name
  }

  predicate HasDataset(layer: Layer, name: string) {
    exists i :: 0 <= i < |layer.datasets| && layer.datasets[i].name == name
  }

  /** `entities.get(name)`: the entity stored under `name`, if any. */
  function FindEntity(es: seq<Entity>, name: string): (r: Option<Entity>)
    ensures r.Some? ==> r.value in es && r.value.name == name
    ensures r.None? ==> forall i :: 0 <= i < |es| ==> es[i].name != name
  {
    if es == [] then None else if es[0].name == name then Some(es[0]) else FindEntity(es[1..], name)
  }

  /** `datasets.get(name, {})`: the dataset stored under `name`, or an empty one. */
  function FindDataset(ds: seq<Dataset>, name: string): (r: Dataset)
    ensures (exists i :: 0 <= i < |ds| && ds[i].name == name) ==> r in ds && r.name == name
    ensures (forall i :: 0 <= i < |ds| ==> ds[i].name != name) ==> r == Dataset(name, "", [], [], [], [])
  {
    if ds == [] then Dataset(name, "", [], [], [], [])
    else if ds[0].name == name then ds[0]
    else FindDataset(ds[1..], name)
  }

  /** One element of `token_hits["matches"]` or `["blocked_matches"]`. */
  datatype CandidateMatch = CandidateMatch(objectType: string, canonicalName: string, dataset: string, allowed: Value)

  datatype TokenHits = TokenHits(matches: seq<CandidateMatch>, blocked: seq<CandidateMatch>)

  /** One element of `selected_filters`: a dict with optional keys, or some
      other value. `field` and `expr` are `None` when absent or not strings. */
  datatype Filter =
    | NotADict
    | Filter(field: Option<string>, op: string, value: Value, expr: Option<string>, source: string)

  datatype Rejected = Rejected(canonicalName: string, reason: string)

  datatype TimeAxis = NoTimeAxis | TimeAxis(hasTimeFilter: bool, startDate: string, endDate: string)

  /** The plan dict shared by planner, validator and compiler. */
  datatype Plan = Plan(
    metrics: seq<string>,
    dimensions: seq<string>,
    filters: seq<Filter>,
    datasets: seq<string>,
    rejected: seq<Rejected>,
    needsClarification: bool,
    questions: seq<string>,
    confidence: real,
    timeAxis: TimeAxis)

  /** `extracted_features`, as the feature extractor supplies it. */
  datatype Features = Features(
    tokens: seq<Value>,
    metrics: seq<Value>,
    dimensions: seq<Value>,
    filters: seq<Value>,
    timeStart: Value,
    timeEnd: Value,
    limit: Value)
}
