# smartbi core, modelled in Dafny

smartbi turns a loosely matched natural-language request into governed SQL.
This project models the deterministic parts of that pipeline and proves
properties of them:

- the **token matcher** builds alias indices from a parsed semantic layer
  and resolves extracted metric, dimension and filter strings to catalog
  references;
- the **plan builder** turns matcher hits into a plan of de-duplicated
  selections, filters, dataset candidates and rejected candidates;
- the **plan validator** runs an ordered list of rules that produce stable
  error codes;
- the **SQL compiler** turns a plan and the catalog into one SELECT
  statement;
- the **SQL safety helpers** are the regex firewall with `ensure_limit`, the
  quote-aware seed-script splitter, the select-only check with its LIMIT
  rule, and code-fence extraction from the agent's answer;
- the **small selectors and text layout** are the exit-keyword intent rule,
  chart type and field selection, and display-width padding, centring and
  wrapping for the terminal.

## Layout

One module per source file, plus shared modules:

- `Basics`: `Option`, `Result`.
- `Text`: Python's `strip`, `lower`, `in`, `split(sep, 1)`, `join` and
  `str(int)` over `seq<char>`.
- `Seqs`: order-preserving de-duplication, filtering, first-match.
- `Semantic`: the parsed semantic layer, the plan, filters and match
  records as datatypes. Python's loosely typed values become `Value`.

| module | source file | form |
|---|---|---|
| `TokenMatcher` | `app/token_matcher.py` | class `SemanticTokenMatcher` with `const` indices set by its constructor; the builder and resolver loops are methods, each proved equal to a specification function |
| `SqlPlanner` | `app/sql_planner.py` | `UniqueKeepOrder` and `BuildSemanticPlan` are methods with loops; the rest are functions |
| `SemanticValidator` | `app/semantic_validator.py` | methods that thread `errors` and `error_codes` through `AddError`, proved against `Report(Violations(...))` |
| `SqlCompiler` | `app/sql_compiler.py` | lookup building and statement assembly are methods; quoting, aggregation and the skeleton test are functions |
| `SqlFirewall` | `app/sql_firewall.py` | functions; `ValidateSql` keeps the pattern loop |
| `DbInit` | `app/db_init.py` | the character loop `SplitSqlStatements` |
| `QueryExecutor`, `Agent`, `IntentRouter`, `ChartPlanner`, `Charting` | the files of the same names | functions and lemmas |
| `CliUi` | `app/cli_ui.py` | `DisplayWidth`, `WrapDisplay`, `WrapWords` and `CutLine` are loops; padding and centring are functions |

## Model

| member | source | states |
|---|---|---|
| TokenMatcher.NormalizeIdempotent | app/token_matcher.py:160-162 | `_normalize` is idempotent, and its result has no surrounding whitespace |
| TokenMatcher.AliasTextNormalizes | app/token_matcher.py:170 | a non-blank string normalizes to a non-empty alias that is already normalized |
| TokenMatcher.CollectAliasesSpec | app/token_matcher.py:164-170 | the aliases are exactly the normalized non-blank string candidates, drawn from name, synonyms and a non-empty string expr; each is non-empty and normalized; a non-blank name comes first |
| TokenMatcher.SetDefaultsFirstWins | app/token_matcher.py:79-80 | with `setdefault`, a key is present iff some registration names it, and its value comes from the first such registration |
| TokenMatcher.SetDefaultsKeeps | app/token_matcher.py:133 | later registrations never change a key that is already present |
| TokenMatcher.MetricIndexSpec | app/token_matcher.py:122-133 | the metric index holds only payloads whose name, type, expr and dataset are all non-empty, and whose dataset is a dataset of the layer; every alias of every admitted metric is a key |
| TokenMatcher.DimensionIndexSpec | app/token_matcher.py:73-156 | the dimension index holds only payloads with a non-empty name and expr; every alias of every entity field and dataset dimension with both is a key |
| TokenMatcher.FilterFieldIndexAgrees | app/token_matcher.py:76-80 | the filter-field index has exactly the keys of the dimension index, and maps each key to that dimension's expr |
| TokenMatcher.EntityFieldsWin | app/token_matcher.py:57-156 | entity fields are registered first, so a dataset dimension never takes over an alias that an entity field holds |
| TokenMatcher.TimeIndexSpec | app/token_matcher.py:107-109 | `time_index` maps each named dataset with a non-empty time expr to its first such expr, and holds nothing else |
| TokenMatcher.EntriesSpec | app/token_matcher.py:58-145 | every entry's aliases are normalized and non-empty; only sensitive fields can be disallowed |
| TokenMatcher.RegisterAliases | app/token_matcher.py:78-80 | the alias loop yields the index after `setdefault` for each alias in order |
| TokenMatcher.AddDimensionItems | app/token_matcher.py:61-80 | the field and dimension loop appends one entry per item, and registers the aliases of items that have both name and expr in both indices |
| TokenMatcher.AddSensitiveFields | app/token_matcher.py:82-92 | the sensitive-field loop appends entries only |
| TokenMatcher.AddTimeDimensions | app/token_matcher.py:96-109 | the time-dimension loop appends entries and keeps the first non-empty time expr of the dataset |
| TokenMatcher.AddMetrics | app/token_matcher.py:111-133 | the metric loop appends entries and registers the aliases of admitted metrics |
| TokenMatcher.AddEntities | app/token_matcher.py:57-92 | the entity pass gives the entity entries and the entity registrations |
| TokenMatcher.AddDatasets | app/token_matcher.py:94-156 | the dataset pass continues the indices from the entity pass |
| TokenMatcher.BuildEntriesAndIndexes | app/token_matcher.py:38-158 | the builder yields exactly `Entries`, `MetricIndex`, `DimensionIndex`, `FilterFieldIndex` and `TimeIndex` of the layer |
| TokenMatcher.SemanticTokenMatcher.constructor | app/token_matcher.py:28-36 | the matcher's five fields are the specification values of the layer |
| TokenMatcher.FilterRefOf | app/token_matcher.py:217-233 | a filter ref comes from a string containing "="; its expr is the mapped, non-empty expr of the normalized left side, its op is "=", and its value is the stripped right side |
| TokenMatcher.FirstMetricDataset | app/token_matcher.py:241-258 | the scan gives "" iff no string value maps to a metric with a dataset; otherwise it gives such a dataset |
| TokenMatcher.ResolveDataset | app/token_matcher.py:235-258 | the dataset is "" exactly when neither the first metric feature, nor any metric feature, nor any token maps to a metric with a dataset; any non-empty dataset is one the index names |
| TokenMatcher.TimeFieldOf | app/token_matcher.py:260 | there is no time field for an empty dataset; a non-empty one is the dataset's entry in `time_index` |
| TokenMatcher.ScanMetricDataset | app/token_matcher.py:242-258 | the loops with `break` give `FirstMetricDataset` |
| TokenMatcher.MetricRefsSpec | app/token_matcher.py:176-194 | no two metric refs share a name; each is the index payload of a non-blank metric feature; every resolving feature is represented by a ref with its name |
| TokenMatcher.DimensionRefsSpec | app/token_matcher.py:196-213 | no two dimension refs share an expr; each comes from a non-blank feature; every resolving feature is represented |
| TokenMatcher.FilterRefsSpec | app/token_matcher.py:215-233 | each filter ref occurs once and comes from a filter string containing "="; every resolving filter string is represented |
| TokenMatcher.SemanticTokenMatcher.BuildSemanticRefs | app/token_matcher.py:172-269 | the three loops and the dataset resolution yield `SemanticRefsOf` of the matcher's indices |
| TokenMatcher.SemanticTokenMatcher.ResolveMetrics | app/token_matcher.py:176-194 | the metric loop with its seen set is `DedupBy(MappedMetrics, name)` |
| TokenMatcher.SemanticTokenMatcher.ResolveDimensions | app/token_matcher.py:196-213 | the dimension loop with its seen set is `DedupBy(MappedDimensions, expr)` |
| TokenMatcher.SemanticTokenMatcher.ResolveFilters | app/token_matcher.py:215-233 | the filter loop with its seen set is `Dedup(MappedFilters)` |
| TokenMatcher.SemanticTokenMatcher.Match | app/token_matcher.py:271-278 | tokens, `time_start` and `time_end` are passed through unchanged, next to the resolved refs |
| Seqs.DedupSpec | app/sql_planner.py:6-13 | each input value appears exactly once, nothing else appears, and values keep the order of their first occurrence |
| Seqs.DedupBySpec | app/token_matcher.py:185-187 | de-duplication by key keeps the first element of each key, in order, with each key once |
| SqlPlanner.UniqueKeepOrder | app/sql_planner.py:6-13 | the seen-set loop yields `Dedup(values)` |
| SqlPlanner.SelectableNames | app/sql_planner.py:58-63 | a name is listed iff some match has the requested type, `allowed` is not False, and that non-empty canonical name |
| SqlPlanner.MatchDatasets | app/sql_planner.py:65-67 | a dataset is listed iff some match carries it, whatever its type or `allowed` |
| SqlPlanner.TimeFilterFromBounds | app/sql_planner.py:34-49 | exactly one `between` filter on `calendar.biz_date` with the stripped bounds when both are non-blank, otherwise none |
| SqlPlanner.BuildSemanticPlan | app/sql_planner.py:52-111 | the loop over text filters and the rest of the builder yield `SemanticPlan` |
| SqlPlanner.PlanSelections | app/sql_planner.py:58-63 | the selected metrics and dimensions are exactly the canonical names of the selectable matches, each once |
| SqlPlanner.PlanDatasets | app/sql_planner.py:65-67 | dataset candidates are exactly the datasets of the matches, each once |
| SqlPlanner.TextFiltersShape | app/sql_planner.py:69-72 | one filter per non-blank string, in order: the i-th filter's expression is the i-th non-blank string, stripped; every such filter is tagged `step_b_filters`, has no field and a non-empty expression |
| SqlPlanner.PlanFilters | app/sql_planner.py:69-79 | the text filters come first, the i-th carrying the i-th non-blank string stripped; then the `between` filter on `calendar.biz_date` iff both bounds are non-blank |
| SqlPlanner.PlanClarificationAndConfidence | app/sql_planner.py:91-100 | clarification is needed iff nothing is selected, with one question then; confidence is 0.8 with a selection, 0.0 iff there are no matches, else 0.4 |
| SqlPlanner.RejectedShape | app/sql_planner.py:81-89 | every blocked match with a canonical name is rejected with reason `sensitive_or_disallowed`, and nothing else is |
| Semantic.ReprQuote | app/sql_compiler.py:25 | `str` of a list quotes each string element in double quotes iff it holds a single quote and no double quote, otherwise in single quotes |
| Semantic.ReprRoundTrip | app/sql_compiler.py:25 | the escaped text of a string element reads back to the string: backslash, the chosen quote, tab, newline, return and the unprintable Latin-1 characters are escaped reversibly |
| Semantic.ReprBodyPlain | app/sql_compiler.py:25 | a string with nothing to escape is written as it is |
| Semantic.DoubleQuotedRepr | app/sql_compiler.py:25 | a one-string list whose string has a single quote, no double quote and nothing to escape is written `["s"]` |
| Semantic.ReprQuoteExample | app/sql_compiler.py:25 | `["O'Brien"]` is written with double quotes |
| Semantic.FindEntity | app/sql_compiler.py:83 | `entities.get(name)` finds an entity of that name, or there is none |
| Semantic.FindDataset | app/semantic_validator.py:44 | `datasets.get(name, {})` finds a dataset of that name, or gives an empty one |
| SemanticValidator.Report | app/semantic_validator.py:240-244 | one message per violation in order; `ok` iff there are none; the codes are exactly those that occur, each once |
| SemanticValidator.CodesSpec | app/semantic_validator.py:130-133 | `_add_error` lists every code that occurs and no other, each once |
| SemanticValidator.MessagesSpec | app/semantic_validator.py:133 | every violation's message is recorded, in order |
| SemanticValidator.AddError | app/semantic_validator.py:130-133 | the message is always appended, and the code only when it is new |
| SemanticValidator.DatasetFromCanonicalName | app/semantic_validator.py:6-10 | the dataset is the non-empty text before the first "."; there is none iff the name has no "." or starts with one |
| SemanticValidator.SpanDataset | app/semantic_validator.py:25-33 | a prefix joins the span unless it names an entity, or the layer lists datasets and it is none of them |
| SemanticValidator.CollectSpanPrefix | app/semantic_validator.py:34-35 | the loop keeps the initial list as a prefix and appends only new values |
| SemanticValidator.SelectedDatasetsSpec | app/semantic_validator.py:13-36 | the selection is the non-empty candidates plus the span datasets of the selected metrics and dimensions, and nothing else |
| SemanticValidator.AppendSpanDatasets | app/semantic_validator.py:24-35 | the loop over one key yields `CollectSpan` |
| SemanticValidator.CollectSelectedDatasets | app/semantic_validator.py:13-36 | `_collect_selected_datasets` yields `SelectedDatasets` |
| SemanticValidator.CommonSpec | app/semantic_validator.py:58 | `set.intersection` holds exactly the elements common to every set |
| SemanticValidator.NoJoinEntitiesNoPath | app/semantic_validator.py:51-52 | a selected dataset without join entities rules the join path out |
| SemanticValidator.JoinPathSpec | app/semantic_validator.py:39-59 | with datasets selected, a join path is exactly an entity that every selected dataset joins to |
| SemanticValidator.HasJoinPath | app/semantic_validator.py:39-59 | the loop with its early `return False` yields `JoinPathExists` |
| SemanticValidator.ItemNamesSpec | app/semantic_validator.py:70-73 | `dataset.name` is listed for exactly the items with a non-blank stripped name |
| SemanticValidator.ValidMetricsSpec | app/semantic_validator.py:69-73 | a valid metric is `dataset.metric` for some metric of some dataset |
| SemanticValidator.ValidDimensionsSpec | app/semantic_validator.py:74-87 | a valid dimension is `dataset.dimension`, `dataset.time_dimension` or `entity.field` |
| SemanticValidator.AddItemNames | app/semantic_validator.py:70-73 | the item loop adds exactly `ItemNames` |
| SemanticValidator.BuildValidCanonicalSets | app/semantic_validator.py:62-89 | the loops yield `ValidMetrics` and `ValidDimensions` |
| SemanticValidator.HasCompilableSelectItem | app/semantic_validator.py:92-96 | there is no compilable item without a non-blank first dataset candidate |
| SemanticValidator.HasCompilableSelectItemSpec | app/semantic_validator.py:92-117 | compilable iff some selected metric is a metric of the primary dataset, or some selected dimension is one of its plain dimensions (time dimensions do not count) |
| SemanticValidator.NotIn | app/semantic_validator.py:173-174 | the invalid metrics and dimensions are exactly the selections outside the valid set |
| SemanticValidator.CheckedField | app/semantic_validator.py:176-184 | only a dict filter whose stripped string field contains "." is checked |
| SemanticValidator.InvalidFilterFields | app/semantic_validator.py:175-186 | exactly the checked fields that are not valid dimensions |
| SemanticValidator.CollectInvalidFilterFields | app/semantic_validator.py:175-186 | the loop yields `InvalidFilterFields` |
| SemanticValidator.CollectInvalidRefs | app/semantic_validator.py:172-189 | the invalid references are metrics, then dimensions, then filter fields |
| SemanticValidator.AddErrorIf | app/semantic_validator.py:149-150 | a conditional `_add_error` records the rule's violation iff its condition holds |
| SemanticValidator.CheckTimeRules | app/semantic_validator.py:143-155 | the time-filter and time-axis rules, in order |
| SemanticValidator.CheckSelection | app/semantic_validator.py:157-169 | the empty-selection and join rules, in order |
| SemanticValidator.CheckJoinPath | app/semantic_validator.py:162-169 | the join rule fires for several datasets with a layer and no join path |
| SemanticValidator.CheckBaseRules | app/semantic_validator.py:143-169 | the rules that need no layer, in order |
| SemanticValidator.CheckFilter | app/semantic_validator.py:216-235 | the if/elif chain records exactly `FilterViolation` for one filter |
| SemanticValidator.CheckFilters | app/semantic_validator.py:216-235 | the filter loop records the filter violations in filter order |
| SemanticValidator.CheckCatalogRules | app/semantic_validator.py:171-238 | the catalog rules, in order |
| SemanticValidator.ValidateSemanticPlan | app/semantic_validator.py:120-244 | the result is `Report(Violations(...))` |
| SemanticValidator.FilterViolationSpec | app/semantic_validator.py:216-235 | each filter gets at most one code: BETWEEN iff between without two values; VALUE iff a comparison with None or an `in` without a non-empty list; SHAPE iff not a dict, or an unknown op with no non-blank expr |
| SemanticValidator.FilterCodes | app/semantic_validator.py:216-235 | over a list of filters, each filter code occurs iff some filter is bad in that way, and no other code occurs |
| SemanticValidator.FilterViolationsEmpty | app/semantic_validator.py:216-235 | the filter rules record nothing iff no filter is bad |
| SemanticValidator.BaseCodes | app/semantic_validator.py:143-169 | each of the four base codes occurs iff its condition holds |
| SemanticValidator.CatalogCodes | app/semantic_validator.py:171-238 | each catalog code occurs iff its condition holds |
| SemanticValidator.BlockedShortCircuit | app/semantic_validator.py:135-141 | a blocked match gives not ok, one error, and exactly `["BLOCKED_MATCH"]`, and no later rule runs |
| SemanticValidator.ReportedCode | app/semantic_validator.py:143-238 | without a blocked match, the codes are those of the base rules plus, with a layer, those of the catalog rules |
| SemanticValidator.TimeFilterReported | app/semantic_validator.py:143-150 | TIME_FILTER_REQUIRED iff the time filter is required, there is a selection context, and there are no filters |
| SemanticValidator.TimeAxisReported | app/semantic_validator.py:152-155 | TIME_AXIS_INCOMPLETE iff `has_time_filter` is set and a bound is empty |
| SemanticValidator.EmptySelectionReported | app/semantic_validator.py:157-160 | EMPTY_SELECTION iff there are no metrics and no dimensions |
| SemanticValidator.JoinPathReported | app/semantic_validator.py:162-169 | MULTI_DATASET_NO_JOIN_PATH iff more than one dataset is selected, a layer is given, and there is no join path |
| SemanticValidator.InvalidRefReported | app/semantic_validator.py:171-190 | INVALID_CANONICAL_REF iff there is a layer and some reference is not in it |
| SemanticValidator.MismatchReported | app/semantic_validator.py:192-214 | DATASET_MISMATCH iff there is a layer and a dotted metric or non-entity dimension names another dataset than the first candidate |
| SemanticValidator.CompilableReported | app/semantic_validator.py:237-238 | NO_COMPILABLE_SELECT iff there is a layer and no select item compiles |
| SemanticValidator.FilterBetweenReported | app/semantic_validator.py:223-225 | INVALID_FILTER_BETWEEN iff there is a layer and some between filter lacks two values |
| SemanticValidator.FilterValueReported | app/semantic_validator.py:226-231 | INVALID_FILTER_VALUE iff there is a layer and some comparison or `in` filter lacks its value |
| SemanticValidator.FilterShapeReported | app/semantic_validator.py:216-235 | INVALID_FILTER_SHAPE iff there is a layer and some filter is not a dict, or has an unknown op and no expr |
| SemanticValidator.OtherCodesNotReported | app/semantic_validator.py:126-244 | without a blocked match, no code outside the ten rule codes is reported |
| SemanticValidator.OkSpec | app/semantic_validator.py:240-241 | without a blocked match, ok iff no rule fires |
| SqlCompiler.Escape | app/sql_compiler.py:25 | every `'` is doubled, and nothing else changes |
| SqlCompiler.UnescapeEscape | app/sql_compiler.py:25-26 | reading an escaped text back gives the text |
| SqlCompiler.QuoteSqlValueSpec | app/sql_compiler.py:20-26 | None is NULL; numbers and booleans are written out; anything else is a single-quoted literal that reads back as its text |
| SqlCompiler.NormalizeMetricExprSpec | app/sql_compiler.py:104-114 | sum, avg, count_distinct and count (trimmed, any case) wrap the expr in SUM, AVG, COUNT(DISTINCT …) and COUNT; any other type leaves it unchanged |
| SqlCompiler.AssignLastWins | app/sql_compiler.py:41-69 | with dict assignment, the last pair for a key decides its value |
| SqlCompiler.ExprPairsSpec | app/sql_compiler.py:44-55 | only items with a non-blank expr are registered, under `owner.name`, with the stripped expr |
| SqlCompiler.TypePairsKeys | app/sql_compiler.py:36-42 | the metric type map has exactly the keys of the metric expr map |
| SqlCompiler.LookupMetricsSpec | app/sql_compiler.py:36-42 | a metric is in the lookup iff it has a non-blank expr; stored exprs are non-blank and stripped |
| SqlCompiler.LookupDimensionsSpec | app/sql_compiler.py:44-69 | every dimension, time dimension and entity field with a non-blank expr is in the lookup; stored exprs are non-blank and stripped |
| SqlCompiler.FirstTimeExprSpec | app/sql_compiler.py:57-62 | the first time expr is "" iff every time expr is blank, and otherwise the stripped first non-blank one |
| SqlCompiler.JoinClausesPrefix | app/sql_compiler.py:74-87 | join clauses keep the dataset's join order |
| SqlCompiler.JoinClausesMembers | app/sql_compiler.py:74-87 | a clause is rendered for exactly the joins with an entity, an `on` clause (the `True` key as fallback) and an entity table, as `LEFT JOIN table ON clause` |
| SqlCompiler.CalendarJoinOnSpec | app/sql_compiler.py:88-89 | the calendar `on` clause is set iff some rendered join goes to `calendar` |
| SqlCompiler.AddMetricLookups | app/sql_compiler.py:36-42 | the metric loop yields both metric dicts |
| SqlCompiler.AddExprLookups | app/sql_compiler.py:44-55 | the dimension and time-dimension loops assign every registered pair |
| SqlCompiler.AddFieldLookups | app/sql_compiler.py:64-69 | the entity loop assigns every entity field pair |
| SqlCompiler.FindFirstTimeExpr | app/sql_compiler.py:57-62 | the loop with `break` finds `FirstTimeExprOf` |
| SqlCompiler.AddJoinLookups | app/sql_compiler.py:71-89 | the join loop yields the rendered clauses and the calendar `on` clause |
| SqlCompiler.BuildSemanticLookup | app/sql_compiler.py:29-101 | `_build_semantic_lookup` yields `Lookup` |
| SqlCompiler.CollectDimensions | app/sql_compiler.py:143-149 | the dimension loop yields the select items and GROUP BY exprs |
| SqlCompiler.CollectMetrics | app/sql_compiler.py:153-162 | the metric loop appends the metric items |
| SqlCompiler.CollectWhereParts | app/sql_compiler.py:167-186 | the filter loop yields `WhereParts` |
| SqlCompiler.CollectNonCalendarJoins | app/sql_compiler.py:192-195 | the skeleton's join loop skips only the calendar join |
| SqlCompiler.CollectFromLines | app/sql_compiler.py:189-198 | FROM and join lines for both branches |
| SqlCompiler.AssembleLines | app/sql_compiler.py:188-204 | the statement lines, built one append at a time |
| SqlCompiler.CompileSqlFromSemanticPlan | app/sql_compiler.py:127-206 | the method yields `Compile`, with the raised `ValueError` as `Err` |
| SqlCompiler.SelectDimensionsSpec | app/sql_compiler.py:143-149 | each dimension item starts with its GROUP BY expr, and the two lists have equal length |
| SqlCompiler.GroupByExprsSpec | app/sql_compiler.py:143-149 | GROUP BY lists exactly the exprs of the resolving dimensions, and is empty iff none resolves |
| SqlCompiler.SelectMetricsSpec | app/sql_compiler.py:153-162 | one item per resolving metric, each its own item; none when no metric resolves |
| SqlCompiler.SelectOrder | app/sql_compiler.py:143-162 | select items and GROUP BY exprs keep plan order |
| SqlCompiler.MetricPartCoalesce | app/sql_compiler.py:159-160 | under the skeleton exactly the sum, avg, count and count_distinct metrics become `COALESCE(…, 0)` |
| SqlCompiler.WherePartSpec | app/sql_compiler.py:168-186 | a filter is dropped iff it is not a dict, or is none of a two-bound between, a comparison, a non-empty `in`, or a non-blank expr; the field maps through the lookup or is used verbatim |
| SqlCompiler.WherePartsSpec | app/sql_compiler.py:167-186 | one WHERE condition per filter that is not dropped, in filter order |
| SqlCompiler.NonCalendarJoinTextsSpec | app/sql_compiler.py:192-195 | the skeleton keeps the text of every clause except the calendar one, in order |
| SqlCompiler.JoinClausesLeftJoin | app/sql_compiler.py:87 | every rendered clause is a LEFT JOIN |
| SqlCompiler.FromLinesSpec | app/sql_compiler.py:189-198 | FROM first, then only LEFT JOIN lines; under the skeleton FROM names the calendar table and the dataset is joined to it |
| SqlCompiler.StatementLinesSpec | app/sql_compiler.py:188-206 | SELECT, FROM lines, an optional WHERE and an optional GROUP BY, and nothing else (no LIMIT) |
| SqlCompiler.StatementLinesGroupBy | app/sql_compiler.py:203-204 | GROUP BY is the last line iff there are GROUP BY exprs |
| SqlCompiler.CompileSpec | app/sql_compiler.py:131-165 | compilation fails with the exact message iff there is no dataset candidate, no from clause, or no resolving dimension or metric |
| SqlCompiler.CompiledLinesSpec | app/sql_compiler.py:188-206 | the compiled statement has that clause structure for every plan with a dataset |
| SqlCompiler.CalendarSkeletonSpec | app/sql_compiler.py:117-124 | the skeleton is used iff the dataset is `deposit_balance_daily`, with a calendar table and join, and the first time expr is grouped |
| SqlFirewall.ValidateSql | app/sql_firewall.py:15-23 | the checks run in order and report the first failure; ok iff there is none |
| SqlFirewall.FirstBlockingSpec | app/sql_firewall.py:20-22 | the reported pattern matches, and no earlier pattern does |
| SqlFirewall.VerdictSpec | app/sql_firewall.py:15-23 | passes iff not blank, starts with the whole word SELECT or WITH, and no pattern matches; blank gives "SQL is empty" |
| SqlFirewall.VerdictIgnoresCase | app/sql_firewall.py:5-12 | lower-casing the statement does not change the verdict |
| SqlFirewall.PatternAtLower | app/sql_firewall.py:6-12 | each block pattern matches case-insensitively |
| SqlFirewall.AppendedLimit | app/sql_firewall.py:30 | the appended `\nLIMIT n` is a LIMIT word, and the text ends with a digit |
| SqlFirewall.EnsureLimitSpec | app/sql_firewall.py:26-30 | the result never ends with `;` and always contains the word LIMIT |
| SqlFirewall.EnsureLimitKeepsCleaned | app/sql_firewall.py:27-30 | the result starts with the cleaned text, and equals it iff that already had a LIMIT word |
| DbInit.Step | app/db_init.py:15-19 | only quotes change the scan state, and a quote of the other kind inside a quoted region does not |
| DbInit.StateAfterExclusive | app/db_init.py:15-19 | the scan is never inside both kinds of quote |
| DbInit.SplitSqlStatements | app/db_init.py:9-33 | the character loop yields `SplitSql` |
| DbInit.SegmentsJoin | app/db_init.py:21-28 | the pieces joined with `;` give the script back: only separators are removed, and order is kept |
| DbInit.SegmentsCount | app/db_init.py:21-32 | there is one more piece than there are unquoted semicolons |
| DbInit.KeepSpec | app/db_init.py:22-24 | kept statements are non-empty and stripped |
| DbInit.SplitSqlSpec | app/db_init.py:22-32 | every statement is non-empty and stripped; there are at most one more statements than unquoted semicolons |
| DbInit.SplitSqlWhole | app/db_init.py:30-33 | without an unquoted `;` the result is `[s.strip()]`, or `[]` if blank |
| DbInit.QuotedSemicolonKept | app/db_init.py:16-21 | a `;` inside single quotes is not a separator |
| QueryExecutor.NormalizedIdempotent | app/query_executor.py:36 | normalizing twice is normalizing once |
| QueryExecutor.IsSafeSelectNormalized | app/query_executor.py:36 | the verdict depends only on the trimmed, lower-cased text |
| QueryExecutor.IsSafeSelectSpec | app/query_executor.py:36-40 | an accepted statement starts with `select` and contains no `;` at all |
| QueryExecutor.IsSafeSelectRejectsKeyword | app/query_executor.py:39-40 | a space-delimited insert/update/delete/drop/alter/create is refused |
| QueryExecutor.TrailingSemicolonRejected | app/query_executor.py:39-40 | `"SELECT col FROM t;"` is refused |
| QueryExecutor.Run | app/query_executor.py:42-54 | an error iff the SQL is not a safe select, and then the fixed message; otherwise the executed text starts with the trimmed SQL, still starts with `select`, holds no `;`, and equals the trimmed SQL iff that already has a ` limit ` |
| QueryExecutor.LimitedSqlSafe | app/query_executor.py:36-54 | limiting a safe statement keeps it a prefix-preserving, `;`-free `select`, and adds nothing exactly when ` limit ` is already present |
| QueryExecutor.LimitedSqlSpec | app/query_executor.py:52-54 | the trimmed SQL, extended by `\nLIMIT n` iff it has no ` limit ` in any case |
| Agent.ExtractSqlPlain | app/agent.py:38-44 | an answer without a fence is returned merely stripped |
| Agent.ExtractSqlTagged | app/agent.py:40-41 | with a `sql` fence, the stripped text between it and the next fence, or the end |
| Agent.ExtractSqlUntagged | app/agent.py:42-43 | otherwise, the stripped text between the first and second fence, or the end |
| Agent.ExtractSqlSpec | app/agent.py:38-44 | the result never contains a fence and has no surrounding whitespace |
| IntentRouter.ClassifyIntent | app/intent_router.py:46-49 | an exit keyword gives EXIT at full confidence without consulting the model; otherwise the model's answer is returned |
| IntentRouter.RuleBasedIntentSpec | app/intent_router.py:21-43 | the rule answers iff the normalized input is an exit keyword, and then only with EXIT at 1.0; blank input gets no answer |
| IntentRouter.RuleBasedIntentNormalized | app/intent_router.py:22 | case and surrounding whitespace do not matter |
| IntentRouter.ExitExample | app/intent_router.py:22-36 | `"  QUIT "` is an exit |
| ChartPlanner.NumericColsSpec | app/chart_planner.py:25-26 | a column is numeric iff the first row has a number under it; bools are not numbers |
| ChartPlanner.NumericColsOfPair | app/chart_planner.py:26 | a row of a non-number then a number has that one numeric column |
| ChartPlanner.BuildChartSpecEmpty | app/chart_planner.py:22-30 | no rows gives an empty table titled with " (empty)"; otherwise the title is kept; no numeric column gives a table |
| ChartPlanner.BuildChartSpecChoice | app/chart_planner.py:32-41 | a line over the first time-like non-numeric column, else a bar over the first non-numeric column, each against the first numeric column; a table of at most three numeric columns when every column is numeric |
| ChartPlanner.LineOverTimeColumn | app/chart_planner.py:32-36 | a time-named text column and a number give a line |
| ChartPlanner.BarOverOtherColumn | app/chart_planner.py:38-39 | another text column and a number give a bar |
| ChartPlanner.TimeDimensionExample | tests/test_chart_planner.py:5-17 | `biz_date` against `deposit_balance` is a line |
| ChartPlanner.CategoricalDimensionExample | tests/test_chart_planner.py:20-32 | `region` against `txn_count` is a bar |
| Charting.PickFieldsSpec | app/charting.py:12-21 | fields iff there are rows and columns; x is the first column with no number in any row, else the first; y is the first column with a number, else the second, else the first; both are columns |
| Charting.BuildChartSpecNone | app/charting.py:24-30 | no chart without rows or without usable fields |
| Charting.BuildChartSpecShape | app/charting.py:32-61 | `auto` is a line iff x mentions date or time, else a bar; a pie is an arc (theta y, colour x, no tooltip); bar and line keep their mark, other types become points; the tooltip lists every column |
| CliUi.DisplayWidth | app/cli_ui.py:18-28 | the loop yields `DisplayWidthOf`: SGR sequences and combining characters count 0, wide characters 2, others 1 |
| CliUi.StripAnsiNarrows | app/cli_ui.py:18-28 | removing colour codes never widens a text |
| CliUi.PadToWidthSpec | app/cli_ui.py:31-35 | a wide-enough text is kept; otherwise spaces are appended, and the width becomes max(dw, width) |
| CliUi.CenterToWidthSpec | app/cli_ui.py:38-46 | a wide-enough text is kept; otherwise half the missing columns (rounded down) go left and the rest right, so right − left is 0 or 1 and the width becomes exactly `width` |
| CliUi.SplitSpacesSpec | app/cli_ui.py:55 | the tokens joined with single spaces give the text, and no token holds a space |
| CliUi.WordLinesSpec | app/cli_ui.py:58-68 | every word-wrapped line is non-empty, and either fits or is a single token |
| CliUi.WordFoldLayout | app/cli_ui.py:55-68 | the lines are a greedy layout of the tokens: each line is the tokens of one run of consecutive indices joined by single spaces; the runs are in order and only empty tokens lie outside them; a token joins a line only when the joined text fits `width`; a line ends only before a token that would push it past `width` |
| CliUi.WrapWords | app/cli_ui.py:55-68 | the word loop yields `WordLines` |
| CliUi.CutLine | app/cli_ui.py:77-90 | the character loop yields `HardPieces` |
| CliUi.WrapDisplay | app/cli_ui.py:49-91 | `_wrap_display` yields `Wrap` |
| CliUi.CutFoldConcat | app/cli_ui.py:78-90 | the cut pieces concatenate back to the line |
| CliUi.CutFoldFits | app/cli_ui.py:80-88 | when no character is wider than the width, pieces are non-empty and each fits |
| CliUi.HardPiecesSpec | app/cli_ui.py:78-90 | the pieces of a cut line give the line back and, under that proviso, each fits |
| CliUi.HardAllConcat | app/cli_ui.py:70-91 | the hard-wrap pass keeps every character, in order |
| CliUi.HardAllKeeps | app/cli_ui.py:72-75 | a line that fits is kept verbatim |
| CliUi.HardAllFits | app/cli_ui.py:70-91 | when no character is wider than the width, every line fits |
| CliUi.WrapSpec | app/cli_ui.py:49-91 | width ≤ 0 gives `[s]`; the result is never empty; empty text gives `[""]` |
| CliUi.WrapFits | app/cli_ui.py:70-91 | when no character is wider than the width, every wrapped line fits |

## Left out

- YAML and file loading (`app/semantic_loader.py`, the `open`/`yaml.safe_load` in the matcher's builder): the matcher's constructor takes an already-parsed `Layer`.
- `ensure_database_initialized` in `app/db_init.py`: database I/O.
- The pymysql connection and execution in `run`: `Run` stops at the text that would be executed.
- The LangChain agent, `app/llm_service.py` and FastAPI in `app/main.py`: network I/O.
- The model's JSON classification in `classify_intent`: the model's answer is the parameter `llmResult`.
- `app/config.py` and `app/schemas.py`: environment configuration and pydantic schemas, with no logic to model.
- `app/chart_renderer.py`, `summarize_insight`, `print_startup_ui`, `_supports_color` and `_clear_screen`: rendering, floats and terminal I/O.
- Floats: `QueryExecutor.Cell.FloatCell` carries no value, only the fact that it is a number. `SqlCompiler.QuoteSqlValue` writes integers and booleans (as `True`/`False`), never floats.
- Unicode case and word characters: `lower()`, the regex class `\w` and `re.IGNORECASE` are modelled over ASCII. Whitespace (`strip()`, `split()` and the regex class `\s`) follows Python's full `str.isspace` set (`Text.IsSpace`).
- Semantic.PyRepr: printable characters above U+00FF that Python escapes as `\u`/`\U` (unassigned code points, line and paragraph separators, other non-printables) are written verbatim.
- TokenMatcher: an item without a `name` gives the alias `owner.None` in the source and `owner.` in the model; a missing name is the empty string. Names that are not strings, and list entries that are not mappings, are excluded by the types (`Item.name: string`, `seq<Item>`); the source would format such a name with `str()`.
- The character-width functions `unicodedata.combining` and `east_asian_width` are the parameter `classify`.
- CliUi.PadToWidthSpec and CliUi.CenterToWidthSpec assume that `classify` makes the space character one column wide, as Unicode does.
- CliUi.CutFoldFits, CliUi.HardAllFits and CliUi.WrapFits assume that no character is wider than `width`. Without that, the source can emit an empty piece before a character that alone exceeds the width; the model keeps that behaviour and proves the concatenation laws without the proviso.
- Semantic.Filter: a filter `field` that is not a string is modelled as absent. The validator skips such fields. The compiler would use `str(field)`, and that rendering is not modelled.
- TokenMatcher.TimeIndexSpec and the lookups by dataset name assume distinct dataset names, as the keys of a YAML mapping are.
- QueryExecutor.LimitedSqlSpec looks only for ` limit ` with a space on each side, as the source does. A LIMIT next to a newline or tab is not recognised and a second LIMIT is appended.
- tests/test_query_executor.py:7 expects `"SELECT col FROM t;"` to be accepted, but the code refuses every `;`. The model follows the code; see `QueryExecutor.TrailingSemicolonRejected`.
- Code that some tests import but that is absent from the source is not part of this model: `merge_llm_selection_into_plan`, `_normalize_single_select_sql`, a `limit=` parameter of the compiler, the main diagnostics helpers, `Settings`, and a `time_range` fallback in the planner.
- `_build_time_filter_from_bounds` is defined twice with the same body. Only the second definition, which is in force, is modelled.
