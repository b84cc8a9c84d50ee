# arel_helpers, modelled in Dafny

`arel_helpers` is a Ruby gem of small helpers over Arel, the SQL tree library of
ActiveRecord, for PostgreSQL. It has four parts:

- `ArelHelpers::QueryBuilder` builds expression trees over the columns of one
  model's table. It covers function calls, COALESCE and CONCAT, CASE, quoting,
  NULL tests, boolean counts and sums, and date ranges. It also builds keyset
  cursor conditions (`earlier_entries` and `later_entries`) and `array_position`
  and `idx` orderings.
- `ArelHelpers::ActiveRecordHelpers` gives every model a memoised query builder,
  plus `CAST`, `CROSS JOIN` and sub-select helpers.
- A `TextArray` node with a visitor rule that prints `ARRAY[v1,v2,...]::text[]`.
- Four JSON operator nodes (`->`, `->>`, `#>`, `#>>`). Each node class declares
  its operator through a class-level configuration. They come with the
  `json_get*` predications and their infix visitor rules.

The model is organised as follows:

- `Nodes` holds the Arel tree and Arel's PostgreSQL visitor as a total
  function `Render` that returns either the SQL text or an error. A raw Ruby
  value the visitor cannot print (a String left unquoted, say) is an error.
- `Values` holds the connection's quoting of literals, table names and column
  names. Quoting a string is proved to read back through a SQL lexer
  (`QuotedStringReadsBack`).
- `Semantics` evaluates a built condition against one row with SQL's
  three-valued logic. Each date helper is proved to select what it promises
  when the column and the bound are of the same kind. On a date column,
  `date_in_year` selects the year. On a timestamp column, `date_on_day`
  selects the day, and `earlier_entries` / `later_entries` select the rows
  strictly before / after a (timestamp, id) cursor. On comparable values the
  two cursors split the table. A date bound against a timestamp column (such
  as `date_in_year` on `published_at`) compares a date with a timestamp. The
  model leaves that comparison UNKNOWN, so it says nothing about those rows
  (see "Left out").
- The memoised `@query_builder ||=`, the operator configuration of the JSON
  node classes, and the text-array visitor's collector loop are imperative.
  They are Dafny classes and a method with loop invariants, each proved
  against the functions above.

Tests of the gem (`spec/integration/*.rb`) are restated as example lemmas and
proved from the general rendering lemmas.

`date_before_interval` / `date_after_interval` document their interval as a
String such as `'6 months'` (lib/arel_helpers/query_builder.rb:145 and :177).
The code passes the interval through `build_quoted`, so what follows
`INTERVAL ` depends on its type:

- A String prints single-quoted: `INTERVAL '6 months'`.
- An `ActiveSupport::Duration`, which the tests pass, prints as its number of
  seconds. For `30.days` that is `INTERVAL 2592000`
  (spec/integration/query_builder_spec.rb:182 and :233).

The model prints what the code prints in both cases. The bare number is not
the quoted string that PostgreSQL's `INTERVAL '...'` literal syntax takes.

## Model

| member | source | states |
|---|---|---|
| Nodes.BuildQuoted | lib/arel_helpers/arel/nodes/text_array.rb:7-9 | `build_quoted` keeps a node and wraps a plain value to be quoted |
| Values.Quote | lib/arel_helpers/query_builder.rb:305-308 | the connection's literal quoting: strings and symbols single-quoted with `'` doubled, numbers and durations bare, dates quoted, nil as NULL |
| Values.QuotedStringReadsBack | lib/arel_helpers/query_builder.rb:305-308 | a quoted string literal reads back to exactly the original string, and the lexer stops at its end, whatever follows |
| Builder.QueryBuilder.constructor | lib/arel_helpers/query_builder.rb:12-14 | the builder is bound to its model's table |
| Builder.QueryBuilder.Column | lib/arel_helpers/query_builder.rb:288 | `arel_table[name]` is the attribute of that name on the builder's table |
| Builder.QueryBuilder.EnsureArelAttribute | lib/arel_helpers/query_builder.rb:285-291 | a node other than raw SQL passes through. Raw SQL is a Ruby String, so it names a column of the table, as a String or Symbol does. Any other value names the column its `to_s` gives |
| Builder.EnsureArelAttributeIdempotent | lib/arel_helpers/query_builder.rb:285-291 | applying `ensure_arel_attribute!` to its own result changes nothing |
| Builder.QueryBuilder.Function | lib/arel_helpers/query_builder.rb:20-22 | a named function holding every argument unchanged, in order |
| Builder.FunctionRendering | lib/arel_helpers/query_builder.rb:20-22 | `function` prints `name(a1, ..., an)` with the arguments' texts in order |
| Builder.FunctionRawStringFails | lib/arel_helpers/query_builder.rb:20-22 | `function` quotes nothing: a raw String argument makes printing fail |
| Builder.QueryBuilder.MapStringsToQuotedNodes | lib/arel_helpers/query_builder.rb:316-324 | exactly the String arguments become quoted literals; all others are kept, with count and order preserved |
| Builder.QueryBuilder.Coalesce | lib/arel_helpers/query_builder.rb:28-32 | COALESCE over the arguments: Strings quoted, the rest as given, count and order kept |
| Builder.QueryBuilder.Concat | lib/arel_helpers/query_builder.rb:34-38 | CONCAT over the arguments: Strings quoted, the rest as given, count and order kept |
| Builder.CoalesceQuotesStrings | lib/arel_helpers/query_builder.rb:28-38 | every String argument of `coalesce` and `concat` prints as its escaped single-quoted literal |
| Builder.QueryBuilder.CaseExpr | lib/arel_helpers/query_builder.rb:42-48 | without a block, a CASE with no branch and no ELSE |
| Builder.QueryBuilder.ArelQuote | lib/arel_helpers/query_builder.rb:50-52 | a plain value prints as its quoted literal; a node is kept |
| Builder.QueryBuilder.CastAsArray | lib/arel_helpers/query_builder.rb:59-67 | empty exactly when there are no items; otherwise it starts with the first item's `(` |
| Builder.CastAsArrayAppend | lib/arel_helpers/query_builder.rb:59-67 | `cast_as_array` keeps order: one more item appends `, ` and that item in parentheses, Strings and Symbols single-quoted |
| Builder.QueryBuilder.IsNull | lib/arel_helpers/query_builder.rb:71-75 | an equality of the column with NULL |
| Builder.IsNullRendering | lib/arel_helpers/query_builder.rb:71-75 | `is_null` prints `column IS NULL` |
| Builder.IsNullMeaning | lib/arel_helpers/query_builder.rb:71-75 | `is_null` is never UNKNOWN and holds exactly of the rows whose column is NULL |
| Builder.QueryBuilder.CountByBoolean | lib/arel_helpers/query_builder.rb:79-83 | a `COUNT` of one CASE with a single WHEN on the column, THEN 1 and no ELSE |
| Builder.CountByBooleanRendering | lib/arel_helpers/query_builder.rb:79-83 | `count_by_boolean` prints `COUNT(CASE WHEN c THEN 1 END)` |
| Builder.QueryBuilder.SumByBoolean | lib/arel_helpers/query_builder.rb:90-97 | a `SUM` of one CASE: WHEN the column THEN the truthy option, ELSE the falsey option, which default to 1 and 0 |
| Builder.SumByBooleanRendering | lib/arel_helpers/query_builder.rb:90-97 | `sum_by_boolean` prints `SUM(CASE WHEN c THEN t ELSE f END)` with the given truthy and falsey values |
| Builder.SumByBooleanDefaults | lib/arel_helpers/query_builder.rb:90-97 | without options the truthy value is 1 and the falsey value 0 |
| Builder.QueryBuilder.DateInYear | lib/arel_helpers/query_builder.rb:126-133 | BETWEEN January 1 and December 31 of the year, the first before the second |
| Builder.DateInYearRendering | lib/arel_helpers/query_builder.rb:126-133 | prints `c BETWEEN 'Y-01-01' AND 'Y-12-31'` |
| Builder.DateInYearMeaning | lib/arel_helpers/query_builder.rb:126-133 | on a valid date, true exactly when the date lies in that year |
| Builder.QueryBuilder.DateBefore | lib/arel_helpers/query_builder.rb:138-142 | the column `<=` the quoted date |
| Builder.QueryBuilder.DateAfter | lib/arel_helpers/query_builder.rb:170-174 | the column `>=` the quoted date |
| Builder.DateBoundRendering | lib/arel_helpers/query_builder.rb:138-142 | `date_before` prints `c <= d` and `date_after` prints `c >= d` |
| Builder.DateBoundMeaning | lib/arel_helpers/query_builder.rb:138-174 | `date_before` is true exactly of values of the date's kind not after it, `date_after` of those not before it |
| Builder.QueryBuilder.IntervalFromNow | lib/arel_helpers/query_builder.rb:305-308 | raw SQL `CURRENT_TIMESTAMP - INTERVAL ` followed by the quoted interval |
| Builder.IntervalQuotedSafely | lib/arel_helpers/query_builder.rb:305-308 | a String interval stays inside its literal: what follows `INTERVAL ` reads back as exactly that string |
| Builder.QueryBuilder.DateBeforeInterval | lib/arel_helpers/query_builder.rb:147-151 | the column `<=` raw SQL `CURRENT_TIMESTAMP - INTERVAL` and the quoted interval |
| Builder.QueryBuilder.DateAfterInterval | lib/arel_helpers/query_builder.rb:179-183 | the column `>=` raw SQL `CURRENT_TIMESTAMP - INTERVAL` and the quoted interval |
| Builder.BeforeIntervalRendering | lib/arel_helpers/query_builder.rb:147-151 | `date_before_interval` prints `c <= CURRENT_TIMESTAMP - INTERVAL q` |
| Builder.AfterIntervalRendering | lib/arel_helpers/query_builder.rb:179-183 | `date_after_interval` prints `c >= CURRENT_TIMESTAMP - INTERVAL q` |
| Builder.OrNode | lib/arel_helpers/query_builder.rb:212-214 | Arel's `.or`: the OR of both sides, wrapped in a grouping |
| Builder.OrNodeRendering | lib/arel_helpers/query_builder.rb:212-214 | an `.or` prints both sides inside one pair of parentheses |
| Builder.QueryBuilder.EarlierEntries | lib/arel_helpers/query_builder.rb:153-159 | the grouped OR of `column < date` and the AND of `column = date` with `id < id` |
| Builder.QueryBuilder.LaterEntries | lib/arel_helpers/query_builder.rb:195-201 | the grouped OR of `column > date` and the AND of `column = date` with `id > id` |
| Builder.CursorRendering | lib/arel_helpers/query_builder.rb:153-159 | the cursor condition prints its three comparisons in order, the AND unparenthesised inside the OR's parentheses |
| Builder.EarlierEntriesRendering | lib/arel_helpers/query_builder.rb:153-159 | `earlier_entries` prints `(c < d OR c = d AND t."id" < i)` |
| Builder.LaterEntriesRendering | lib/arel_helpers/query_builder.rb:195-201 | `later_entries` prints `(c > d OR c = d AND t."id" > i)` |
| Builder.CursorEval | lib/arel_helpers/query_builder.rb:153-159 | the cursor condition evaluates to SQL's OR of `c op d` with the AND of `c = d` and `id op i` |
| Builder.EarlierEntriesMeaning | lib/arel_helpers/query_builder.rb:153-159 | true exactly of the rows whose (column, id) pair comes strictly before (date, id), and never UNKNOWN on comparable values |
| Builder.LaterEntriesMeaning | lib/arel_helpers/query_builder.rb:195-201 | true exactly of the rows whose (column, id) pair comes strictly after (date, id), and never UNKNOWN on comparable values |
| Builder.CompareInOutcomes | lib/arel_helpers/query_builder.rb:153-159 | a comparison is TRUE exactly when the database order gives the matching outcome |
| Builder.EntriesPartition | lib/arel_helpers/query_builder.rb:153-201 | on comparable values neither cursor is UNKNOWN, and each row is exactly one of: earlier, later, or the cursor's own entry |
| Builder.QueryBuilder.DateBetween | lib/arel_helpers/query_builder.rb:189-193 | `column BETWEEN min AND max` exactly when `min <=> max` answers, raw SQL comparing as the String it is; otherwise Range.new's ArgumentError |
| Builder.DateBetweenRendering | lib/arel_helpers/query_builder.rb:189-193 | with bounds that make a Range, prints `c BETWEEN lo AND hi` |
| Builder.BetweenRendering | lib/arel_helpers/query_builder.rb:192 | a BETWEEN prints its column, `BETWEEN`, and both bounds joined by `AND` |
| BuilderExamples.DateBetweenRawSqlExample | lib/arel_helpers/query_builder.rb:189-193 | two raw-SQL bounds print `"articles"."published_at" BETWEEN CURRENT_DATE - 7 AND CURRENT_DATE` |
| BuilderExamples.DateBetweenBounds | lib/arel_helpers/query_builder.rb:192 | a String with raw SQL, a Date with an Integer and a Date with a Time form a Range; an Integer with a Date or a String, and two different attribute nodes, raise ArgumentError |
| Builder.DateBetweenMeaning | lib/arel_helpers/query_builder.rb:189-193 | `date_between` holds of comparable values between the two bounds, both included |
| Builder.QueryBuilder.DateBeforeNow | lib/arel_helpers/query_builder.rb:163-165 | `date_before` against the current time, which is passed in |
| Builder.QueryBuilder.DateAfterNow | lib/arel_helpers/query_builder.rb:205-207 | `date_after` against the current time, which is passed in |
| Builder.QueryBuilder.DateNullOrBefore | lib/arel_helpers/query_builder.rb:212-214 | the grouped OR of `is_null` and `date_before` on the same column and date |
| Builder.QueryBuilder.DateNullOrAfter | lib/arel_helpers/query_builder.rb:225-227 | the grouped OR of `is_null` and `date_after` on the same column and date |
| Builder.DateNullOrBeforeMeaning | lib/arel_helpers/query_builder.rb:212-214 | true of NULL and of values not after the date; never UNKNOWN when the column is NULL |
| Builder.DateNullOrAfterMeaning | lib/arel_helpers/query_builder.rb:225-227 | true of NULL and of values not before the date; never UNKNOWN when the column is NULL |
| Builder.QueryBuilder.DateNullOrBeforeNow | lib/arel_helpers/query_builder.rb:218-220 | `date_null_or_before` at the current time |
| Builder.QueryBuilder.DateNullOrAfterNow | lib/arel_helpers/query_builder.rb:231-233 | `date_null_or_after` at the current time |
| Builder.QueryBuilder.DateOnDay | lib/arel_helpers/query_builder.rb:237-245 | the AND of `date_after` at 00:00:00 and `date_before` at 23:59:59.999999 of the given day |
| Builder.DateOnDayMeaning | lib/arel_helpers/query_builder.rb:237-245 | on a valid timestamp, true exactly when it falls on the given time's calendar day |
| Builder.QueryBuilder.ArelIdsToPgArray | lib/arel_helpers/query_builder.rb:312-314 | raw SQL `ARRAY[`, the ids' texts joined by `,`, then `]`; `ARRAY[]` for no ids |
| Builder.ArelIdsSplitBack | lib/arel_helpers/query_builder.rb:312-314 | splitting the text between the brackets at each comma gives back every id's `to_s` in order, when no id's text holds a comma |
| Builder.IntIdsSplitBack | lib/arel_helpers/query_builder.rb:312-314 | integer ids always split back to their decimal texts |
| Text.SplitJoin | lib/arel_helpers/query_builder.rb:313 | splitting at a separator undoes joining with it, when no part holds the separator |
| Builder.ArelIdsCommaCount | lib/arel_helpers/query_builder.rb:312-314 | for integer ids the array text holds exactly one comma fewer than there are ids |
| Builder.QuotedIdsText | lib/arel_helpers/query_builder.rb:252-257 | with `quoted: true` each id shows as its quoted literal between the commas |
| Builder.QueryBuilder.ArelArrayPositionFn | lib/arel_helpers/query_builder.rb:252-257 | `array_position` of one Ruby Array: the ids array (each id quoted first when `quoted`) and the column as given |
| Builder.ArrayPositionRendering | lib/arel_helpers/query_builder.rb:252-257 | `arel_array_position_fn` prints `array_position(ARRAY[ids], column)` |
| Builder.QueryBuilder.ArelIdxFn | lib/arel_helpers/query_builder.rb:262-264 | `idx` of one Ruby Array: the ids array and the given column, or the table's `id` column when none is given |
| Builder.ArelIdxRendering | lib/arel_helpers/query_builder.rb:262-264 | with a column, prints `idx(ARRAY[ids], column)` |
| Builder.ArelIdxDefault | lib/arel_helpers/query_builder.rb:262-264 | `arel_idx_fn` without a column uses the table's `id` column |
| Builder.QueryBuilder.OrderDirection | lib/arel_helpers/query_builder.rb:272-281 | ascending for `:asc` or a text with a line starting "asc" in any case; else descending for the same with "desc"; else the column unchanged |
| Builder.OrderDirectionSymbolAsString | lib/arel_helpers/query_builder.rb:272-281 | a Symbol direction orders like the String of the same text |
| Builder.OrderDirectionExamples | lib/arel_helpers/query_builder.rb:272-281 | `"DESC"` orders descending, a second line starting "Asc" orders ascending, and `"up"` leaves the column unordered |
| ActiveRecordHelpers.ModelClass.constructor | lib/arel_helpers/active_record_helpers.rb:11-17 | a model starts with no memoised builder |
| ActiveRecordHelpers.ModelClass.QueryBuilder | lib/arel_helpers/active_record_helpers.rb:15-17 | the first call creates a builder over the model's table; later calls return that same object |
| ActiveRecordHelpers.ModelClass.ArelHelper | lib/arel_helpers/active_record_helpers.rb:19 | an alias of `query_builder` |
| ActiveRecordHelpers.QueryBuilderMemoised | lib/arel_helpers/active_record_helpers.rb:15-19 | two calls hand back one and the same builder, over the model's table |
| ActiveRecordHelpers.ModelClass.ArelFn | lib/arel_helpers/active_record_helpers.rb:24-26 | the memoised builder's `function` |
| ActiveRecordHelpers.ModelClass.ArelCoalesce | lib/arel_helpers/active_record_helpers.rb:28-30 | the memoised builder's `coalesce` |
| ActiveRecordHelpers.ModelClass.ArelConcat | lib/arel_helpers/active_record_helpers.rb:32-34 | the memoised builder's `concat` |
| ActiveRecordHelpers.ArelNowRendering | lib/arel_helpers/active_record_helpers.rb:7 | `AREL_NOW` prints `NOW()` |
| ActiveRecordHelpers.ArelCast | lib/arel_helpers/active_record_helpers.rb:41-48 | `CAST` of one `As`: the thing through `build_quoted`; a String or Symbol type as raw SQL; a node type kept |
| ActiveRecordHelpers.ArelCastRendering | lib/arel_helpers/active_record_helpers.rb:41-48 | prints `CAST(thing AS type)` |
| ActiveRecordHelpers.ArelCastTypeSpellings | lib/arel_helpers/active_record_helpers.rb:41-48 | a String, a Symbol and raw SQL type build the same CAST |
| ActiveRecordHelpers.ArelCrossJoin | lib/arel_helpers/active_record_helpers.rb:54-69 | a table alias joins by its own SQL. A table, a model, a String (raw SQL included) or a Symbol joins by the quoted table name. Anything else is a TypeError |
| Values.QuotedNameReadsBack | lib/arel_helpers/active_record_helpers.rb:66 | a quoted table or column name reads back to exactly the name, whatever it holds, and the lexer stops at its end |
| ActiveRecordHelpers.CrossJoinNamesAgree | lib/arel_helpers/active_record_helpers.rb:54-69 | every way of naming a table gives the same join |
| ActiveRecordHelpers.ArelTableFromQuery | lib/arel_helpers/active_record_helpers.rb:77-84 | the query's SQL in parentheses, aliased as `table_name.to_s`, and the reference name equal to that alias |
| ActiveRecordHelpers.TableFromQueryRendering | lib/arel_helpers/active_record_helpers.rb:77-84 | the alias prints `(query) "name"`, and cross joining against it joins that sub-select |
| ActiveRecordHelpers.Projection | lib/arel_helpers/active_record_helpers.rb:95 | a String or Symbol key prints as its bare text; a node key is kept |
| ActiveRecordHelpers.SelectSql | lib/arel_helpers/active_record_helpers.rb:92-96 | prints exactly when every projection prints, starting `SELECT` and ending `FROM` and the quoted table |
| ActiveRecordHelpers.ArelFromWith | lib/arel_helpers/active_record_helpers.rb:92-96 | a select from the table projecting every key in order, String and Symbol keys as raw SQL |
| ActiveRecordHelpers.ArelFromWithRendering | lib/arel_helpers/active_record_helpers.rb:92-96 | with named keys, prints `SELECT k1, ..., kn FROM "table"` |
| ActiveRecordHelpers.ProjectionsAsNamed | lib/arel_helpers/active_record_helpers.rb:92-96 | Symbol keys print as their bare names, in order |
| TextArrays.NewTextArray | lib/arel_helpers/arel/nodes/text_array.rb:6-12 | the values flattened, each through `build_quoted`, stored in order |
| TextArrays.BuildTextArray | lib/arel_helpers/arel/text_array_support.rb:29-31 | `build_text_array` is `TextArray.new` |
| TextArrays.FlattenAppend | lib/arel_helpers/arel/nodes/text_array.rb:7 | flattening distributes over concatenation |
| TextArrays.FlattenCount | lib/arel_helpers/arel/nodes/text_array.rb:7 | the flattened array holds one element per leaf of the nested arrays |
| TextArrays.FlattenFlat | lib/arel_helpers/arel/nodes/text_array.rb:7 | flattening an array without nested arrays changes nothing |
| TextArrays.StoredElementRendering | lib/arel_helpers/arel/nodes/text_array.rb:6-12 | each stored element prints as its quoted literal, or as the node it was given |
| TextArrays.TextArrayRule | lib/arel_helpers/arel/text_array_support.rb:12-24 | the visitor rule: the joined elements between the start and end markers, or the first element's failure |
| TextArrays.VisitTextArray | lib/arel_helpers/arel/text_array_support.rb:12-24 | the collector loop writes the same text as the visitor rule: a separator after each element except the last |
| TextArrays.TextArrayShape | lib/arel_helpers/arel/text_array_support.rb:8-24 | the text starts `ARRAY[` and ends `]::text[]`; the n elements appear in order with exactly n - 1 separators |
| TextArrays.EmptyTextArray | lib/arel_helpers/arel/text_array_support.rb:12-24 | an empty array prints `ARRAY[]::text[]` |
| TextArrays.MixedTextArrayExample | lib/arel_helpers/arel/nodes/text_array.rb:6-12 | `build_text_array('foo', 'bar', 2, id)` prints `ARRAY['foo','bar',2,"articles"."id"]::text[]` |
| JsonOperators.DeclaredOperator | lib/arel_helpers/arel/nodes/json_get_by_path.rb:4 | each class's operator ends in `>`; it starts with `#` exactly for the path classes, and its arrow is doubled exactly for the as-text classes |
| JsonOperators.OperatorSpacing | lib/arel_helpers/arel/json_operator_support.rb:26-40 | each visitor rule writes its class's declared operator with exactly one space on each side |
| JsonOperators.OperatorsDistinct | lib/arel_helpers/arel/json_operator_support.rb:26-40 | different node classes print different operators |
| JsonOperators.NewJSONOperator | lib/arel_helpers/arel/nodes/json_operator.rb:10-31 | stores the left operand as given and the right one cast: identity by default, a text array for the path classes |
| JsonOperators.FlattenSingleList | lib/arel_helpers/arel/nodes/json_get_by_path.rb:7-9 | a path passed as one array flattens to its own leaves |
| JsonOperators.JsonGet | lib/arel_helpers/arel/json_operator_support.rb:8-10 | a `JSONGet` of the receiver and `build_quoted(other)`, printed `L -> R` |
| JsonOperators.JsonGetAsText | lib/arel_helpers/arel/json_operator_support.rb:12-14 | a `JSONGetAsText` of the receiver and `build_quoted(other)`, printed `L ->> R` |
| JsonOperators.JsonGetByPath | lib/arel_helpers/arel/json_operator_support.rb:16-18 | a `JSONGetByPath` whose right operand is the text array of the flattened path, printed `L #> ARRAY[...]::text[]` |
| JsonOperators.JsonGetByPathAsText | lib/arel_helpers/arel/json_operator_support.rb:20-22 | as `json_get_by_path`, printed with `#>>` |
| JsonOperators.DeclaredNotBlank | lib/arel_helpers/arel/nodes/json_get_by_path.rb:4 | every declared operator is present, so declaring it sets it |
| JsonOperators.OperatorConfig.Define | lib/arel_helpers/arel/nodes/json_get_by_path.rb:4 | defining a node class leaves its configured operator set to its declared operator as raw SQL; the base class leaves it unset |
| JsonOperators.OperatorConfig.Operator | lib/arel_helpers/arel/nodes/json_operator.rb:34-40 | a present argument sets the operator as raw SQL; a blank or missing one changes nothing; the current setting is returned |
| JsonOperators.OperatorConfig.InstanceOperator | lib/arel_helpers/arel/nodes/json_operator.rb:19-21 | an instance reads its class's configuration, which once declared is the visitor's infix text without the spaces |
| JsonOperators.JsonGetExample | lib/arel_helpers/arel/json_operator_support.rb:8-10 | `id.json_get 'foo'` prints `"articles"."id" -> 'foo'` |
| JsonOperators.JsonGetAsTextExample | lib/arel_helpers/arel/json_operator_support.rb:12-14 | `id.json_get_as_text 'foo'` prints `"articles"."id" ->> 'foo'` |
| JsonOperators.JsonGetByPathExample | lib/arel_helpers/arel/json_operator_support.rb:16-18 | `id.json_get_by_path 'foo', 'bar', 'baz'` prints `"articles"."id" #> ARRAY['foo','bar','baz']::text[]` |
| JsonOperators.JsonGetByPathAsTextExample | lib/arel_helpers/arel/json_operator_support.rb:20-22 | the same path with `#>>` |
| BuilderExamples.FunctionExample | spec/integration/query_builder_spec.rb:30-31 | `function('SOMEFN', 0, 1, 2)` prints `SOMEFN(0, 1, 2)` |
| BuilderExamples.CoalesceExample | spec/integration/query_builder_spec.rb:42-43 | `coalesce(id, 2, 'foo')` prints `COALESCE("articles"."id", 2, 'foo')` |
| BuilderExamples.CastAsArrayExample | spec/integration/query_builder_spec.rb:82-83 | `cast_as_array([1, 'foo', :bar])` is `(1), ('foo'), ('bar')` |
| BuilderExamples.IsNullExample | spec/integration/query_builder_spec.rb:94-95 | `is_null(:published_at)` prints `"articles"."published_at" IS NULL` |
| BuilderExamples.CountByBooleanExample | spec/integration/query_builder_spec.rb:106-107 | `count_by_boolean(:published_at)` prints `COUNT(CASE WHEN "articles"."published_at" THEN 1 END)` |
| BuilderExamples.SumByBooleanExample | spec/integration/query_builder_spec.rb:118-119 | `sum_by_boolean(:featured)` prints `SUM(CASE WHEN "articles"."featured" THEN 1 ELSE 0 END)` |
| BuilderExamples.BeforeIntervalExample | spec/integration/query_builder_spec.rb:181-182 | `date_before_interval(:published_at, 30.days)` prints `... <= CURRENT_TIMESTAMP - INTERVAL 2592000` |
| ActiveRecordExamples.CrossJoinAuthors | spec/integration/active_record_helpers_spec.rb:24-39 | a table, a model, a String, raw SQL and a Symbol all give `CROSS JOIN "authors"` |
| ActiveRecordExamples.CrossJoinAlias | spec/integration/active_record_helpers_spec.rb:42-46 | a table alias gives `CROSS JOIN (1 AS t) "authors"` |
| ActiveRecordExamples.CrossJoinRefused | lib/arel_helpers/active_record_helpers.rb:62-63 | an Integer, nil or an attribute node raises a TypeError |
| ActiveRecordExamples.ArelCastExample | spec/integration/active_record_helpers_spec.rb:13-14 | `arel_cast(id, 'String')` prints `CAST("articles"."id" AS String)` |
| ActiveRecordExamples.ArelFromWithExample | spec/integration/active_record_helpers_spec.rb:82-83 | `arel_from_with(keys: [:id, :published_at], table_name: 'foo')` prints `SELECT id, published_at FROM "foo"` |

## Left out

- `extract_years_from` (query_builder.rb:104-110) runs a database query (`pluck`) and is not modelled.
- `order_by` (query_builder.rb:272-281) is modelled only as the ordering it passes to `scope.order`; the ActiveRecord relation is not modelled.
- `date_since` (query_builder.rb:115-121) needs calendar arithmetic in the application's time zone and is not modelled.
- `Time.now` is not read: the `*_now` helpers take the current time as a parameter.
- `ensure_time` (query_builder.rb:295-301) parses a String with `Time.parse`; the model takes a `Time` value, and parsing is not modelled.
- Time zones, the `BC` suffix of years before 1 and ISO 8601 variants of date quoting are not modelled: dates and times are quoted as `YYYY-MM-DD` and `YYYY-MM-DD HH:MM:SS[.ffffff]`.
- Table names with a schema prefix (`schema.table`) are quoted as one name.
- `DateBetween`: the model takes the two bounds, not a Range, so a Range with an infinite or exclusive end is not modelled. Bounds whose `<=>` does not answer are refused with Range.new's ArgumentError. Examples are an Integer with a Date or a String, two different booleans, and two different nodes other than raw SQL. Raw SQL is a String and compares with Strings. A Date or Time compares with an Integer, as a Julian day number.
- `DateBetween`: a Date or Time with a Duration is refused. The model does not follow ActiveSupport's coercion far enough to tell whether that pair compares. A nil bound is refused unless both bounds are nil, as before Ruby 2.6's endless and beginless ranges.
- `CaseExpr`: the block `case_expr` yields to is not modelled; only the CASE it starts from is.
- Arel's `Casted` node (a value typed by its column) is modelled as a plain quoted value.
- `OrderDirection`: case folding is ASCII only, where Ruby's `/i` also folds some non-ASCII letters.
- `JsonOperators.Blank`: only ASCII whitespace counts as blank, where Ruby's `blank?` also counts Unicode spaces.
- `IntervalFromNow`: a node interval is not modelled; the interval is a plain value.
- `insert!` (text_array_support.rb:35-40, json_operator_support.rb:44-49) and the load-time patching of Arel they perform (augment_arel.rb) are not modelled; the new visitor rules and predications are part of `Render` and of the functions directly.
- The JSONGet, JSONGetAsText and JSONGetByPathAsText class files are not part of this model. Their operators are taken from the visitor rules, and JSONGetByPathAsText is assumed to cast its path like JSONGetByPath, as the visitor output the tests expect requires.
- `ArelTableFromQuery`: the query is given as its SQL text; the SelectManager's own printing is not modelled.
- `ArelCast`: modelled as a function of its arguments, without the `arel_fn` delegation through the memoised builder.
- `Semantics.Eval`: comparisons between text values, or between a date and a timestamp, evaluate to UNKNOWN. The database's text collation and date-to-timestamp promotion are not modelled.
- `DateInYearMeaning`: stated for date columns only. On a timestamp column such as `published_at`, PostgreSQL compares with each bound at midnight, so the rest of December 31 falls outside the range. The model leaves that comparison UNKNOWN and does not capture it. `DateBoundMeaning` and `DateBetweenMeaning` likewise say nothing about a date bound on a timestamp column.
- `Semantics.ValueOf`: a node that is neither a column nor a quoted value (a function call, say) evaluates to NULL.
- `EarlierEntriesMeaning`: requires a non-nil date, because `c = NULL` prints as `c IS NULL` and the cursor with a NULL date is not a cursor.
- `LaterEntriesMeaning`: requires a non-nil date, for the same reason.
- Errors the Ruby code raises (TypeError, or a visitor error on a value it cannot print) are modelled as `Err` results, not exceptions.
- `OperatorConfig`: the inheritance of `ActiveSupport::Configurable` settings from the base class to subclasses is not modelled; each class has its own setting.
- Thread safety of the `@query_builder ||=` memo is not modelled.
