# Aggregated timeseries statistics DAO, in Dafny

This project models `ESAggregatedStatsDAO`, the DataHub component that answers an
aggregated-statistics query over a timeseries aspect. A query is a list of
aggregation specs (LATEST, SUM or CARDINALITY of a field path) and a list of
grouping buckets (a date histogram on `timestampMillis`, or a terms
aggregation on any field path that resolves; its column type is the field's
numeric type or "string"). The DAO runs the query in four steps:

1. It compiles the query into a tree of search aggregations. The root is a
   filter aggregation named `filtered_stats`. Below it is a strict chain with
   one bucket aggregation per grouping bucket. The leaves of every spec hang
   off the innermost node of that chain.
2. It sends the tree to the search backend.
3. It walks the nested bucket response depth first, with a mutable row stack
   and a mutable list of finished rows.
4. It returns a table of column names, column types and rows.

The model is split into modules, one file each:

- `Types`: shared datatypes, the error cases (one per exception the model
  can reach) and a generic `CollectAll` over results.
- `Decimal`: Java's `String.valueOf(long)`, with a parser that reads it back.
- `Naming`: the name codec. `toEsAggName`, display names, leaf names and
  grouping-node names, shared by the request builder and the response reader.
- `Schema`: the type resolver `getTimeseriesFieldType`, over an aspect
  schema given as finite maps, with Java's `split("\\.")` written out.
- `Columns`: `genColumnNames` and `genColumnTypes`.
- `Request`: the request-tree compiler. Aggregation builders are objects
  whose lists of sub-aggregations are appended to in place.
- `Response`: the parsed response, `extractAggregationValue`, and pure
  reference definitions of the rows the walk emits.
- `Flatten`: `rowGenHelper` as recursive methods over a `RowStack` and a
  `RowList` class, proved against those reference definitions, and
  `generateResponseFromElastic`.
- `Stats`: `getAggregatedStats`, with the search backend as a parameter.

A Java exception is modelled as an `Err` result carrying an `Error` value.
The imperative parts (the row walk, the builder chain, the column-type loops)
are methods. Each method's `ensures` ties its result and its new state to a
pure definition, and lemmas state the properties of those definitions.

## Model

All source paths are under
`metadata-io/src/main/java/com/linkedin/metadata/timeseries/elastic/query/`.

| member | source | states |
|---|---|---|
| Naming.ToEsAggName | metadata-io/src/main/java/com/linkedin/metadata/timeseries/elastic/query/ESAggregatedStatsDAO.java:74-76 | the escaped name has the same length as the input and contains no '.'; every '.' becomes '_' and every other character is kept |
| Naming.ToEsAggNameAppend | metadata-io/src/main/java/com/linkedin/metadata/timeseries/elastic/query/ESAggregatedStatsDAO.java:74-76 | escaping a concatenation is the concatenation of the escaped parts |
| Naming.ToEsAggNameIdentity | metadata-io/src/main/java/com/linkedin/metadata/timeseries/elastic/query/ESAggregatedStatsDAO.java:74-76 | a name without '.' is left unchanged |
| Naming.DottedNameCollides | metadata-io/src/main/java/com/linkedin/metadata/timeseries/elastic/query/ESAggregatedStatsDAO.java:74-76 | escaping is idempotent but not injective: a dotted name differs from its escaped form, yet both escape to the same name |
| Naming.AggEsName | metadata-io/src/main/java/com/linkedin/metadata/timeseries/elastic/query/ESAggregatedStatsDAO.java:78-80 | the name of the leaf that carries a spec's value: the escaped display name; `Naming.AggEsNameShape` states it as the type prefix followed by the escaped field path |
| Naming.AggEsNameShape | metadata-io/src/main/java/com/linkedin/metadata/timeseries/elastic/query/ESAggregatedStatsDAO.java:78-80 | a spec's leaf name is its type prefix followed by its escaped field path |
| Naming.AggDisplayName | metadata-io/src/main/java/com/linkedin/metadata/timeseries/elastic/query/ESAggregatedStatsDAO.java:82-98 | a spec's column name, "latest_", "sum_" or "cardinality_" followed by the unchanged field path; `Naming.DisplayNameRoundTrip` and `Naming.DisplayNameInjective` state that it determines the spec |
| Naming.DisplayNameRoundTrip | metadata-io/src/main/java/com/linkedin/metadata/timeseries/elastic/query/ESAggregatedStatsDAO.java:82-98 | a display name ("latest_"/"sum_"/"cardinality_" plus the unchanged field path) parses back to exactly its spec |
| Naming.DisplayNameInjective | metadata-io/src/main/java/com/linkedin/metadata/timeseries/elastic/query/ESAggregatedStatsDAO.java:82-98 | two specs have the same display name if and only if they are the same spec |
| Naming.GroupingBucketAggName | metadata-io/src/main/java/com/linkedin/metadata/timeseries/elastic/query/ESAggregatedStatsDAO.java:100-105 | the name under which a grouping level's bucket aggregation is looked up; `Naming.GroupingBucketAggNameShape` gives its two forms |
| Naming.GroupingBucketAggNameShape | metadata-io/src/main/java/com/linkedin/metadata/timeseries/elastic/query/ESAggregatedStatsDAO.java:100-105 | a date bucket on the timestamp field is named "agg_timestampMillis"; a string bucket is named "agg_terms_" plus its escaped key |
| Decimal.IntToString | metadata-io/src/main/java/com/linkedin/metadata/timeseries/elastic/query/ESAggregatedStatsDAO.java:131-132 | `String.valueOf(long)` gives canonical decimal text: an optional minus, then digits without a leading zero |
| Decimal.ParseIntToString | metadata-io/src/main/java/com/linkedin/metadata/timeseries/elastic/query/ESAggregatedStatsDAO.java:131-132 | parsing the decimal text of n gives back n |
| Decimal.IntToStringParse | metadata-io/src/main/java/com/linkedin/metadata/timeseries/elastic/query/ESAggregatedStatsDAO.java:131-132 | rendering the parse of canonical decimal text gives back the text |
| Decimal.IntToStringInjective | metadata-io/src/main/java/com/linkedin/metadata/timeseries/elastic/query/ESAggregatedStatsDAO.java:131-132 | two numbers have the same decimal text if and only if they are equal |
| Schema.SplitOnDots | metadata-io/src/main/java/com/linkedin/metadata/timeseries/elastic/query/ESAggregatedStatsDAO.java:179 | splitting gives at least one part, and no part contains '.' |
| Schema.SplitJoin | metadata-io/src/main/java/com/linkedin/metadata/timeseries/elastic/query/ESAggregatedStatsDAO.java:179 | splitting the dot-joined form of dot-free parts gives back the parts |
| Schema.JoinSplit | metadata-io/src/main/java/com/linkedin/metadata/timeseries/elastic/query/ESAggregatedStatsDAO.java:179 | joining the parts of a string with dots gives back the string |
| Schema.DropTrailingEmpty | metadata-io/src/main/java/com/linkedin/metadata/timeseries/elastic/query/ESAggregatedStatsDAO.java:179 | the result is a prefix of the parts whose last part, if any, is non-empty |
| Schema.SplitFieldPath | metadata-io/src/main/java/com/linkedin/metadata/timeseries/elastic/query/ESAggregatedStatsDAO.java:179 | Java's `split("\\.")` of a field path; `Schema.SplitFieldPathJoin` and `Schema.ResolveTrailingDot` state what it gives back |
| Schema.SplitFieldPathJoin | metadata-io/src/main/java/com/linkedin/metadata/timeseries/elastic/query/ESAggregatedStatsDAO.java:179 | a path of two or more dot-free segments, the last non-empty, splits back into exactly those segments and is not the timestamp field |
| Schema.GetTimeseriesFieldType | metadata-io/src/main/java/com/linkedin/metadata/timeseries/elastic/query/ESAggregatedStatsDAO.java:170-209 | a path that does not resolve fails with `UnknownField` naming that path |
| Schema.ResolveDirect | metadata-io/src/main/java/com/linkedin/metadata/timeseries/elastic/query/ESAggregatedStatsDAO.java:180-191 | a one-segment path takes the type of a direct field if there is one, else the type of a collection of that name, else fails |
| Schema.ResolveMember | metadata-io/src/main/java/com/linkedin/metadata/timeseries/elastic/query/ESAggregatedStatsDAO.java:192-206 | `C.K` resolves to STRING when K is C's key, else to the type of C's member K, else fails |
| Schema.ResolveDeepFails | metadata-io/src/main/java/com/linkedin/metadata/timeseries/elastic/query/ESAggregatedStatsDAO.java:179-208 | a path of three or more segments never resolves |
| Schema.ResolveTrailingDot | metadata-io/src/main/java/com/linkedin/metadata/timeseries/elastic/query/ESAggregatedStatsDAO.java:179-191 | because `split` drops trailing empty parts, `p.` resolves to the type of `p`; when `p` fails, the error names `p.` |
| Columns.GenColumnNames | metadata-io/src/main/java/com/linkedin/metadata/timeseries/elastic/query/ESAggregatedStatsDAO.java:221-231 | the bucket keys followed by the specs' display names; `Columns.ColumnNamesDecode` states the count, the order and the read-back |
| Columns.ColumnNamesDecode | metadata-io/src/main/java/com/linkedin/metadata/timeseries/elastic/query/ESAggregatedStatsDAO.java:221-231 | there are \|buckets\| + \|specs\| column names: the bucket keys in order, then one name per spec in order, from which the spec reads back |
| Columns.GenColumnTypes | metadata-io/src/main/java/com/linkedin/metadata/timeseries/elastic/query/ESAggregatedStatsDAO.java:233-275 | fails, with `UnknownField`, exactly when some bucket key or spec path does not resolve; otherwise gives one type per column: the lower-cased type for INT/LONG/DOUBLE/FLOAT buckets and "string" for other buckets; for specs, the member type (LATEST), "double" (SUM) or "long" (CARDINALITY) |
| Request.GetHistogramInterval | metadata-io/src/main/java/com/linkedin/metadata/timeseries/elastic/query/ESAggregatedStatsDAO.java:147-168 | the interval of a time window: native minutes, hours, days or weeks, or a `<multiple>M`/`q`/`y` expression; `Request.HistogramIntervalRoundTrip` states that it reads back as the window |
| Request.HistogramIntervalRoundTrip | metadata-io/src/main/java/com/linkedin/metadata/timeseries/elastic/query/ESAggregatedStatsDAO.java:147-168 | every window maps to an interval of exactly `multiple` of its unit; the interval is an expression exactly for MONTH, QUARTER and YEAR |
| Request.CalendarExpressionRoundTrip | metadata-io/src/main/java/com/linkedin/metadata/timeseries/elastic/query/ESAggregatedStatsDAO.java:158-163 | in `multiple + "M"` (or "q", "y") the text before the letter reads back as the multiple |
| Request.AggBuilder.SubAggregation | metadata-io/src/main/java/com/linkedin/metadata/timeseries/elastic/query/ESAggregatedStatsDAO.java:424 | attaches the child after the existing sub-aggregations |
| Request.GroupingNode | metadata-io/src/main/java/com/linkedin/metadata/timeseries/elastic/query/ESAggregatedStatsDAO.java:405-423 | the bucket aggregation built for one grouping bucket, or the exception that stops it; `Request.GroupingNodeSpec` states both cases |
| Request.GroupingNodeSpec | metadata-io/src/main/java/com/linkedin/metadata/timeseries/elastic/query/ESAggregatedStatsDAO.java:405-423 | a date bucket not on `timestampMillis` fails; a string bucket whose key does not resolve fails; otherwise the node is a date histogram, or a terms node of size 1440 in ascending key order, named as the response reader looks it up |
| Request.GroupingChainSpec | metadata-io/src/main/java/com/linkedin/metadata/timeseries/elastic/query/ESAggregatedStatsDAO.java:400-429 | the chain succeeds if and only if every bucket has a node; it then has one node per bucket, in order, and otherwise fails with the error of the first bucket that has none |
| Request.ExtendChain | metadata-io/src/main/java/com/linkedin/metadata/timeseries/elastic/query/ESAggregatedStatsDAO.java:424-425 | a fresh node of the given kind becomes the only child of the current innermost node and is the new innermost node |
| Request.MakeGroupingAggregationBuilder | metadata-io/src/main/java/com/linkedin/metadata/timeseries/elastic/query/ESAggregatedStatsDAO.java:400-429 | succeeds exactly when the grouping chain does, else fails with its error; on success the builders are a fresh strict chain below `base`, one node per bucket, each the only child of the one before it, and the innermost node is returned (`base` itself when there are no buckets) |
| Request.SpecLeafKinds | metadata-io/src/main/java/com/linkedin/metadata/timeseries/elastic/query/ESAggregatedStatsDAO.java:370-394 | the sub-aggregations one spec attaches, in order; `Request.SpecLeafReadBack`, `Request.LeafNamesShape` and `Request.LeafNamesClash` state their kinds and names |
| Request.SpecLeafReadBack | metadata-io/src/main/java/com/linkedin/metadata/timeseries/elastic/query/ESAggregatedStatsDAO.java:365-398 | a spec's last leaf is named by its leaf name and is a max_bucket pipeline, sum or cardinality according to its type; for LATEST the first leaf is a terms node of size 1440 on the field, and the pipeline's path reaches the max timestamp inside it |
| Request.LeafNamesShape | metadata-io/src/main/java/com/linkedin/metadata/timeseries/elastic/query/ESAggregatedStatsDAO.java:370-394 | the leaf names are "agg_terms_" and "latest_" plus the escaped path for LATEST, "sum_" or "cardinality_" plus the escaped path otherwise |
| Request.LeafNamesClash | metadata-io/src/main/java/com/linkedin/metadata/timeseries/elastic/query/ESAggregatedStatsDAO.java:370-394 | two specs attach a leaf under the same name if and only if they have the same type and the same escaped field path |
| Request.AllLeafKindsReadable | metadata-io/src/main/java/com/linkedin/metadata/timeseries/elastic/query/ESAggregatedStatsDAO.java:341-343 | every spec's value leaf is among the innermost node's leaves, under the name the extraction looks up |
| Request.AddAggregationBuildersFromAggregationSpec | metadata-io/src/main/java/com/linkedin/metadata/timeseries/elastic/query/ESAggregatedStatsDAO.java:365-398 | appends exactly the spec's leaves, fresh and in order, to `base`; each LATEST terms leaf has a single max-timestamp child; every other leaf has none |
| Request.AttachSpecLeaves | metadata-io/src/main/java/com/linkedin/metadata/timeseries/elastic/query/ESAggregatedStatsDAO.java:341-343 | one iteration of the loop over the specs: after it, the leaves of the specs so far are attached to `base` in order |
| Request.AddAllAggregationBuilders | metadata-io/src/main/java/com/linkedin/metadata/timeseries/elastic/query/ESAggregatedStatsDAO.java:341-343 | appends to `base` the leaves of every spec, fresh, well formed and in spec order |
| Request.BuildAggregationRequest | metadata-io/src/main/java/com/linkedin/metadata/timeseries/elastic/query/ESAggregatedStatsDAO.java:331-343 | fails exactly when the grouping chain does; on success returns a fresh `filtered_stats` root whose only child starts the chain, with every spec's leaves below the innermost node |
| Response.LongCast | metadata-io/src/main/java/com/linkedin/metadata/timeseries/elastic/query/ESAggregatedStatsDAO.java:293 | the `(long)` cast keeps values inside the long range and saturates at its bounds |
| Response.LeafValue | metadata-io/src/main/java/com/linkedin/metadata/timeseries/elastic/query/ESAggregatedStatsDAO.java:283-306 | the text of one leaf aggregation for a member type; `Response.LeafValueFails`, `Response.LatestValue`, `Response.SumLeafValue` and `Response.CardinalityValue` state each case |
| Response.LeafValueFails | metadata-io/src/main/java/com/linkedin/metadata/timeseries/elastic/query/ESAggregatedStatsDAO.java:283-306 | a leaf fails to render exactly when it is not a max_bucket, sum or cardinality result, or is a sum over a non-numeric member, and the error says which |
| Response.ExtractAggregationValue | metadata-io/src/main/java/com/linkedin/metadata/timeseries/elastic/query/ESAggregatedStatsDAO.java:277-307 | `extractAggregationValue`: resolve the member type, find the spec's leaf, render it; `Response.ExtractionUnknownField`, `Response.ExtractionFails` and `Response.ExtractionAt` state its outcomes |
| Response.ExtractionUnknownField | metadata-io/src/main/java/com/linkedin/metadata/timeseries/elastic/query/ESAggregatedStatsDAO.java:279-281 | a member path that does not resolve fails extraction with `UnknownField` |
| Response.ExtractionFails | metadata-io/src/main/java/com/linkedin/metadata/timeseries/elastic/query/ESAggregatedStatsDAO.java:279-306 | once the member resolves, extraction fails exactly when its leaf is missing (unsupported result) or does not render |
| Response.ExtractionAt | metadata-io/src/main/java/com/linkedin/metadata/timeseries/elastic/query/ESAggregatedStatsDAO.java:279-283 | once the member resolves and its leaf is present, extraction renders that leaf |
| Response.LatestValue | metadata-io/src/main/java/com/linkedin/metadata/timeseries/elastic/query/ESAggregatedStatsDAO.java:283-287 | a max_bucket leaf yields its first key, or "NULL" when it has none |
| Response.SumValue | metadata-io/src/main/java/com/linkedin/metadata/timeseries/elastic/query/ESAggregatedStatsDAO.java:288-299 | a sum over INT/LONG yields decimal text that reads back as the value cast to long; over DOUBLE/FLOAT it yields the double's own text |
| Response.SumLeafValue | metadata-io/src/main/java/com/linkedin/metadata/timeseries/elastic/query/ESAggregatedStatsDAO.java:288-299 | a sum leaf on its own: for an INT/LONG member its text is decimal and reads back as the value cast to long; for DOUBLE/FLOAT it is the double's own text |
| Response.CardinalityValue | metadata-io/src/main/java/com/linkedin/metadata/timeseries/elastic/query/ESAggregatedStatsDAO.java:300-302 | a cardinality yields decimal text that reads back as its count |
| Response.ExtractAllSpec | metadata-io/src/main/java/com/linkedin/metadata/timeseries/elastic/query/ESAggregatedStatsDAO.java:113-116 | the values of a leaf level succeed exactly when every spec's extraction does, one value per spec in order; otherwise the first failing spec's error |
| Response.BucketKeyText | metadata-io/src/main/java/com/linkedin/metadata/timeseries/elastic/query/ESAggregatedStatsDAO.java:130-135 | the key text a bucket pushes: a date bucket's epoch milliseconds in decimal, else its key string; `Response.DateKeyRoundTrip` states the date case |
| Response.DateKeyRoundTrip | metadata-io/src/main/java/com/linkedin/metadata/timeseries/elastic/query/ESAggregatedStatsDAO.java:130-132 | a date bucket's key text is decimal and reads back as its epoch milliseconds |
| Response.LevelRows | metadata-io/src/main/java/com/linkedin/metadata/timeseries/elastic/query/ESAggregatedStatsDAO.java:107-145 | the rows `rowGenHelper` emits from one level, as a pure definition; `Response.LevelRowsAreCombinationRows` and `Response.RowsShape` state what they are |
| Response.BucketRows | metadata-io/src/main/java/com/linkedin/metadata/timeseries/elastic/query/ESAggregatedStatsDAO.java:129-141 | the rows under the buckets of one level, in bucket order; `Response.BucketRowsStep` and `Response.BucketRowsPrefixFails` state how they grow and fail |
| Response.BucketRowsStep | metadata-io/src/main/java/com/linkedin/metadata/timeseries/elastic/query/ESAggregatedStatsDAO.java:129-141 | the rows of one more bucket: its key's error, the error below it, or the earlier rows followed by the rows below its key |
| Response.BucketRowsPrefixFails | metadata-io/src/main/java/com/linkedin/metadata/timeseries/elastic/query/ESAggregatedStatsDAO.java:129-141 | a failure among the first buckets is the failure of the whole level |
| Response.CombinationRowsSpec | metadata-io/src/main/java/com/linkedin/metadata/timeseries/elastic/query/ESAggregatedStatsDAO.java:113-118 | one row per bucket combination, in order, each the enclosing keys, the combination's keys, then its values; fails exactly when some values fail |
| Response.LevelRowsAreCombinationRows | metadata-io/src/main/java/com/linkedin/metadata/timeseries/elastic/query/ESAggregatedStatsDAO.java:107-145 | the walk's rows are the rows of the depth-first enumeration of bucket combinations, and they fail together |
| Response.BucketRowsAreCombinationRows | metadata-io/src/main/java/com/linkedin/metadata/timeseries/elastic/query/ESAggregatedStatsDAO.java:129-141 | the same, for the buckets of one level |
| Response.CombinationKeysWidth | metadata-io/src/main/java/com/linkedin/metadata/timeseries/elastic/query/ESAggregatedStatsDAO.java:123-141 | every combination below a level has one key per remaining level |
| Response.CombinationDateKeysDecimal | metadata-io/src/main/java/com/linkedin/metadata/timeseries/elastic/query/ESAggregatedStatsDAO.java:130-132 | at every date level, a combination's key is decimal text |
| Response.RowsShapeOf | metadata-io/src/main/java/com/linkedin/metadata/timeseries/elastic/query/ESAggregatedStatsDAO.java:107-145 | for any extraction of fixed width: one row per combination, each with \|buckets\| + width cells, the combination's keys first and its extracted values after |
| Response.RowDateKeysOf | metadata-io/src/main/java/com/linkedin/metadata/timeseries/elastic/query/ESAggregatedStatsDAO.java:130-132 | in every row, the cell of each date level is the decimal text of an epoch-millisecond instant |
| Response.RowsShape | metadata-io/src/main/java/com/linkedin/metadata/timeseries/elastic/query/ESAggregatedStatsDAO.java:107-145 | the table's rows: one per combination, in depth-first order, \|buckets\| + \|specs\| cells each, keys then spec values, date keys decimal, and exactly one row when there are no grouping buckets |
| Flatten.RowStack.Push | metadata-io/src/main/java/com/linkedin/metadata/timeseries/elastic/query/ESAggregatedStatsDAO.java:115 | the cell goes on top of the stack |
| Flatten.RowStack.Pop | metadata-io/src/main/java/com/linkedin/metadata/timeseries/elastic/query/ESAggregatedStatsDAO.java:121 | removes and returns the top cell |
| Flatten.RowList.Add | metadata-io/src/main/java/com/linkedin/metadata/timeseries/elastic/query/ESAggregatedStatsDAO.java:118 | appends a copy of the row |
| Flatten.PushValues | metadata-io/src/main/java/com/linkedin/metadata/timeseries/elastic/query/ESAggregatedStatsDAO.java:113-116 | succeeds exactly when every extraction does, having pushed exactly the values in spec order; otherwise fails with the first failing spec's error |
| Flatten.PushValue | metadata-io/src/main/java/com/linkedin/metadata/timeseries/elastic/query/ESAggregatedStatsDAO.java:114-115 | one iteration: pushes the next spec's value, or reports the failure of the whole extraction |
| Flatten.PopCells | metadata-io/src/main/java/com/linkedin/metadata/timeseries/elastic/query/ESAggregatedStatsDAO.java:120-122 | removes exactly the top n cells |
| Flatten.EmitLeafRow | metadata-io/src/main/java/com/linkedin/metadata/timeseries/elastic/query/ESAggregatedStatsDAO.java:110-122 | appends the stack followed by the values as one row and leaves the stack as it was; a failure appends nothing |
| Flatten.RowGenHelper | metadata-io/src/main/java/com/linkedin/metadata/timeseries/elastic/query/ESAggregatedStatsDAO.java:107-145 | succeeds exactly when the reference rows of the level do; then appends exactly those rows, in order, and restores the stack; otherwise fails with their error (including a missing bucket aggregation, and `curLevel > lastLevel`) |
| Flatten.WalkBuckets | metadata-io/src/main/java/com/linkedin/metadata/timeseries/elastic/query/ESAggregatedStatsDAO.java:129-141 | the same, for the buckets of one grouping level in order |
| Flatten.WalkStep | metadata-io/src/main/java/com/linkedin/metadata/timeseries/elastic/query/ESAggregatedStatsDAO.java:129-141 | one iteration: the rows of one more bucket are in place, or the level's failure is reported |
| Flatten.EmitBucket | metadata-io/src/main/java/com/linkedin/metadata/timeseries/elastic/query/ESAggregatedStatsDAO.java:130-140 | pushes the bucket's key, emits the rows below it and pops the key; fails when the key is not of the level's kind or the level below fails |
| Flatten.GenerateResponseFromElastic | metadata-io/src/main/java/com/linkedin/metadata/timeseries/elastic/query/ESAggregatedStatsDAO.java:443-468 | succeeds exactly when every column resolves, the response has `filtered_stats` and the walk succeeds; the table then has the generated names and types and exactly the walk's rows, one cell per column in each |
| Stats.GetAggregatedStats | metadata-io/src/main/java/com/linkedin/metadata/timeseries/elastic/query/ESAggregatedStatsDAO.java:326-363 | a grouping bucket without a node fails with its own error; any later failure (the search, or reading its response) is wrapped as a failed search query; on success, the table of the response's filter aggregation |

## Left out

- The search transport. The request is not serialised or sent, so the
  response is a parameter of `Stats.GetAggregatedStats`: `None` when the
  search client fails, else the parsed aggregations. The model does not
  connect the response to the request beyond the shared names.
- `SearchRequest` and `SearchSourceBuilder` assembly, index naming and
  logging: I/O and library calls with no effect on the result.
- Filter compilation (`ESUtils.buildFilterQuery`) is not part of this model;
  the compiled filter is an opaque value.
- The aspect registry lookup `getTimeseriesAspectSpec`. The aspect's schema
  is a parameter. The source builds exceptions for an unknown or
  non-timeseries aspect without throwing them, so nothing about that case is
  modelled.
- Floating point. A sum is abstracted as its value rounded toward zero and
  the text `String.valueOf(double)` gives for it. No decimal formatting of
  doubles and no NaN are modelled.
- `Response.LongCast`: NaN, which Java casts to 0, is not modelled.
- The `ZonedDateTime` to epoch-millisecond conversion: a date bucket's key is
  already an instant in milliseconds, or some other object (a failed cast).
- `isIntegralType`: dead code, never called.
- Null inputs, bucket types other than date and string, aggregation types
  other than LATEST, SUM and CARDINALITY, and time units other than the seven
  listed. The closed datatypes exclude them, so the `default` branches that
  throw for an unknown aggregation type (ESAggregatedStatsDAO.java lines 94-95,
  269-270 and 395-396) or time unit (lines 164-166), and the null builder that
  another bucket type would attach (lines 403-424), are not modelled.
- The state a failure leaves behind. Builders already attached and rows
  already appended before an exception are not described on the failure
  path, and the caller discards them.
- Validation inside the search client's builders is not part of this model.
  The Elasticsearch client rejects two sibling sub-aggregations with the same
  name, and a calendar interval that is not a single unit (for example "2d"
  or "3M"). It throws `IllegalArgumentException` while the request is being
  built, before anything is sent and outside the `try`, so the exception
  reaches the caller unwrapped.
- `Request.AddAggregationBuildersFromAggregationSpec` and
  `Request.BuildAggregationRequest` succeed when two specs attach leaves
  with the same name, for example `[SUM x, SUM x]` or `SUM a.b` beside
  `SUM a_b`. The client rejects such a request. `Request.LeafNamesClash`
  states exactly when the clash happens.
- `Request.GroupingNode`, `Request.MakeGroupingAggregationBuilder` and
  `Stats.GetAggregatedStats` accept a date bucket with a window multiple
  other than 1. The client's `calendarInterval` rejects the resulting
  interval, so through that client only a multiple of 1 reaches the backend.
- `Flatten.WalkStep`, `Flatten.PushValue`, `Request.ExtendChain` and
  `Request.AttachSpecLeaves` are the bodies of loops in the source, split into
  methods of their own. The loops themselves are unchanged.
- `Columns.GenColumnTypes` and `Request.GroupingNode` resolve field types
  again, as the source does. Resolution is pure, so repeated resolution is
  not shared.
