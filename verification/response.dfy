/**
 * The search backend's aggregation response, the extraction of one spec's
 * value from a leaf level, and the rows a depth-first walk of the response
 * produces, specified as pure functions.
 */
module Response {
  import opened Types
  import opened Decimal
  import opened Naming
  import opened Schema

  /** A bucket key: a date-histogram bucket's instant in epoch milliseconds, or any other key object. */
  datatype BucketKey = InstantKey(epochMillis: Int64) | OtherKey

  /**
   * A parsed aggregation of the response. A sum's double is abstracted to
   * its value rounded toward zero and its `String.valueOf` text.
   */
  datatype AggResult =
    | MultiBuckets(buckets: seq<Bucket>)                  // a date histogram or terms aggregation
    | FilterResult(aggs: map<string, AggResult>)          // ParsedFilter
    | BucketMetricValue(keys: seq<string>)                // ParsedBucketMetricValue (max_bucket)
    | SumResult(truncated: int, rendered: string)         // ParsedSum
    | CardinalityResult(value: Int64)                     // ParsedCardinality
    | OtherResult                                         // any other parsed aggregation

  datatype Bucket = Bucket(key: BucketKey, keyAsString: string, aggs: map<string, AggResult>)

  /** `Aggregations`: the sub-aggregations of one level, by name. */
  type Aggregations = map<string, AggResult>

  /** Java's `(long)` cast of a double already rounded toward zero: it saturates at the long range. */
  function LongCast(t: int): (r: Int64)
    ensures MinLong <= t <= MaxLong ==> r == t
    ensures t > MaxLong ==> r == MaxLong
    ensures t < MinLong ==> r == MinLong
  {
    if t > MaxLong then MaxLong else if t < MinLong then MinLong else t
  }

  predicate IsIntegral(t: DataType) {
    t == Int || t == Long
  }

  predicate IsFloating(t: DataType) {
    t == Double || t == Float
  }

  /** The text of one leaf aggregation, for a member of type `memberType`. */
  function LeafValue(leaf: AggResult, memberType: DataType): Result<string> {
    match leaf
    case BucketMetricValue(keys) => Ok(if |keys| > 0 then keys[0] else "NULL")
    case SumResult(truncated, rendered) =>
      if IsIntegral(memberType) then Ok(IntToString(LongCast(truncated)))
      else if IsFloating(memberType) then Ok(rendered)
      else Err(UnexpectedSumType(memberType))
    case CardinalityResult(value) => Ok(IntToString(value))
    case _ => Err(UnsupportedAggregationResult)
  }

  /** `extractAggregationValue`: the text of one spec's value at a leaf level. */
  function ExtractAggregationValue(aggs: Aggregations, schema: AspectSchema, spec: AggregationSpec): Result<string> {
    var memberAggName := AggEsName(spec);
    var memberType :- GetTimeseriesFieldType(schema, spec.fieldPath);
    if memberAggName !in aggs then Err(UnsupportedAggregationResult)
    else LeafValue(aggs[memberAggName], memberType)
  }

  /**
   * A leaf fails to render exactly when it is not a max_bucket, sum or
   * cardinality result, or is a sum over a non-numeric member.
   */
  lemma LeafValueFails(leaf: AggResult, memberType: DataType)
    ensures LeafValue(leaf, memberType).Err? <==>
      || !(leaf.BucketMetricValue? || leaf.SumResult? || leaf.CardinalityResult?)
      || (leaf.SumResult? && !IsIntegral(memberType) && !IsFloating(memberType))
    ensures LeafValue(leaf, memberType).Err? ==>
      LeafValue(leaf, memberType).error ==
        if leaf.SumResult? then UnexpectedSumType(memberType) else UnsupportedAggregationResult
  {
  }

  /** A member path that does not resolve fails extraction with that resolution error. */
  lemma ExtractionUnknownField(aggs: Aggregations, schema: AspectSchema, spec: AggregationSpec)
    requires GetTimeseriesFieldType(schema, spec.fieldPath).Err?
    ensures ExtractAggregationValue(aggs, schema, spec) == Err(UnknownField(spec.fieldPath))
  {
  }

  /**
   * Once the member resolves, extraction fails exactly when its leaf is
   * missing or the leaf fails to render.
   */
  lemma ExtractionFails(aggs: Aggregations, schema: AspectSchema, spec: AggregationSpec, t: DataType)
    requires GetTimeseriesFieldType(schema, spec.fieldPath) == Ok(t)
    ensures ExtractAggregationValue(aggs, schema, spec).Err? <==>
      AggEsName(spec) !in aggs || LeafValue(aggs[AggEsName(spec)], t).Err?
    ensures AggEsName(spec) !in aggs ==> ExtractAggregationValue(aggs, schema, spec) == Err(UnsupportedAggregationResult)
  {
  }

  /** Once the member resolves and its leaf is present, extraction renders that leaf. */
  lemma ExtractionAt(aggs: Aggregations, schema: AspectSchema, spec: AggregationSpec, t: DataType)
    requires GetTimeseriesFieldType(schema, spec.fieldPath) == Ok(t) && AggEsName(spec) in aggs
    ensures ExtractAggregationValue(aggs, schema, spec) == LeafValue(aggs[AggEsName(spec)], t)
  {
  }

  /** A max_bucket leaf yields its first key, or "NULL" when it has none. */
  lemma LatestValue(aggs: Aggregations, schema: AspectSchema, spec: AggregationSpec, t: DataType)
    requires GetTimeseriesFieldType(schema, spec.fieldPath) == Ok(t)
    requires AggEsName(spec) in aggs && aggs[AggEsName(spec)].BucketMetricValue?
    ensures var keys := aggs[AggEsName(spec)].keys;
      ExtractAggregationValue(aggs, schema, spec) == Ok(if keys == [] then "NULL" else keys[0])
  {
  }

  /**
   * A sum over an INT or LONG member is rendered as decimal text of the
   * value truncated to a long, with no fractional part; over DOUBLE or FLOAT
   * it keeps the double's own text.
   */
  lemma SumValue(aggs: Aggregations, schema: AspectSchema, spec: AggregationSpec, t: DataType)
    requires GetTimeseriesFieldType(schema, spec.fieldPath) == Ok(t)
    requires AggEsName(spec) in aggs && aggs[AggEsName(spec)].SumResult?
    ensures var r := ExtractAggregationValue(aggs, schema, spec);
      var sum := aggs[AggEsName(spec)];
      && (IsIntegral(t) ==> r.Ok? && IsDecimal(r.value) && ParseDecimal(r.value) == LongCast(sum.truncated))
      && (IsFloating(t) ==> r == Ok(sum.rendered))
  {
    var leaf := aggs[AggEsName(spec)];
    ExtractionAt(aggs, schema, spec, t);
    SumLeafValue(leaf, t);
  }

  /** How a sum leaf renders, for a member of type `t`. */
  lemma SumLeafValue(leaf: AggResult, t: DataType)
    requires leaf.SumResult?
    ensures IsIntegral(t) ==> var r := LeafValue(leaf, t);
      r.Ok? && IsDecimal(r.value) && ParseDecimal(r.value) == LongCast(leaf.truncated)
    ensures IsFloating(t) ==> LeafValue(leaf, t) == Ok(leaf.rendered)
  {
    ParseIntToString(LongCast(leaf.truncated));
  }

  /** A cardinality is rendered as the decimal text of its count. */
  lemma CardinalityValue(aggs: Aggregations, schema: AspectSchema, spec: AggregationSpec, t: DataType)
    requires GetTimeseriesFieldType(schema, spec.fieldPath) == Ok(t)
    requires AggEsName(spec) in aggs && aggs[AggEsName(spec)].CardinalityResult?
    ensures var r := ExtractAggregationValue(aggs, schema, spec);
      r.Ok? && IsDecimal(r.value) && ParseDecimal(r.value) == aggs[AggEsName(spec)].value
  {
    var leaf := aggs[AggEsName(spec)];
    ExtractionAt(aggs, schema, spec, t);
    ParseIntToString(leaf.value);
  }

  /** The extraction of every spec at one leaf level, in spec order. */
  function SpecValues(aggs: Aggregations, schema: AspectSchema, specs: seq<AggregationSpec>): seq<Result<string>> {
    seq(|specs|, j requires 0 <= j < |specs| => ExtractAggregationValue(aggs, schema, specs[j]))
  }

  /** The values of all specs at one leaf level, in spec order; the first failure otherwise. */
  function ExtractAll(aggs: Aggregations, schema: AspectSchema, specs: seq<AggregationSpec>): Result<seq<string>> {
    CollectAll(SpecValues(aggs, schema, specs))
  }

  /** One value per spec, in order, failing exactly when some spec's extraction does. */
  lemma ExtractAllSpec(aggs: Aggregations, schema: AspectSchema, specs: seq<AggregationSpec>)
    ensures ExtractAll(aggs, schema, specs).Ok? <==>
      forall j :: 0 <= j < |specs| ==> ExtractAggregationValue(aggs, schema, specs[j]).Ok?
    ensures ExtractAll(aggs, schema, specs).Ok? ==>
      && |ExtractAll(aggs, schema, specs).value| == |specs|
      && forall j :: 0 <= j < |specs| ==>
           ExtractAggregationValue(aggs, schema, specs[j]) == Ok(ExtractAll(aggs, schema, specs).value[j])
  {
    var rs := SpecValues(aggs, schema, specs);
    assert forall j :: 0 <= j < |specs| ==> rs[j] == ExtractAggregationValue(aggs, schema, specs[j]);
  }

  /** How `rowGenHelper` fills a leaf level: the values of every spec, in order. */
  function Extractor(schema: AspectSchema, specs: seq<AggregationSpec>): Aggregations -> Result<seq<string>> {
    aggs => ExtractAll(aggs, schema, specs)
  }

  /** The text a bucket contributes to a row: a date bucket's epoch milliseconds, otherwise its key string. */
  function BucketKeyText(b: Bucket, g: GroupingBucket): Result<string> {
    match g
    case DateGroupingBucket(_, _) =>
      if b.key.InstantKey? then Ok(IntToString(b.key.epochMillis)) else Err(DateKeyNotInstant)
    case StringGroupingBucket(_) => Ok(b.keyAsString)
  }

  /** A date bucket's key text reads back as its exact epoch milliseconds. */
  lemma DateKeyRoundTrip(b: Bucket, g: GroupingBucket)
    requires g.DateGroupingBucket? && b.key.InstantKey?
    ensures BucketKeyText(b, g).Ok? && IsDecimal(BucketKeyText(b, g).value)
    ensures ParseDecimal(BucketKeyText(b, g).value) == b.key.epochMillis
  {
    ParseIntToString(b.key.epochMillis);
  }

  /**
   * The rows `rowGenHelper` emits from level `curLevel` of the response,
   * each starting with `row` (the keys of the enclosing buckets) and ending
   * with what `extract` gives for its innermost level.
   */
  function LevelRows(aggs: Aggregations, curLevel: nat, lastLevel: nat, row: seq<string>,
                     buckets: seq<GroupingBucket>, extract: Aggregations -> Result<seq<string>>)
    : Result<seq<seq<string>>>
    requires lastLevel <= |buckets|
    decreases if curLevel <= lastLevel then lastLevel - curLevel else 0, 1, 0
  {
    if curLevel == lastLevel then
      var values :- extract(aggs);
      Ok([row + values])
    else if curLevel < lastLevel then
      var name := GroupingBucketAggName(buckets[curLevel]);
      if name in aggs && aggs[name].MultiBuckets? then
        BucketRows(aggs[name].buckets, curLevel, lastLevel, row, buckets, extract)
      else
        Err(MissingBucketAggregation(name))
    else
      Err(LevelOverrun(curLevel, lastLevel))
  }

  /** The rows under the buckets `bs` of level `curLevel`, in bucket order. */
  function BucketRows(bs: seq<Bucket>, curLevel: nat, lastLevel: nat, row: seq<string>,
                      buckets: seq<GroupingBucket>, extract: Aggregations -> Result<seq<string>>)
    : Result<seq<seq<string>>>
    requires curLevel < lastLevel <= |buckets|
    decreases lastLevel - curLevel, 0, |bs|
  {
    if bs == [] then Ok([])
    else
      var earlier :- BucketRows(bs[..|bs| - 1], curLevel, lastLevel, row, buckets, extract);
      var b := bs[|bs| - 1];
      var key :- BucketKeyText(b, buckets[curLevel]);
      var later :- LevelRows(b.aggs, curLevel + 1, lastLevel, row + [key], buckets, extract);
      Ok(earlier + later)
  }

  /** A failure under the first buckets is the failure of the whole level. */
  lemma {:induction false} BucketRowsPrefixFails(bs: seq<Bucket>, m: nat, curLevel: nat, lastLevel: nat,
                                                 row: seq<string>, buckets: seq<GroupingBucket>,
                                                 extract: Aggregations -> Result<seq<string>>)
    requires curLevel < lastLevel <= |buckets|
    requires m <= |bs| && BucketRows(bs[..m], curLevel, lastLevel, row, buckets, extract).Err?
    ensures BucketRows(bs, curLevel, lastLevel, row, buckets, extract) ==
            BucketRows(bs[..m], curLevel, lastLevel, row, buckets, extract)
    decreases |bs|
  {
    if m < |bs| {
      var n := |bs| - 1;
      assert bs[..n][..m] == bs[..m];
      BucketRowsPrefixFails(bs[..n], m, curLevel, lastLevel, row, buckets, extract);
    } else {
      assert bs[..m] == bs;
    }
  }

  /** The rows of one more bucket: its key, then the rows of the level below it. */
  lemma BucketRowsStep(bs: seq<Bucket>, k: nat, curLevel: nat, lastLevel: nat, row: seq<string>,
                       buckets: seq<GroupingBucket>, extract: Aggregations -> Result<seq<string>>)
    requires curLevel < lastLevel <= |buckets|
    requires k < |bs| && BucketRows(bs[..k], curLevel, lastLevel, row, buckets, extract).Ok?
    ensures var key := BucketKeyText(bs[k], buckets[curLevel]);
      var rows := BucketRows(bs[..k + 1], curLevel, lastLevel, row, buckets, extract);
      if key.Err? then rows == Err(key.error)
      else
        var below := LevelRows(bs[k].aggs, curLevel + 1, lastLevel, row + [key.value], buckets, extract);
        if below.Err? then rows == Err(below.error)
        else rows == Ok(BucketRows(bs[..k], curLevel, lastLevel, row, buckets, extract).value + below.value)
  {
    assert bs[..k + 1][..k] == bs[..k] && bs[..k + 1][k] == bs[k];
  }

  /** One combination of buckets, one per level below `curLevel`: their key texts and the innermost level. */
  datatype Combination = Combination(keys: seq<string>, aggs: Aggregations)

  function PrependKey(key: string, combos: seq<Combination>): (r: seq<Combination>)
    ensures |r| == |combos|
    ensures forall k :: 0 <= k < |combos| ==> r[k] == Combination([key] + combos[k].keys, combos[k].aggs)
  {
    seq(|combos|, k requires 0 <= k < |combos| => Combination([key] + combos[k].keys, combos[k].aggs))
  }

  /**
   * Reference enumeration of the bucket combinations below level
   * `curLevel`, depth first and in the backend's bucket order at every level.
   */
  function Combinations(aggs: Aggregations, curLevel: nat, lastLevel: nat, buckets: seq<GroupingBucket>)
    : Result<seq<Combination>>
    requires lastLevel <= |buckets|
    decreases if curLevel <= lastLevel then lastLevel - curLevel else 0, 1, 0
  {
    if curLevel == lastLevel then Ok([Combination([], aggs)])
    else if curLevel < lastLevel then
      var name := GroupingBucketAggName(buckets[curLevel]);
      if name in aggs && aggs[name].MultiBuckets? then
        BucketCombinations(aggs[name].buckets, curLevel, lastLevel, buckets)
      else
        Err(MissingBucketAggregation(name))
    else
      Err(LevelOverrun(curLevel, lastLevel))
  }

  function BucketCombinations(bs: seq<Bucket>, curLevel: nat, lastLevel: nat, buckets: seq<GroupingBucket>)
    : Result<seq<Combination>>
    requires curLevel < lastLevel <= |buckets|
    decreases lastLevel - curLevel, 0, |bs|
  {
    if bs == [] then Ok([])
    else
      var earlier :- BucketCombinations(bs[..|bs| - 1], curLevel, lastLevel, buckets);
      var b := bs[|bs| - 1];
      var key :- BucketKeyText(b, buckets[curLevel]);
      var later :- Combinations(b.aggs, curLevel + 1, lastLevel, buckets);
      Ok(earlier + PrependKey(key, later))
  }

  /** The row of each combination: the enclosing keys, the combination's keys, then the spec values. */
  function CombinationRows(combos: seq<Combination>, row: seq<string>, extract: Aggregations -> Result<seq<string>>)
    : Result<seq<seq<string>>>
    decreases |combos|
  {
    if combos == [] then Ok([])
    else
      var earlier :- CombinationRows(combos[..|combos| - 1], row, extract);
      var last := combos[|combos| - 1];
      var values :- extract(last.aggs);
      Ok(earlier + [row + last.keys + values])
  }

  /** One row per combination, in order, each the keys followed by the values; failing iff some values fail. */
  lemma {:induction false} CombinationRowsSpec(combos: seq<Combination>, row: seq<string>, extract: Aggregations -> Result<seq<string>>)
    ensures CombinationRows(combos, row, extract).Ok? <==>
      forall k :: 0 <= k < |combos| ==> extract(combos[k].aggs).Ok?
    ensures CombinationRows(combos, row, extract).Ok? ==>
      && |CombinationRows(combos, row, extract).value| == |combos|
      && forall k :: 0 <= k < |combos| ==>
           CombinationRows(combos, row, extract).value[k] ==
             row + combos[k].keys + extract(combos[k].aggs).value
    decreases |combos|
  {
    if combos != [] {
      var n := |combos| - 1;
      CombinationRowsSpec(combos[..n], row, extract);
      assert forall k :: 0 <= k < n ==> combos[..n][k] == combos[k];
    }
  }

  /** Rows of a concatenation are the concatenation of the rows. */
  lemma {:induction false} CombinationRowsAppend(l1: seq<Combination>, l2: seq<Combination>, row: seq<string>,
                                          extract: Aggregations -> Result<seq<string>>)
    ensures CombinationRows(l1 + l2, row, extract).Ok? <==>
      CombinationRows(l1, row, extract).Ok? && CombinationRows(l2, row, extract).Ok?
    ensures CombinationRows(l1 + l2, row, extract).Ok? ==>
      CombinationRows(l1 + l2, row, extract).value ==
        CombinationRows(l1, row, extract).value + CombinationRows(l2, row, extract).value
    decreases |l2|
  {
    if l2 == [] {
      assert l1 + l2 == l1;
    } else {
      var n := |l2| - 1;
      assert (l1 + l2)[..|l1 + l2| - 1] == l1 + l2[..n];
      assert (l1 + l2)[|l1 + l2| - 1] == l2[n];
      CombinationRowsAppend(l1, l2[..n], row, extract);
    }
  }

  /** Prepending a key to every combination is the same as extending the enclosing keys. */
  lemma {:induction false} CombinationRowsPrepend(key: string, combos: seq<Combination>, row: seq<string>,
                                           extract: Aggregations -> Result<seq<string>>)
    ensures CombinationRows(PrependKey(key, combos), row, extract) == CombinationRows(combos, row + [key], extract)
    decreases |combos|
  {
    if combos != [] {
      var n := |combos| - 1;
      assert PrependKey(key, combos)[..n] == PrependKey(key, combos[..n]);
      CombinationRowsPrepend(key, combos[..n], row, extract);
      assert row + ([key] + combos[n].keys) == (row + [key]) + combos[n].keys;
    }
  }

  /** `rows` are the rows of `combos` below the enclosing keys `row`: both fail together or agree. */
  ghost predicate RowsOfCombinations(rows: Result<seq<seq<string>>>, combos: Result<seq<Combination>>, row: seq<string>,
                               extract: Aggregations -> Result<seq<string>>)
  {
    && (rows.Ok? <==> combos.Ok? && CombinationRows(combos.value, row, extract).Ok?)
    && (rows.Ok? ==> rows.value == CombinationRows(combos.value, row, extract).value)
  }

  /** How the walk joins the rows of the earlier buckets, one more key, and the rows below that key. */
  function JoinRows(earlier: Result<seq<seq<string>>>, key: Result<string>, later: Result<seq<seq<string>>>)
    : Result<seq<seq<string>>>
  {
    if earlier.Err? then earlier
    else if key.Err? then Err(key.error)
    else if later.Err? then later
    else Ok(earlier.value + later.value)
  }

  /** How the enumeration joins the combinations of the earlier buckets, one more key, and those below it. */
  function JoinCombinations(earlier: Result<seq<Combination>>, key: Result<string>, later: Result<seq<Combination>>): Result<seq<Combination>> {
    if earlier.Err? then earlier
    else if key.Err? then Err(key.error)
    else if later.Err? then later
    else Ok(earlier.value + PrependKey(key.value, later.value))
  }

  /** Joining keeps rows and combinations in step. */
  lemma JoinRowsOfCombinations(earlier: Result<seq<seq<string>>>, earlierCombos: Result<seq<Combination>>, key: Result<string>,
                         later: Result<seq<seq<string>>>, laterCombos: Result<seq<Combination>>, row: seq<string>,
                         extract: Aggregations -> Result<seq<string>>)
    requires RowsOfCombinations(earlier, earlierCombos, row, extract)
    requires key.Ok? ==> RowsOfCombinations(later, laterCombos, row + [key.value], extract)
    ensures RowsOfCombinations(JoinRows(earlier, key, later), JoinCombinations(earlierCombos, key, laterCombos), row, extract)
  {
    if earlierCombos.Ok? && key.Ok? && laterCombos.Ok? {
      CombinationRowsOfBucket(earlierCombos.value, key.value, laterCombos.value, row, extract);
    }
  }

  lemma BucketRowsLast(bs: seq<Bucket>, curLevel: nat, lastLevel: nat, row: seq<string>,
                       buckets: seq<GroupingBucket>, extract: Aggregations -> Result<seq<string>>)
    requires curLevel < lastLevel <= |buckets| && bs != []
    ensures var b := bs[|bs| - 1];
      var key := BucketKeyText(b, buckets[curLevel]);
      BucketRows(bs, curLevel, lastLevel, row, buckets, extract) ==
        JoinRows(BucketRows(bs[..|bs| - 1], curLevel, lastLevel, row, buckets, extract), key,
                 if key.Ok? then LevelRows(b.aggs, curLevel + 1, lastLevel, row + [key.value], buckets, extract) else Ok([]))
  {
  }

  lemma BucketCombinationsLast(bs: seq<Bucket>, curLevel: nat, lastLevel: nat, buckets: seq<GroupingBucket>)
    requires curLevel < lastLevel <= |buckets| && bs != []
    ensures var b := bs[|bs| - 1];
      BucketCombinations(bs, curLevel, lastLevel, buckets) ==
        JoinCombinations(BucketCombinations(bs[..|bs| - 1], curLevel, lastLevel, buckets), BucketKeyText(b, buckets[curLevel]),
                   Combinations(b.aggs, curLevel + 1, lastLevel, buckets))
  {
  }

  /** When the enumeration of a level succeeds, so do its parts, and it is their join. */
  lemma BucketCombinationsOk(bs: seq<Bucket>, curLevel: nat, lastLevel: nat, buckets: seq<GroupingBucket>)
    requires curLevel < lastLevel <= |buckets| && bs != []
    requires BucketCombinations(bs, curLevel, lastLevel, buckets).Ok?
    ensures var b := bs[|bs| - 1];
      && BucketCombinations(bs[..|bs| - 1], curLevel, lastLevel, buckets).Ok?
      && BucketKeyText(b, buckets[curLevel]).Ok?
      && Combinations(b.aggs, curLevel + 1, lastLevel, buckets).Ok?
      && BucketCombinations(bs, curLevel, lastLevel, buckets).value ==
           BucketCombinations(bs[..|bs| - 1], curLevel, lastLevel, buckets).value +
           PrependKey(BucketKeyText(b, buckets[curLevel]).value, Combinations(b.aggs, curLevel + 1, lastLevel, buckets).value)
  {
  }

  /**
   * The walk emits exactly one row per bucket combination of the reference
   * enumeration, in its order: the enclosing keys, the combination's keys
   * and the spec values; it succeeds iff the enumeration and every
   * extraction do.
   */
  lemma {:induction false} LevelRowsAreCombinationRows(aggs: Aggregations, curLevel: nat, lastLevel: nat, row: seq<string>,
                                                buckets: seq<GroupingBucket>, extract: Aggregations -> Result<seq<string>>)
    requires lastLevel <= |buckets|
    ensures RowsOfCombinations(LevelRows(aggs, curLevel, lastLevel, row, buckets, extract),
                         Combinations(aggs, curLevel, lastLevel, buckets), row, extract)
    decreases if curLevel <= lastLevel then lastLevel - curLevel else 0, 1, 0
  {
    if curLevel == lastLevel {
      assert [Combination([], aggs)][..0] == [];
      assert row + [] == row;
    } else if curLevel < lastLevel {
      var name := GroupingBucketAggName(buckets[curLevel]);
      if name in aggs && aggs[name].MultiBuckets? {
        BucketRowsAreCombinationRows(aggs[name].buckets, curLevel, lastLevel, row, buckets, extract);
      }
    }
  }

  lemma {:induction false} BucketRowsAreCombinationRows(bs: seq<Bucket>, curLevel: nat, lastLevel: nat, row: seq<string>,
                                                 buckets: seq<GroupingBucket>, extract: Aggregations -> Result<seq<string>>)
    requires curLevel < lastLevel <= |buckets|
    ensures RowsOfCombinations(BucketRows(bs, curLevel, lastLevel, row, buckets, extract),
                         BucketCombinations(bs, curLevel, lastLevel, buckets), row, extract)
    decreases lastLevel - curLevel, 0, |bs|
  {
    if bs != [] {
      var init := bs[..|bs| - 1];
      var b := bs[|bs| - 1];
      BucketRowsAreCombinationRows(init, curLevel, lastLevel, row, buckets, extract);
      var key := BucketKeyText(b, buckets[curLevel]);
      var later := if key.Ok? then LevelRows(b.aggs, curLevel + 1, lastLevel, row + [key.value], buckets, extract) else Ok([]);
      if key.Ok? {
        LevelRowsAreCombinationRows(b.aggs, curLevel + 1, lastLevel, row + [key.value], buckets, extract);
      }
      BucketRowsLast(bs, curLevel, lastLevel, row, buckets, extract);
      BucketCombinationsLast(bs, curLevel, lastLevel, buckets);
      JoinRowsOfCombinations(BucketRows(init, curLevel, lastLevel, row, buckets, extract), BucketCombinations(init, curLevel, lastLevel, buckets),
                       key, later, Combinations(b.aggs, curLevel + 1, lastLevel, buckets), row, extract);
    }
  }

  /** The rows of the combinations of earlier buckets and of one more bucket with key `key`. */
  lemma CombinationRowsOfBucket(earlier: seq<Combination>, key: string, later: seq<Combination>, row: seq<string>,
                         extract: Aggregations -> Result<seq<string>>)
    ensures var rows := CombinationRows(earlier + PrependKey(key, later), row, extract);
      && (rows.Ok? <==> CombinationRows(earlier, row, extract).Ok? && CombinationRows(later, row + [key], extract).Ok?)
      && (rows.Ok? ==> rows.value == CombinationRows(earlier, row, extract).value + CombinationRows(later, row + [key], extract).value)
  {
    CombinationRowsPrepend(key, later, row, extract);
    CombinationRowsAppend(earlier, PrependKey(key, later), row, extract);
  }

  /** Every combination below level `curLevel` has one key per remaining level. */
  lemma {:induction false} CombinationKeysWidth(aggs: Aggregations, curLevel: nat, lastLevel: nat, buckets: seq<GroupingBucket>)
    requires curLevel <= lastLevel <= |buckets|
    requires Combinations(aggs, curLevel, lastLevel, buckets).Ok?
    ensures forall k :: 0 <= k < |Combinations(aggs, curLevel, lastLevel, buckets).value| ==>
      |Combinations(aggs, curLevel, lastLevel, buckets).value[k].keys| == lastLevel - curLevel
    decreases lastLevel - curLevel, 1, 0
  {
    if curLevel < lastLevel {
      var name := GroupingBucketAggName(buckets[curLevel]);
      BucketCombinationsKeysWidth(aggs[name].buckets, curLevel, lastLevel, buckets);
    }
  }

  lemma {:induction false} BucketCombinationsKeysWidth(bs: seq<Bucket>, curLevel: nat, lastLevel: nat,
                                                 buckets: seq<GroupingBucket>)
    requires curLevel < lastLevel <= |buckets|
    requires BucketCombinations(bs, curLevel, lastLevel, buckets).Ok?
    ensures forall k :: 0 <= k < |BucketCombinations(bs, curLevel, lastLevel, buckets).value| ==>
      |BucketCombinations(bs, curLevel, lastLevel, buckets).value[k].keys| == lastLevel - curLevel
    decreases lastLevel - curLevel, 0, |bs|
  {
    if bs != [] {
      var init := bs[..|bs| - 1];
      var b := bs[|bs| - 1];
      BucketCombinationsOk(bs, curLevel, lastLevel, buckets);
      BucketCombinationsKeysWidth(init, curLevel, lastLevel, buckets);
      CombinationKeysWidth(b.aggs, curLevel + 1, lastLevel, buckets);
      PrependKeysWidth(BucketCombinations(init, curLevel, lastLevel, buckets).value, BucketKeyText(b, buckets[curLevel]).value,
                       Combinations(b.aggs, curLevel + 1, lastLevel, buckets).value,
                       BucketCombinations(bs, curLevel, lastLevel, buckets).value, lastLevel - curLevel);
    }
  }

  /** One bucket's key in front of combinations one key narrower gives combinations of full width. */
  lemma PrependKeysWidth(earlier: seq<Combination>, key: string, later: seq<Combination>, all: seq<Combination>, width: nat)
    requires all == earlier + PrependKey(key, later) && width > 0
    requires forall k :: 0 <= k < |earlier| ==> |earlier[k].keys| == width
    requires forall k :: 0 <= k < |later| ==> |later[k].keys| == width - 1
    ensures forall k :: 0 <= k < |all| ==> |all[k].keys| == width
  {
    forall k | 0 <= k < |all|
      ensures |all[k].keys| == width
    {
      if k >= |earlier| {
        assert all[k].keys == [key] + later[k - |earlier|].keys;
      }
    }
  }

  /**
   * At every date level, a combination's key is the decimal text of an
   * epoch-millisecond instant.
   */
  lemma {:induction false} CombinationDateKeysDecimal(aggs: Aggregations, curLevel: nat, lastLevel: nat,
                                               buckets: seq<GroupingBucket>)
    requires curLevel <= lastLevel <= |buckets|
    requires Combinations(aggs, curLevel, lastLevel, buckets).Ok?
    ensures forall k, j :: (0 <= k < |Combinations(aggs, curLevel, lastLevel, buckets).value| &&
      curLevel <= j < lastLevel && buckets[j].DateGroupingBucket?) ==>
        j - curLevel < |Combinations(aggs, curLevel, lastLevel, buckets).value[k].keys| &&
        IsDecimal(Combinations(aggs, curLevel, lastLevel, buckets).value[k].keys[j - curLevel])
    decreases lastLevel - curLevel, 1, 0
  {
    if curLevel < lastLevel {
      var name := GroupingBucketAggName(buckets[curLevel]);
      BucketCombinationsDateKeysDecimal(aggs[name].buckets, curLevel, lastLevel, buckets);
    }
  }

  lemma {:induction false} BucketCombinationsDateKeysDecimal(bs: seq<Bucket>, curLevel: nat, lastLevel: nat,
                                                       buckets: seq<GroupingBucket>)
    requires curLevel < lastLevel <= |buckets|
    requires BucketCombinations(bs, curLevel, lastLevel, buckets).Ok?
    ensures forall k, j :: (0 <= k < |BucketCombinations(bs, curLevel, lastLevel, buckets).value| &&
      curLevel <= j < lastLevel && buckets[j].DateGroupingBucket?) ==>
        j - curLevel < |BucketCombinations(bs, curLevel, lastLevel, buckets).value[k].keys| &&
        IsDecimal(BucketCombinations(bs, curLevel, lastLevel, buckets).value[k].keys[j - curLevel])
    decreases lastLevel - curLevel, 0, |bs|
  {
    if bs != [] {
      var init := bs[..|bs| - 1];
      var b := bs[|bs| - 1];
      BucketCombinationsOk(bs, curLevel, lastLevel, buckets);
      BucketCombinationsDateKeysDecimal(init, curLevel, lastLevel, buckets);
      CombinationDateKeysDecimal(b.aggs, curLevel + 1, lastLevel, buckets);
      var key := BucketKeyText(b, buckets[curLevel]).value;
      if buckets[curLevel].DateGroupingBucket? {
        DateKeyRoundTrip(b, buckets[curLevel]);
      }
      PrependDateKeys(BucketCombinations(init, curLevel, lastLevel, buckets).value, key,
                      Combinations(b.aggs, curLevel + 1, lastLevel, buckets).value,
                      BucketCombinations(bs, curLevel, lastLevel, buckets).value, curLevel, lastLevel, buckets);
    }
  }

  /** One bucket's key in front of the combinations below it keeps every date-level key decimal. */
  lemma PrependDateKeys(earlier: seq<Combination>, key: string, later: seq<Combination>, all: seq<Combination>, curLevel: nat,
                        lastLevel: nat, buckets: seq<GroupingBucket>)
    requires all == earlier + PrependKey(key, later)
    requires curLevel < lastLevel <= |buckets|
    requires buckets[curLevel].DateGroupingBucket? ==> IsDecimal(key)
    requires forall k, j :: (0 <= k < |earlier| && curLevel <= j < lastLevel && buckets[j].DateGroupingBucket?) ==>
      j - curLevel < |earlier[k].keys| && IsDecimal(earlier[k].keys[j - curLevel])
    requires forall k, j :: (0 <= k < |later| && curLevel + 1 <= j < lastLevel && buckets[j].DateGroupingBucket?) ==>
      j - (curLevel + 1) < |later[k].keys| && IsDecimal(later[k].keys[j - (curLevel + 1)])
    ensures forall k, j :: (0 <= k < |all| && curLevel <= j < lastLevel && buckets[j].DateGroupingBucket?) ==>
      j - curLevel < |all[k].keys| && IsDecimal(all[k].keys[j - curLevel])
  {
    forall k, j | 0 <= k < |all| && curLevel <= j < lastLevel && buckets[j].DateGroupingBucket?
      ensures j - curLevel < |all[k].keys| && IsDecimal(all[k].keys[j - curLevel])
    {
      if k >= |earlier| {
        var combo := later[k - |earlier|];
        assert all[k].keys == [key] + combo.keys;
      }
    }
  }

  /** The spec values of a leaf level, when they succeed, are one per spec. */
  lemma ExtractorWidth(schema: AspectSchema, specs: seq<AggregationSpec>)
    ensures forall aggs :: Extractor(schema, specs)(aggs).Ok? ==> |Extractor(schema, specs)(aggs).value| == |specs|
  {
    forall aggs | Extractor(schema, specs)(aggs).Ok?
      ensures |Extractor(schema, specs)(aggs).value| == |specs|
    {
      ExtractAllSpec(aggs, schema, specs);
    }
  }

  /**
   * The rows of the walk from the top level, for any extraction of fixed
   * width: one per bucket combination, each the combination's keys (epoch
   * milliseconds at date levels) followed by its extracted values.
   */
  lemma {:induction false} RowsShapeOf(aggs: Aggregations, buckets: seq<GroupingBucket>,
                                       extract: Aggregations -> Result<seq<string>>, width: nat)
    requires forall a :: extract(a).Ok? ==> |extract(a).value| == width
    requires LevelRows(aggs, 0, |buckets|, [], buckets, extract).Ok?
    ensures var rows := LevelRows(aggs, 0, |buckets|, [], buckets, extract).value;
      && Combinations(aggs, 0, |buckets|, buckets).Ok?
      && var combos := Combinations(aggs, 0, |buckets|, buckets).value;
      && |rows| == |combos|
      && (forall k :: 0 <= k < |rows| ==> |rows[k]| == |buckets| + width)
      && (forall k :: 0 <= k < |rows| ==> rows[k][..|buckets|] == combos[k].keys)
      && (forall k :: 0 <= k < |rows| ==> extract(combos[k].aggs) == Ok(rows[k][|buckets|..]))
  {
    LevelRowsAreCombinationRows(aggs, 0, |buckets|, [], buckets, extract);
    CombinationKeysWidth(aggs, 0, |buckets|, buckets);
    CombinationRowsShape(Combinations(aggs, 0, |buckets|, buckets).value, extract, width, |buckets|);
  }

  /** The rows of combinations with `n` keys each, for an extraction of fixed width, below no enclosing keys. */
  lemma CombinationRowsShape(combos: seq<Combination>, extract: Aggregations -> Result<seq<string>>, width: nat, n: nat)
    requires forall a :: extract(a).Ok? ==> |extract(a).value| == width
    requires forall k :: 0 <= k < |combos| ==> |combos[k].keys| == n
    requires CombinationRows(combos, [], extract).Ok?
    ensures var rows := CombinationRows(combos, [], extract).value;
      && |rows| == |combos|
      && (forall k :: 0 <= k < |rows| ==> |rows[k]| == n + width)
      && (forall k :: 0 <= k < |rows| ==> rows[k][..n] == combos[k].keys)
      && (forall k :: 0 <= k < |rows| ==> extract(combos[k].aggs) == Ok(rows[k][n..]))
  {
    var rows := CombinationRows(combos, [], extract).value;
    CombinationRowsSpec(combos, [], extract);
    forall k | 0 <= k < |rows|
      ensures |rows[k]| == n + width && rows[k][..n] == combos[k].keys
      ensures extract(combos[k].aggs) == Ok(rows[k][n..])
    {
      var values := extract(combos[k].aggs);
      assert rows[k] == combos[k].keys + values.value;
    }
  }

  /** In every row, the cell of each date level is the decimal text of an epoch-millisecond instant. */
  lemma RowDateKeysOf(aggs: Aggregations, buckets: seq<GroupingBucket>,
                      extract: Aggregations -> Result<seq<string>>, width: nat)
    requires forall a :: extract(a).Ok? ==> |extract(a).value| == width
    requires LevelRows(aggs, 0, |buckets|, [], buckets, extract).Ok?
    ensures var rows := LevelRows(aggs, 0, |buckets|, [], buckets, extract).value;
      forall k, i :: (0 <= k < |rows| && 0 <= i < |buckets| && buckets[i].DateGroupingBucket?) ==>
        i < |rows[k]| && IsDecimal(rows[k][i])
  {
    var rows := LevelRows(aggs, 0, |buckets|, [], buckets, extract).value;
    RowsShapeOf(aggs, buckets, extract, width);
    var combos := Combinations(aggs, 0, |buckets|, buckets).value;
    CombinationDateKeysDecimal(aggs, 0, |buckets|, buckets);
    forall k, i | 0 <= k < |rows| && 0 <= i < |buckets| && buckets[i].DateGroupingBucket?
      ensures i < |rows[k]| && IsDecimal(rows[k][i])
    {
      assert rows[k][i] == rows[k][..|buckets|][i] == combos[k].keys[i - 0];
    }
  }

  /**
   * The table's rows: one per bucket combination of the response, in
   * depth-first bucket order; every row has one cell per grouping bucket and
   * per spec, its first cells are the combination's keys (epoch milliseconds
   * at date levels) and the rest the spec values at its innermost level; and
   * with no grouping buckets there is exactly one row.
   */
  lemma RowsShape(aggs: Aggregations, buckets: seq<GroupingBucket>, specs: seq<AggregationSpec>, schema: AspectSchema)
    requires LevelRows(aggs, 0, |buckets|, [], buckets, Extractor(schema, specs)).Ok?
    ensures var rows := LevelRows(aggs, 0, |buckets|, [], buckets, Extractor(schema, specs)).value;
      && Combinations(aggs, 0, |buckets|, buckets).Ok?
      && var combos := Combinations(aggs, 0, |buckets|, buckets).value;
      && |rows| == |combos|
      && (forall k :: 0 <= k < |rows| ==> |rows[k]| == |buckets| + |specs|)
      && (forall k :: 0 <= k < |rows| ==> rows[k][..|buckets|] == combos[k].keys)
      && (forall k :: 0 <= k < |rows| ==>
            ExtractAll(combos[k].aggs, schema, specs) == Ok(rows[k][|buckets|..]))
      && (forall k, i :: (0 <= k < |rows| && 0 <= i < |buckets| && buckets[i].DateGroupingBucket?) ==>
            IsDecimal(rows[k][i]))
      && (buckets == [] ==> |rows| == 1)
  {
    ExtractorWidth(schema, specs);
    RowsShapeOf(aggs, buckets, Extractor(schema, specs), |specs|);
    RowDateKeysOf(aggs, buckets, Extractor(schema, specs), |specs|);
  }
}
