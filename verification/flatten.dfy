/**
 * Response flattener: the depth-first walk that turns the nested bucket
 * aggregations of a response into table rows, using a mutable stack for the
 * row under construction and a mutable list for the finished rows.
 */
module Flatten {
  import opened Types
  import opened Naming
  import opened Schema
  import opened Columns
  import opened Response

  /** `Stack<String>`: the cells of the row under construction. */
  class RowStack {
    var elems: seq<string>

    constructor()
      ensures elems == []
    {
      elems := [];
    }

    method Push(x: string)
      modifies this
      ensures elems == old(elems) + [x]
    {
      elems := elems + [x];
    }

    method Pop() returns (x: string)
      requires elems != []
      modifies this
      ensures elems == old(elems)[..|old(elems)| - 1]
      ensures x == old(elems)[|old(elems)| - 1]
    {
      x := elems[|elems| - 1];
      elems := elems[..|elems| - 1];
    }
  }

  /** `List<StringArray>`: the finished rows. */
  class RowList {
    var rows: seq<seq<string>>

    constructor()
      ensures rows == []
    {
      rows := [];
    }

    /** Appends a copy of a row (`new StringArray(row)`). */
    method Add(row: seq<string>)
      modifies this
      ensures rows == old(rows) + [row]
    {
      rows := rows + [row];
    }
  }

  /**
   * The first loop of the innermost level of `rowGenHelper`: pushes the
   * value of every spec in order. It succeeds exactly when every extraction
   * does, having pushed exactly the values, and otherwise fails with the
   * first failing spec's error.
   */
  method PushValues(lowestAggs: Aggregations, row: RowStack, specs: seq<AggregationSpec>, schema: AspectSchema)
    returns (outcome: Outcome)
    modifies row
    ensures var values := ExtractAll(lowestAggs, schema, specs);
      && (outcome.Pass? <==> values.Ok?)
      && (outcome.Pass? ==> row.elems == old(row.elems) + values.value)
      && (outcome.Fail? ==> outcome.error == values.error)
  {
    ghost var prefix := row.elems;
    ghost var values: seq<string> := [];
    var i := 0;
    while i < |specs|
      invariant 0 <= i <= |specs|
      invariant CollectAll(SpecValues(lowestAggs, schema, specs)[..i]) == Ok(values)
      invariant row.elems == prefix + values
    {
      outcome, values := PushValue(lowestAggs, row, specs, schema, i, prefix, values);
      if outcome.Fail? {
        return;
      }
      i := i + 1;
    }
    assert SpecValues(lowestAggs, schema, specs)[..|specs|] == SpecValues(lowestAggs, schema, specs);
    return Pass;
  }

  /**
   * One iteration of the first loop: pushes the value of `specs[i]` after
   * the values of the specs before it. On success the values of
   * `specs[..i + 1]` are on the stack; a failure is the failure of the
   * whole extraction.
   */
  method PushValue(lowestAggs: Aggregations, row: RowStack, specs: seq<AggregationSpec>, schema: AspectSchema,
                   i: nat, ghost prefix: seq<string>, ghost values: seq<string>)
    returns (outcome: Outcome, ghost values': seq<string>)
    requires i < |specs| && CollectAll(SpecValues(lowestAggs, schema, specs)[..i]) == Ok(values)
    requires row.elems == prefix + values
    modifies row
    ensures outcome.Pass? ==>
      CollectAll(SpecValues(lowestAggs, schema, specs)[..i + 1]) == Ok(values') && row.elems == prefix + values'
    ensures outcome.Fail? ==> ExtractAll(lowestAggs, schema, specs) == Err(outcome.error)
  {
    ghost var rs := SpecValues(lowestAggs, schema, specs);
    var value := ExtractAggregationValue(lowestAggs, schema, specs[i]);
    assert rs[i] == value;
    CollectAllStep(rs, i);
    if value.Err? {
      CollectAllPrefixFails(rs, i + 1);
      return Fail(value.error), values;
    }
    AppendAssoc(prefix, values, [value.value]);
    row.Push(value.value);
    values' := values + [value.value];
    outcome := Pass;
  }

  /** The second loop of the innermost level: pops `n` cells. */
  method PopCells(row: RowStack, n: nat)
    requires n <= |row.elems|
    modifies row
    ensures row.elems == old(row.elems)[..|old(row.elems)| - n]
  {
    ghost var full := row.elems;
    var j := 0;
    while j < n
      invariant 0 <= j <= n
      invariant row.elems == full[..|full| - j]
    {
      var _ := row.Pop();
      j := j + 1;
    }
  }

  /**
   * The innermost level of `rowGenHelper`: pushes the value of every spec,
   * appends a copy of the full row, then pops the values again. It succeeds
   * exactly when every extraction does, and otherwise fails with the first
   * failing spec's error, leaving the rows untouched.
   */
  method EmitLeafRow(lowestAggs: Aggregations, rows: RowList, row: RowStack,
                     specs: seq<AggregationSpec>, schema: AspectSchema)
    returns (outcome: Outcome)
    modifies rows, row
    ensures var values := ExtractAll(lowestAggs, schema, specs);
      && (outcome.Pass? <==> values.Ok?)
      && (outcome.Pass? ==> rows.rows == old(rows.rows) + [old(row.elems) + values.value] && row.elems == old(row.elems))
      && (outcome.Fail? ==> outcome.error == values.error && rows.rows == old(rows.rows))
  {
    ghost var prefix := row.elems;
    outcome := PushValues(lowestAggs, row, specs, schema);
    if outcome.Fail? {
      return;
    }
    ExtractAllSpec(lowestAggs, schema, specs);
    rows.Add(row.elems);
    PopCells(row, |specs|);
    PrefixOfAppend(prefix, ExtractAll(lowestAggs, schema, specs).value);
  }

  /**
   * `rowGenHelper`: appends to `rows` the rows under level `curLevel` of
   * the response. It succeeds exactly when the row specification does, and
   * then appends exactly its rows, in order, and leaves the stack as it
   * found it; it fails with the error the specification reports. A failure
   * leaves the rows appended so far in place.
   */
  method RowGenHelper(lowestAggs: Aggregations, curLevel: nat, lastLevel: nat, rows: RowList, row: RowStack,
                      buckets: seq<GroupingBucket>, specs: seq<AggregationSpec>, schema: AspectSchema)
    returns (outcome: Outcome)
    requires lastLevel <= |buckets|
    modifies rows, row
    ensures var spec := LevelRows(lowestAggs, curLevel, lastLevel, old(row.elems), buckets, Extractor(schema, specs));
      && (outcome.Pass? <==> spec.Ok?)
      && (outcome.Pass? ==> rows.rows == old(rows.rows) + spec.value && row.elems == old(row.elems))
      && (outcome.Fail? ==> outcome.error == spec.error)
    decreases if curLevel <= lastLevel then lastLevel - curLevel else 0, 3
  {
    if curLevel == lastLevel {
      outcome := EmitLeafRow(lowestAggs, rows, row, specs, schema);
      assert Extractor(schema, specs)(lowestAggs) == ExtractAll(lowestAggs, schema, specs);
    } else if curLevel < lastLevel {
      // A grouping level: walk the buckets of its aggregation.
      var name := GroupingBucketAggName(buckets[curLevel]);
      if !(name in lowestAggs && lowestAggs[name].MultiBuckets?) {
        return Fail(MissingBucketAggregation(name));
      }
      outcome := WalkBuckets(lowestAggs[name].buckets, curLevel, lastLevel, rows, row, buckets, specs, schema);
    } else {
      return Fail(LevelOverrun(curLevel, lastLevel));
    }
  }

  /** The buckets of one grouping level, in order, each through `EmitBucket`; stops at the first failure. */
  method WalkBuckets(bs: seq<Bucket>, curLevel: nat, lastLevel: nat, rows: RowList, row: RowStack,
                     buckets: seq<GroupingBucket>, specs: seq<AggregationSpec>, schema: AspectSchema)
    returns (outcome: Outcome)
    requires curLevel < lastLevel <= |buckets|
    modifies rows, row
    ensures var spec := BucketRows(bs, curLevel, lastLevel, old(row.elems), buckets, Extractor(schema, specs));
      && (outcome.Pass? <==> spec.Ok?)
      && (outcome.Pass? ==> rows.rows == old(rows.rows) + spec.value && row.elems == old(row.elems))
      && (outcome.Fail? ==> outcome.error == spec.error)
    decreases lastLevel - curLevel, 2
  {
    ghost var prefix := row.elems;
    ghost var start := rows.rows;
    var k := 0;
    while k < |bs|
      invariant 0 <= k <= |bs|
      invariant BucketRows(bs[..k], curLevel, lastLevel, prefix, buckets, Extractor(schema, specs)).Ok?
      invariant rows.rows == start + BucketRows(bs[..k], curLevel, lastLevel, prefix, buckets, Extractor(schema, specs)).value
      invariant row.elems == prefix
    {
      var sub := WalkStep(bs, k, curLevel, lastLevel, rows, row, buckets, specs, schema, prefix, start);
      if sub.Fail? {
        return sub;
      }
      k := k + 1;
    }
    assert bs[..|bs|] == bs;
    return Pass;
  }

  /**
   * One iteration of the loop over a level's buckets: the rows of the
   * buckets before `bs[k]` are in place, and `bs[k]` goes through
   * `EmitBucket`. On success the rows of `bs[..k + 1]` are in place; a
   * failure is the failure of the whole level.
   */
  method WalkStep(bs: seq<Bucket>, k: nat, curLevel: nat, lastLevel: nat, rows: RowList, row: RowStack,
                  buckets: seq<GroupingBucket>, specs: seq<AggregationSpec>, schema: AspectSchema,
                  ghost prefix: seq<string>, ghost start: seq<seq<string>>)
    returns (outcome: Outcome)
    requires curLevel < lastLevel <= |buckets| && k < |bs|
    requires BucketRows(bs[..k], curLevel, lastLevel, prefix, buckets, Extractor(schema, specs)).Ok?
    requires rows.rows == start + BucketRows(bs[..k], curLevel, lastLevel, prefix, buckets, Extractor(schema, specs)).value
    requires row.elems == prefix
    modifies rows, row
    ensures outcome.Pass? ==>
      && BucketRows(bs[..k + 1], curLevel, lastLevel, prefix, buckets, Extractor(schema, specs)).Ok?
      && rows.rows == start + BucketRows(bs[..k + 1], curLevel, lastLevel, prefix, buckets, Extractor(schema, specs)).value
      && row.elems == prefix
    ensures outcome.Fail? ==>
      BucketRows(bs, curLevel, lastLevel, prefix, buckets, Extractor(schema, specs)) == Err(outcome.error)
    decreases lastLevel - curLevel, 1
  {
    ghost var extract := Extractor(schema, specs);
    BucketRowsStep(bs, k, curLevel, lastLevel, prefix, buckets, extract);
    outcome := EmitBucket(bs[k], curLevel, lastLevel, rows, row, buckets, specs, schema);
    if outcome.Fail? {
      BucketRowsPrefixFails(bs, k + 1, curLevel, lastLevel, prefix, buckets, extract);
      return;
    }
    AppendAssoc(start, BucketRows(bs[..k], curLevel, lastLevel, prefix, buckets, extract).value,
                LevelRows(bs[k].aggs, curLevel + 1, lastLevel, prefix + [BucketKeyText(bs[k], buckets[curLevel]).value],
                          buckets, extract).value);
  }

  /**
   * One bucket of a grouping level: pushes its key, walks the level below,
   * and pops the key again; it fails when the key is not of the level's
   * kind or the level below fails.
   */
  method EmitBucket(b: Bucket, curLevel: nat, lastLevel: nat, rows: RowList, row: RowStack,
                    buckets: seq<GroupingBucket>, specs: seq<AggregationSpec>, schema: AspectSchema)
    returns (outcome: Outcome)
    requires curLevel < lastLevel <= |buckets|
    modifies rows, row
    ensures var key := BucketKeyText(b, buckets[curLevel]);
      if key.Err? then outcome == Fail(key.error)
      else
        var below := LevelRows(b.aggs, curLevel + 1, lastLevel, old(row.elems) + [key.value], buckets,
                               Extractor(schema, specs));
        && (outcome.Pass? <==> below.Ok?)
        && (outcome.Pass? ==> rows.rows == old(rows.rows) + below.value && row.elems == old(row.elems))
        && (outcome.Fail? ==> outcome.error == below.error)
    decreases lastLevel - curLevel, 0
  {
    ghost var prefix := row.elems;
    var key := BucketKeyText(b, buckets[curLevel]);
    if key.Err? {
      return Fail(key.error);
    }
    row.Push(key.value);
    outcome := RowGenHelper(b.aggs, curLevel + 1, lastLevel, rows, row, buckets, specs, schema);
    if outcome.Fail? {
      return;
    }
    PrefixOfAppend(prefix, [key.value]);
    var _ := row.Pop();
  }

  /** The result table: column names, column types and rows. */
  datatype GenericTable = GenericTable(columnNames: seq<string>, columnTypes: seq<string>, rows: seq<seq<string>>)

  /** One type per column, and one cell per column in every row. */
  predicate Rectangular(table: GenericTable) {
    && |table.columnTypes| == |table.columnNames|
    && forall k :: 0 <= k < |table.rows| ==> |table.rows[k]| == |table.columnNames|
  }

  /** The response's top-level filter aggregation holds the grouping levels. */
  predicate HasFilteredStats(response: Aggregations) {
    FilteredStats in response && response[FilteredStats].FilterResult?
  }

  /**
   * `generateResponseFromElastic`: succeeds exactly when every column
   * resolves, the response carries the filter aggregation and the walk
   * succeeds; the table then has the generated column names and types and
   * exactly the walk's rows, one cell per column in each. An unresolvable
   * column is reported before anything in the response is read.
   */
  method GenerateResponseFromElastic(response: Aggregations, buckets: seq<GroupingBucket>,
                                     specs: seq<AggregationSpec>, schema: AspectSchema)
    returns (r: Result<GenericTable>)
    ensures r.Ok? <==>
      && Resolvable(schema, buckets, specs)
      && HasFilteredStats(response)
      && LevelRows(response[FilteredStats].aggs, 0, |buckets|, [], buckets, Extractor(schema, specs)).Ok?
    ensures r.Ok? ==>
      && r.value.columnNames == GenColumnNames(buckets, specs)
      && DescribesColumns(schema, buckets, specs, r.value.columnTypes)
      && r.value.rows == LevelRows(response[FilteredStats].aggs, 0, |buckets|, [], buckets, Extractor(schema, specs)).value
      && Rectangular(r.value)
    ensures !Resolvable(schema, buckets, specs) ==> r.Err? && r.error.UnknownField?
    ensures Resolvable(schema, buckets, specs) && !HasFilteredStats(response) ==> r == Err(MissingFilteredStats)
  {
    var columnNames := GenColumnNames(buckets, specs);
    var columnTypes := GenColumnTypes(schema, buckets, specs);
    if columnTypes.Err? {
      return Err(columnTypes.error);
    }
    if !HasFilteredStats(response) {
      return Err(MissingFilteredStats);
    }
    var filterAgg := response[FilteredStats].aggs;
    var rowAcc := new RowStack();
    var rows := new RowList();
    var outcome := RowGenHelper(filterAgg, 0, |buckets|, rows, rowAcc, buckets, specs, schema);
    if outcome.Fail? {
      return Err(outcome.error);
    }
    assert rowAcc.elems == [];
    ColumnNamesDecode(buckets, specs);
    RowsShape(filterAgg, buckets, specs, schema);
    r := Ok(GenericTable(columnNames, columnTypes.value, rows.rows));
  }
}
