/**
 * Column generation: the names and types of the result table's columns,
 * one per grouping bucket (in order) followed by one per aggregation spec
 * (in order).
 */
module Columns {
  import opened Types
  import opened Naming
  import opened Schema

  /** `toString().toLowerCase()` of a schema type. */
  function TypeName(t: DataType): string {
    match t
    case Array => "array"
    case Boolean => "boolean"
    case Bytes => "bytes"
    case Double => "double"
    case Enum => "enum"
    case Fixed => "fixed"
    case Float => "float"
    case Int => "int"
    case Long => "long"
    case Map => "map"
    case Null => "null"
    case Record => "record"
    case String => "string"
    case Typeref => "typeref"
    case Union => "union"
  }

  predicate IsNumeric(t: DataType) {
    t == Int || t == Long || t == Double || t == Float
  }

  /** The column type of a grouping bucket whose key has type `t`. */
  function GroupingColumnType(t: DataType): string {
    if IsNumeric(t) then TypeName(t) else "string"
  }

  /** The column type of an aggregation spec whose member has type `t`. */
  function SpecColumnType(aggregationType: AggregationType, t: DataType): string {
    match aggregationType
    case Latest => TypeName(t)
    case Sum => "double"
    case Cardinality => "long"
  }

  /** `genColumnNames`: bucket keys, then spec display names. */
  function GenColumnNames(buckets: seq<GroupingBucket>, specs: seq<AggregationSpec>): seq<string> {
    seq(|buckets|, i requires 0 <= i < |buckets| => buckets[i].key) +
    seq(|specs|, j requires 0 <= j < |specs| => AggDisplayName(specs[j]))
  }

  /**
   * The column names list the bucket keys in order, then one name per spec
   * in order, from which the spec can be read back.
   */
  lemma ColumnNamesDecode(buckets: seq<GroupingBucket>, specs: seq<AggregationSpec>)
    ensures |GenColumnNames(buckets, specs)| == |buckets| + |specs|
    ensures forall i :: 0 <= i < |buckets| ==> GenColumnNames(buckets, specs)[i] == buckets[i].key
    ensures forall j :: 0 <= j < |specs| ==>
      ParseDisplayName(GenColumnNames(buckets, specs)[|buckets| + j]) == Some(specs[j])
  {
    forall j | 0 <= j < |specs|
      ensures ParseDisplayName(GenColumnNames(buckets, specs)[|buckets| + j]) == Some(specs[j])
    {
      DisplayNameRoundTrip(specs[j]);
    }
  }

  /** Every bucket key and every spec member path resolves in the schema. */
  ghost predicate Resolvable(schema: AspectSchema, buckets: seq<GroupingBucket>, specs: seq<AggregationSpec>) {
    && (forall i :: 0 <= i < |buckets| ==> GetTimeseriesFieldType(schema, buckets[i].key).Ok?)
    && (forall j :: 0 <= j < |specs| ==> GetTimeseriesFieldType(schema, specs[j].fieldPath).Ok?)
  }

  /** `types` gives each column the type the resolver implies for it. */
  ghost predicate DescribesColumns(schema: AspectSchema, buckets: seq<GroupingBucket>, specs: seq<AggregationSpec>,
                                   types: seq<string>)
    requires Resolvable(schema, buckets, specs)
  {
    && |types| == |buckets| + |specs|
    && (forall i :: 0 <= i < |buckets| ==>
          types[i] == GroupingColumnType(GetTimeseriesFieldType(schema, buckets[i].key).value))
    && (forall j :: 0 <= j < |specs| ==>
          types[|buckets| + j] ==
            SpecColumnType(specs[j].aggregationType, GetTimeseriesFieldType(schema, specs[j].fieldPath).value))
  }

  /**
   * `genColumnTypes`: fails exactly when some bucket key or spec member does
   * not resolve, and otherwise gives each column its type.
   */
  method GenColumnTypes(schema: AspectSchema, buckets: seq<GroupingBucket>, specs: seq<AggregationSpec>)
    returns (r: Result<seq<string>>)
    ensures r.Ok? <==> Resolvable(schema, buckets, specs)
    ensures r.Ok? ==> DescribesColumns(schema, buckets, specs, r.value)
    ensures r.Err? ==> r.error.UnknownField?
  {
    var columnTypes: seq<string> := [];
    var i := 0;
    while i < |buckets|
      invariant 0 <= i <= |buckets| && |columnTypes| == i
      invariant forall k :: 0 <= k < i ==>
        GetTimeseriesFieldType(schema, buckets[k].key).Ok? &&
        columnTypes[k] == GroupingColumnType(GetTimeseriesFieldType(schema, buckets[k].key).value)
    {
      var t := GetTimeseriesFieldType(schema, buckets[i].key);
      if t.Err? {
        return Err(t.error);
      }
      columnTypes := columnTypes + [GroupingColumnType(t.value)];
      i := i + 1;
    }
    var j := 0;
    while j < |specs|
      invariant 0 <= j <= |specs| && |columnTypes| == |buckets| + j
      invariant forall k :: 0 <= k < |buckets| ==>
        GetTimeseriesFieldType(schema, buckets[k].key).Ok? &&
        columnTypes[k] == GroupingColumnType(GetTimeseriesFieldType(schema, buckets[k].key).value)
      invariant forall k :: 0 <= k < j ==>
        GetTimeseriesFieldType(schema, specs[k].fieldPath).Ok? &&
        columnTypes[|buckets| + k] ==
          SpecColumnType(specs[k].aggregationType, GetTimeseriesFieldType(schema, specs[k].fieldPath).value)
    {
      var memberType := GetTimeseriesFieldType(schema, specs[j].fieldPath);
      if memberType.Err? {
        return Err(memberType.error);
      }
      columnTypes := columnTypes + [SpecColumnType(specs[j].aggregationType, memberType.value)];
      j := j + 1;
    }
    r := Ok(columnTypes);
  }
}
