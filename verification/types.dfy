/**
 * Shared vocabulary of the aggregated-stats query layer: the request inputs
 * (aggregation specs, grouping buckets, time windows), the schema field types,
 * Java's fixed-width integers, and the exceptions the DAO can raise.
 */
module Types {

  /** Java `int` and `long` ranges. */
  const MinInt: int := -0x8000_0000
  const MaxInt: int := 0x7FFF_FFFF
  const MinLong: int := -0x8000_0000_0000_0000
  const MaxLong: int := 0x7FFF_FFFF_FFFF_FFFF

  type Int32 = x: int | MinInt <= x <= MaxInt
  type Int64 = x: int | MinLong <= x <= MaxLong

  datatype Option<T> = None | Some(value: T)

  /** The value of a call that may throw: `Err` carries the exception. */
  datatype Result<T> = Ok(value: T) | Err(error: Error) {
    predicate IsFailure() { Err? }

    function PropagateFailure<U>(): Result<U>
      requires Err?
    {
      Err(error)
    }

    function Extract(): T
      requires Ok?
    {
      value
    }
  }

  /** Concatenation is associative. */
  lemma AppendAssoc<T>(a: seq<T>, b: seq<T>, c: seq<T>)
    ensures (a + b) + c == a + (b + c)
  {
  }

  /** The first `|a|` elements of `a + b` are `a`. */
  lemma PrefixOfAppend<T>(a: seq<T>, b: seq<T>)
    ensures (a + b)[..|a|] == a
  {
  }

  /** The outcome of a `void` call that may throw. */
  datatype Outcome = Pass | Fail(error: Error)

  /** Pegasus schema types (`DataSchema.Type`). */
  datatype DataType =
    | Array | Boolean | Bytes | Double | Enum | Fixed | Float | Int
    | Long | Map | Null | Record | String | Typeref | Union

  /**
   * The exceptions raised along the query path that the model can reach. The
   * `default` branches of the switches over aggregation types and time units
   * throw too, but the closed datatypes `AggregationType` and `TimeUnit`
   * leave them no value to switch on.
   */
  datatype Error =
    | UnknownField(path: string)                  // IllegalArgumentException: unknown timeseries field
    | DateBucketNotTimestamp(key: string)         // IllegalArgumentException: date bucket on another field
    | LevelOverrun(curLevel: int, lastLevel: int) // IllegalArgumentException: curLevel > lastLevel
    | UnexpectedSumType(memberType: DataType)     // IllegalArgumentException: sum over a non-numeric member
    | UnsupportedAggregationResult                // UnsupportedOperationException: unknown leaf shape
    | MissingBucketAggregation(name: string)      // NullPointerException / ClassCastException on a bucket level
    | DateKeyNotInstant                           // ClassCastException: date bucket key is not a date
    | MissingFilteredStats                        // NullPointerException: no "filtered_stats" in the response
    | SearchTransportFailure                      // the search client's own failure
    | SearchQueryFailed(cause: Error)             // ESQueryException wrapping anything thrown during the search

  datatype AggregationType = Latest | Sum | Cardinality

  datatype AggregationSpec = AggregationSpec(aggregationType: AggregationType, fieldPath: string)

  datatype TimeUnit = Minute | Hour | Day | Week | Month | Quarter | Year

  datatype TimeWindowSize = TimeWindowSize(unit: TimeUnit, multiple: Int32)

  /** A grouping dimension; the two bucket types the DAO handles. */
  datatype GroupingBucket =
    | DateGroupingBucket(key: string, timeWindowSize: TimeWindowSize)
    | StringGroupingBucket(key: string)

  /** The values of `rs` in order when every one succeeds; the first failure otherwise. */
  function CollectAll<T>(rs: seq<Result<T>>): (r: Result<seq<T>>)
    ensures r.Ok? <==> forall j :: 0 <= j < |rs| ==> rs[j].Ok?
    ensures r.Ok? ==> |r.value| == |rs| && forall j :: 0 <= j < |rs| ==> rs[j] == Ok(r.value[j])
    decreases |rs|
  {
    if rs == [] then Ok([])
    else
      var earlier :- CollectAll(rs[..|rs| - 1]);
      var value :- rs[|rs| - 1];
      Ok(earlier + [value])
  }

  /** A failure among the first results is the failure of all of them. */
  lemma {:induction false} CollectAllPrefixFails<T>(rs: seq<Result<T>>, m: nat)
    requires m <= |rs| && CollectAll(rs[..m]).Err?
    ensures CollectAll(rs) == CollectAll(rs[..m])
    decreases |rs|
  {
    if m < |rs| {
      var n := |rs| - 1;
      assert rs[..n][..m] == rs[..m];
      CollectAllPrefixFails(rs[..n], m);
    } else {
      assert rs[..m] == rs;
    }
  }

  /** Collecting one more result. */
  lemma CollectAllStep<T>(rs: seq<Result<T>>, i: nat)
    requires i < |rs| && CollectAll(rs[..i]).Ok?
    ensures CollectAll(rs[..i + 1]) ==
      if rs[i].Err? then Err(rs[i].error) else Ok(CollectAll(rs[..i]).value + [rs[i].value])
  {
    assert rs[..i + 1][..i] == rs[..i] && rs[..i + 1][i] == rs[i];
  }

  /** The first failing result is the failure of all of them. */
  lemma CollectAllFirstFailure<T>(rs: seq<Result<T>>, i: nat)
    requires i < |rs| && rs[i].Err? && forall k :: 0 <= k < i ==> rs[k].Ok?
    ensures CollectAll(rs) == Err(rs[i].error)
  {
    assert forall k :: 0 <= k < i ==> rs[..i][k] == rs[k];
    CollectAllStep(rs, i);
    CollectAllPrefixFails(rs, i + 1);
  }
}
