/**
 * Name codec: the aggregation names shared by the request builder and the
 * response reader, and the display names of the result columns.
 */
module Naming {
  import opened Types

  const FilteredStats: string := "filtered_stats"
  const AggregationPrefix: string := "agg_"
  const TermsAggregationPrefix: string := "terms_"
  const MaxAggregationPrefix: string := "max_"
  const FieldTimestamp: string := "timestampMillis"
  const AggTimestamp: string := AggregationPrefix + FieldTimestamp
  const AggMaxTimestamp: string := AggregationPrefix + MaxAggregationPrefix + FieldTimestamp
  /** Bucket cap of every terms aggregation: the number of minutes in a day. */
  const MaxTermBuckets: int := 24 * 60

  function EscapeChar(c: char): char {
    if c == '.' then '_' else c
  }

  /** `toEsAggName`: every '.' becomes '_'; all other characters are kept. */
  function ToEsAggName(name: string): (r: string)
    ensures |r| == |name|
    ensures '.' !in r
    ensures forall i :: 0 <= i < |name| && name[i] != '.' ==> r[i] == name[i]
    ensures forall i :: 0 <= i < |name| && name[i] == '.' ==> r[i] == '_'
  {
    seq(|name|, i requires 0 <= i < |name| => EscapeChar(name[i]))
  }

  /** Escaping commutes with concatenation. */
  lemma ToEsAggNameAppend(a: string, b: string)
    ensures ToEsAggName(a + b) == ToEsAggName(a) + ToEsAggName(b)
  {
    assert forall i :: 0 <= i < |a + b| ==>
      ToEsAggName(a + b)[i] == (ToEsAggName(a) + ToEsAggName(b))[i];
  }

  /** A name without dots is its own escaped form. */
  lemma ToEsAggNameIdentity(name: string)
    requires '.' !in name
    ensures ToEsAggName(name) == name
  {
    assert forall i :: 0 <= i < |name| ==> name[i] != '.';
  }

  /**
   * The codec is not injective: a dotted name and its escaped form are
   * different names with the same aggregation name ("a.b" and "a_b").
   */
  lemma DottedNameCollides(name: string)
    requires '.' in name
    ensures ToEsAggName(name) != name
    ensures ToEsAggName(ToEsAggName(name)) == ToEsAggName(name)
  {
    ToEsAggNameIdentity(ToEsAggName(name));
  }

  function AggregationTypePrefix(t: AggregationType): string {
    match t
    case Latest => "latest_"
    case Sum => "sum_"
    case Cardinality => "cardinality_"
  }

  /** `getAggregationSpecAggDisplayName`: the column name of an aggregation spec. */
  function AggDisplayName(spec: AggregationSpec): string {
    AggregationTypePrefix(spec.aggregationType) + spec.fieldPath
  }

  /** `getAggregationSpecAggESName`: the name of the leaf that carries a spec's value. */
  function AggEsName(spec: AggregationSpec): string {
    ToEsAggName(AggDisplayName(spec))
  }

  /** A spec's leaf name is its type prefix followed by its escaped field path. */
  lemma AggEsNameShape(spec: AggregationSpec)
    ensures AggEsName(spec) == AggregationTypePrefix(spec.aggregationType) + ToEsAggName(spec.fieldPath)
  {
    ToEsAggNameAppend(AggregationTypePrefix(spec.aggregationType), spec.fieldPath);
    ToEsAggNameIdentity(AggregationTypePrefix(spec.aggregationType));
  }

  /** Reads an aggregation spec back from its display name. */
  function ParseDisplayName(name: string): Option<AggregationSpec> {
    if |name| >= 7 && name[..7] == "latest_" then Some(AggregationSpec(Latest, name[7..]))
    else if |name| >= 4 && name[..4] == "sum_" then Some(AggregationSpec(Sum, name[4..]))
    else if |name| >= 12 && name[..12] == "cardinality_" then Some(AggregationSpec(Cardinality, name[12..]))
    else None
  }

  /** Display names determine their spec: the three prefixes are prefix-free. */
  lemma DisplayNameRoundTrip(spec: AggregationSpec)
    ensures ParseDisplayName(AggDisplayName(spec)) == Some(spec)
  {
    var name := AggDisplayName(spec);
    match spec.aggregationType
    case Latest =>
      assert name[..7] == "latest_" && name[7..] == spec.fieldPath;
    case Sum =>
      assert name[0] == 's';
      assert name[..4] == "sum_" && name[4..] == spec.fieldPath;
    case Cardinality =>
      assert name[0] == 'c';
      assert name[..12] == "cardinality_" && name[12..] == spec.fieldPath;
  }

  /** Two specs share a column name only when they are the same spec. */
  lemma DisplayNameInjective(a: AggregationSpec, b: AggregationSpec)
    ensures AggDisplayName(a) == AggDisplayName(b) <==> a == b
  {
    DisplayNameRoundTrip(a);
    DisplayNameRoundTrip(b);
  }

  /** `getGroupingBucketAggName`: the name of a grouping level's bucket aggregation. */
  function GroupingBucketAggName(g: GroupingBucket): string {
    match g
    case DateGroupingBucket(key, _) => ToEsAggName(AggregationPrefix + key)
    case StringGroupingBucket(key) => ToEsAggName(AggregationPrefix + TermsAggregationPrefix + key)
  }

  /**
   * A date bucket on the timestamp field is looked up under the fixed name
   * the date histogram is given, and a string bucket under "agg_terms_" and
   * its escaped key.
   */
  lemma GroupingBucketAggNameShape(g: GroupingBucket)
    ensures g.DateGroupingBucket? && g.key == FieldTimestamp ==> GroupingBucketAggName(g) == AggTimestamp
    ensures g.StringGroupingBucket? ==>
      GroupingBucketAggName(g) == AggregationPrefix + TermsAggregationPrefix + ToEsAggName(g.key)
  {
    match g
    case DateGroupingBucket(key, _) =>
      if key == FieldTimestamp {
        ToEsAggNameIdentity(AggTimestamp);
      }
    case StringGroupingBucket(key) =>
      ToEsAggNameAppend(AggregationPrefix + TermsAggregationPrefix, key);
      ToEsAggNameIdentity(AggregationPrefix + TermsAggregationPrefix);
  }
}
