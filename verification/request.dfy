/**
 * Aggregation-tree compiler: a filter root, a strict chain of one bucket
 * aggregation per grouping bucket, and the leaves of every aggregation spec
 * attached to the innermost node of the chain. Aggregation builders are
 * objects whose sub-aggregation lists are appended to in place.
 */
module Request {
  import opened Types
  import opened Decimal
  import opened Naming
  import opened Schema

  /** A `DateHistogramInterval`: a native fixed unit, or an expression for the calendar units. */
  datatype Interval =
    | Minutes(count: Int32)
    | Hours(count: Int32)
    | Days(count: Int32)
    | Weeks(count: Int32)
    | Expression(expr: string)

  /** `getHistogramInterval`. */
  function GetHistogramInterval(w: TimeWindowSize): Interval {
    match w.unit
    case Minute => Minutes(w.multiple)
    case Hour => Hours(w.multiple)
    case Week => Weeks(w.multiple)
    case Day => Days(w.multiple)
    case Month => Expression(IntToString(w.multiple) + "M")
    case Quarter => Expression(IntToString(w.multiple) + "q")
    case Year => Expression(IntToString(w.multiple) + "y")
  }

  /** Reads a calendar interval expression `<multiple><unit letter>` back. */
  function ParseCalendarExpression(e: string): Option<(int, TimeUnit)> {
    if |e| >= 2 && IsDecimal(e[..|e| - 1]) then
      var n := ParseDecimal(e[..|e| - 1]);
      var letter := e[|e| - 1];
      if letter == 'M' then Some((n, Month))
      else if letter == 'q' then Some((n, Quarter))
      else if letter == 'y' then Some((n, Year))
      else None
    else
      None
  }

  /** The window an interval stands for. */
  function IntervalWindow(interval: Interval): Option<(int, TimeUnit)> {
    match interval
    case Minutes(n) => Some((n as int, Minute))
    case Hours(n) => Some((n as int, Hour))
    case Days(n) => Some((n as int, Day))
    case Weeks(n) => Some((n as int, Week))
    case Expression(e) => ParseCalendarExpression(e)
  }

  /** Every time window is mapped to an interval of exactly `multiple` of its unit. */
  lemma HistogramIntervalRoundTrip(w: TimeWindowSize)
    ensures IntervalWindow(GetHistogramInterval(w)) == Some((w.multiple as int, w.unit))
    ensures GetHistogramInterval(w).Expression? <==> w.unit in {Month, Quarter, Year}
  {
    match w.unit
    case Month => CalendarExpressionRoundTrip(w.multiple, 'M');
    case Quarter => CalendarExpressionRoundTrip(w.multiple, 'q');
    case Year => CalendarExpressionRoundTrip(w.multiple, 'y');
    case _ =>
  }

  /** The multiple of a calendar expression reads back from the text before its unit letter. */
  lemma CalendarExpressionRoundTrip(n: int, letter: char)
    ensures var e := IntToString(n) + [letter];
      |e| >= 2 && IsDecimal(e[..|e| - 1]) && ParseDecimal(e[..|e| - 1]) == n && e[|e| - 1] == letter
  {
    var digits := IntToString(n);
    ParseIntToString(n);
    assert (digits + [letter])[..|digits|] == digits;
  }

  /** An opaque compiled filter query (`ESUtils.buildFilterQuery`). */
  datatype FilterQuery = FilterQuery(compiled: string)

  /** Bucket order of a terms aggregation: the backend's default, or ascending by key. */
  datatype TermsOrder = DefaultOrder | KeyAscending

  /** What an aggregation builder builds; its sub-aggregations live in the builder. */
  datatype AggKind =
    | FilterAgg(name: string, query: FilterQuery)
    | DateHistogramAgg(name: string, field: string, interval: Interval)
    | TermsAgg(name: string, field: string, size: int, order: TermsOrder)
    | MaxAgg(name: string, field: string)
    | SumAgg(name: string, field: string)
    | CardinalityAgg(name: string, field: string)
    | MaxBucketPipeline(name: string, bucketsPath: string)

  /** An aggregation builder: a fixed kind and a growing list of sub-aggregations. */
  class AggBuilder {
    const kind: AggKind
    var subs: seq<AggBuilder>

    constructor (kind: AggKind)
      ensures this.kind == kind && subs == []
    {
      this.kind := kind;
      subs := [];
    }

    /** `subAggregation`: attaches `child` after the existing sub-aggregations. */
    method SubAggregation(child: AggBuilder)
      modifies this
      ensures subs == old(subs) + [child]
    {
      subs := subs + [child];
    }
  }

  /** The bucket aggregation built for one grouping bucket (the loop body of `makeGroupingAggregationBuilder`). */
  function GroupingNode(schema: AspectSchema, g: GroupingBucket): Result<AggKind> {
    match g
    case DateGroupingBucket(key, w) =>
      if key != FieldTimestamp then Err(DateBucketNotTimestamp(key))
      else Ok(DateHistogramAgg(AggTimestamp, FieldTimestamp, GetHistogramInterval(w)))
    case StringGroupingBucket(key) =>
      // the key's type is looked up only for the exception the lookup may raise
      var fieldType :- GetTimeseriesFieldType(schema, key);
      Ok(TermsAgg(GroupingBucketAggName(g), key, MaxTermBuckets, KeyAscending))
  }

  /**
   * A date bucket must be on the timestamp field and a string bucket's key
   * must resolve; the node is named as the response reader looks it up, and
   * a terms node keeps 1440 buckets in ascending key order.
   */
  lemma GroupingNodeSpec(schema: AspectSchema, g: GroupingBucket)
    ensures g.DateGroupingBucket? ==>
      GroupingNode(schema, g) ==
        if g.key == FieldTimestamp then Ok(DateHistogramAgg(AggTimestamp, FieldTimestamp, GetHistogramInterval(g.timeWindowSize)))
        else Err(DateBucketNotTimestamp(g.key))
    ensures g.StringGroupingBucket? ==>
      GroupingNode(schema, g) ==
        if GetTimeseriesFieldType(schema, g.key).Ok? then Ok(TermsAgg(GroupingBucketAggName(g), g.key, 1440, KeyAscending))
        else Err(UnknownField(g.key))
    ensures GroupingNode(schema, g).Ok? ==> GroupingNode(schema, g).value.name == GroupingBucketAggName(g)
  {
    GroupingBucketAggNameShape(g);
  }

  /** The node of every grouping bucket, outermost first. */
  function GroupingNodes(schema: AspectSchema, buckets: seq<GroupingBucket>): seq<Result<AggKind>> {
    seq(|buckets|, i requires 0 <= i < |buckets| => GroupingNode(schema, buckets[i]))
  }

  /** The kinds of the chain nodes, outermost first; the first failing bucket's exception otherwise. */
  function GroupingChain(schema: AspectSchema, buckets: seq<GroupingBucket>): Result<seq<AggKind>> {
    CollectAll(GroupingNodes(schema, buckets))
  }

  /**
   * The chain has one node per bucket, in order, and fails with the
   * exception of the first bucket that has no node.
   */
  lemma GroupingChainSpec(schema: AspectSchema, buckets: seq<GroupingBucket>)
    ensures GroupingChain(schema, buckets).Ok? <==> forall i :: 0 <= i < |buckets| ==> GroupingNode(schema, buckets[i]).Ok?
    ensures GroupingChain(schema, buckets).Ok? ==>
      |GroupingChain(schema, buckets).value| == |buckets| &&
      forall i :: 0 <= i < |buckets| ==> GroupingChain(schema, buckets).value[i] == GroupingNode(schema, buckets[i]).value
    ensures forall i :: (0 <= i < |buckets| && GroupingNode(schema, buckets[i]).Err? &&
                         (forall k :: 0 <= k < i ==> GroupingNode(schema, buckets[k]).Ok?)) ==>
      GroupingChain(schema, buckets) == Err(GroupingNode(schema, buckets[i]).error)
  {
    var rs := GroupingNodes(schema, buckets);
    assert forall i :: 0 <= i < |buckets| ==> rs[i] == GroupingNode(schema, buckets[i]);
    forall i | 0 <= i < |buckets| && rs[i].Err? && (forall k :: 0 <= k < i ==> rs[k].Ok?)
      ensures CollectAll(rs) == Err(rs[i].error)
    {
      CollectAllFirstFailure(rs, i);
    }
  }

  /** The name of the terms aggregation behind a LATEST spec. */
  function LatestTermsName(spec: AggregationSpec): string {
    ToEsAggName(AggregationPrefix + TermsAggregationPrefix + spec.fieldPath)
  }

  /** The max-timestamp aggregation nested in a LATEST spec's terms aggregation. */
  const MaxTimestampNode: AggKind := MaxAgg(AggMaxTimestamp, FieldTimestamp)

  /** The sub-aggregations `addAggregationBuildersFromAggregationSpec` attaches for one spec, in order. */
  function SpecLeafKinds(spec: AggregationSpec): seq<AggKind> {
    match spec.aggregationType
    case Latest =>
      [ TermsAgg(LatestTermsName(spec), spec.fieldPath, MaxTermBuckets, DefaultOrder),
        MaxBucketPipeline(AggEsName(spec), LatestTermsName(spec) + ">" + AggMaxTimestamp) ]
    case Sum => [SumAgg(AggEsName(spec), spec.fieldPath)]
    case Cardinality => [CardinalityAgg(AggEsName(spec), spec.fieldPath)]
  }

  function LeafNames(spec: AggregationSpec): seq<string> {
    seq(|SpecLeafKinds(spec)|, k requires 0 <= k < |SpecLeafKinds(spec)| => SpecLeafKinds(spec)[k].name)
  }

  /**
   * The last leaf of a spec carries its value under the name the response
   * reader looks up: a max_bucket pipeline for LATEST (whose path reaches
   * the max timestamp inside the terms leaf before it), a sum or a
   * cardinality otherwise.
   */
  lemma SpecLeafReadBack(spec: AggregationSpec)
    ensures var leaves := SpecLeafKinds(spec);
      && leaves[|leaves| - 1].name == AggEsName(spec)
      && (spec.aggregationType == Latest <==> leaves[|leaves| - 1].MaxBucketPipeline?)
      && (spec.aggregationType == Sum <==> leaves[|leaves| - 1].SumAgg?)
      && (spec.aggregationType == Cardinality <==> leaves[|leaves| - 1].CardinalityAgg?)
      && (spec.aggregationType == Latest ==>
            leaves[0].TermsAgg? && leaves[0].field == spec.fieldPath && leaves[0].size == MaxTermBuckets &&
            leaves[1].bucketsPath == leaves[0].name + ">" + MaxTimestampNode.name)
  {
  }

  /** Each leaf name is a fixed prefix followed by the escaped field path. */
  lemma LeafNamesShape(spec: AggregationSpec)
    ensures spec.aggregationType == Latest ==>
      LeafNames(spec) == ["agg_terms_" + ToEsAggName(spec.fieldPath), "latest_" + ToEsAggName(spec.fieldPath)]
    ensures spec.aggregationType == Sum ==> LeafNames(spec) == ["sum_" + ToEsAggName(spec.fieldPath)]
    ensures spec.aggregationType == Cardinality ==> LeafNames(spec) == ["cardinality_" + ToEsAggName(spec.fieldPath)]
  {
    AggEsNameShape(spec);
    ToEsAggNameAppend(AggregationPrefix + TermsAggregationPrefix, spec.fieldPath);
    ToEsAggNameIdentity(AggregationPrefix + TermsAggregationPrefix);
    assert AggregationPrefix + TermsAggregationPrefix == "agg_terms_";
    var names := LeafNames(spec);
    if spec.aggregationType == Latest {
      assert |names| == 2 && names[0] == LatestTermsName(spec) && names[1] == AggEsName(spec);
    } else {
      assert |names| == 1 && names[0] == AggEsName(spec);
    }
  }

  /**
   * Two specs attach a leaf of the same name exactly when they have the same
   * aggregation type and the same escaped field path (so `a.b` and `a_b`
   * clash): sibling names are unique iff no two specs agree on both.
   */
  lemma LeafNamesClash(a: AggregationSpec, b: AggregationSpec)
    ensures (exists x, y :: 0 <= x < |LeafNames(a)| && 0 <= y < |LeafNames(b)| && LeafNames(a)[x] == LeafNames(b)[y]) <==>
      a.aggregationType == b.aggregationType && ToEsAggName(a.fieldPath) == ToEsAggName(b.fieldPath)
  {
    LeafNamesShape(a);
    LeafNamesShape(b);
    var ea, eb := ToEsAggName(a.fieldPath), ToEsAggName(b.fieldPath);
    if a.aggregationType == b.aggregationType && ea == eb {
      assert LeafNames(a)[0] == LeafNames(b)[0];
    }
    forall x, y | 0 <= x < |LeafNames(a)| && 0 <= y < |LeafNames(b)| && LeafNames(a)[x] == LeafNames(b)[y]
      ensures a.aggregationType == b.aggregationType && ea == eb
    {
      assert LeafNames(a)[x] == LeafNamePrefix(a.aggregationType, x) + ea;
      assert LeafNames(b)[y] == LeafNamePrefix(b.aggregationType, y) + eb;
      LeafNamePrefixFree(a.aggregationType, x, ea, b.aggregationType, y, eb);
    }
  }

  /** The fixed part of the `x`-th leaf name of a spec of type `t`. */
  function LeafNamePrefix(t: AggregationType, x: nat): string {
    if t == Latest && x == 0 then "agg_terms_" else AggregationTypePrefix(t)
  }

  /** The four leaf-name prefixes start with different letters, so a leaf name determines its prefix. */
  lemma LeafNamePrefixFree(ta: AggregationType, x: nat, ea: string, tb: AggregationType, y: nat, eb: string)
    requires x < (if ta == Latest then 2 else 1) && y < (if tb == Latest then 2 else 1)
    requires LeafNamePrefix(ta, x) + ea == LeafNamePrefix(tb, y) + eb
    ensures ta == tb && x == y && ea == eb
  {
    var pa, pb := LeafNamePrefix(ta, x), LeafNamePrefix(tb, y);
    assert (pa + ea)[0] == pa[0] && (pb + eb)[0] == pb[0];
    assert ta == tb && x == y;
    assert (pa + ea)[|pa|..] == ea && (pb + eb)[|pb|..] == eb;
  }

  /** The leaves attached for `specs`, in order. */
  function AllLeafKinds(specs: seq<AggregationSpec>): seq<AggKind>
    decreases |specs|
  {
    if specs == [] then [] else AllLeafKinds(specs[..|specs| - 1]) + SpecLeafKinds(specs[|specs| - 1])
  }

  /** Every spec's value leaf is among the innermost node's leaves, under the name the reader looks up. */
  lemma {:induction false} AllLeafKindsReadable(specs: seq<AggregationSpec>, j: nat)
    requires j < |specs|
    ensures exists k :: 0 <= k < |AllLeafKinds(specs)| && AllLeafKinds(specs)[k].name == AggEsName(specs[j])
    decreases |specs|
  {
    var n := |specs| - 1;
    var outer := AllLeafKinds(specs[..n]);
    SpecLeafReadBack(specs[n]);
    if j == n {
      var last := SpecLeafKinds(specs[n]);
      assert AllLeafKinds(specs)[|outer| + |last| - 1] == last[|last| - 1];
    } else {
      AllLeafKindsReadable(specs[..n], j);
      var k :| 0 <= k < |outer| && outer[k].name == AggEsName(specs[..n][j]);
      assert AllLeafKinds(specs)[k] == outer[k];
    }
  }

  /**
   * `chain[1..]` are the chain nodes for `kinds`, pairwise distinct with
   * `chain[0]`, each the only sub-aggregation of the one before it (the
   * sub-aggregations of the first and of the last are stated separately).
   */
  ghost predicate Chain(chain: seq<AggBuilder>, kinds: seq<AggKind>)
    reads chain
  {
    && |chain| == |kinds| + 1
    && (forall a, b :: 0 <= a < b < |chain| ==> chain[a] != chain[b])
    && (forall i :: 1 <= i < |chain| ==> chain[i].kind == kinds[i - 1])
    && (forall i :: 1 <= i < |kinds| ==> chain[i].subs == [chain[i + 1]])
  }

  /** One iteration of `makeGroupingAggregationBuilder`: a fresh node of kind `kind` becomes the only sub-aggregation of `last`. */
  method ExtendChain(base: AggBuilder, last: AggBuilder, kind: AggKind, ghost chain: seq<AggBuilder>, ghost kinds: seq<AggKind>)
    returns (cur: AggBuilder, ghost chain': seq<AggBuilder>)
    requires Chain(chain, kinds) && chain[0] == base && last == chain[|chain| - 1]
    requires |chain| > 1 ==> last.subs == []
    modifies last
    ensures chain' == chain + [cur] && Chain(chain', kinds + [kind])
    ensures fresh(cur) && cur.kind == kind && cur.subs == []
    ensures last.subs == old(last.subs) + [cur]
  {
    cur := new AggBuilder(kind);
    last.SubAggregation(cur);
    chain' := chain + [cur];
  }

  /**
   * `makeGroupingAggregationBuilder`: appends to `base` a fresh chain of one
   * bucket aggregation per grouping bucket and returns its innermost node
   * (`base` itself when there are no buckets).
   */
  method MakeGroupingAggregationBuilder(schema: AspectSchema, base: AggBuilder, buckets: seq<GroupingBucket>)
    returns (r: Result<AggBuilder>, ghost chain: seq<AggBuilder>)
    modifies base
    ensures r.Ok? <==> GroupingChain(schema, buckets).Ok?
    ensures r.Err? ==> r.error == GroupingChain(schema, buckets).error
    ensures r.Ok? ==>
      && Chain(chain, GroupingChain(schema, buckets).value) && |chain| == |buckets| + 1
      && chain[0] == base && r.value == chain[|buckets|]
      && (forall i :: 1 <= i < |chain| ==> fresh(chain[i]))
      && base.subs == old(base.subs) + (if buckets == [] then [] else [chain[1]])
      && (buckets != [] ==> r.value.subs == [])
  {
    ghost var rs := GroupingNodes(schema, buckets);
    ghost var kinds: seq<AggKind> := [];
    var last := base;
    chain := [base];
    var i := 0;
    while i < |buckets|
      invariant 0 <= i <= |buckets|
      invariant CollectAll(rs[..i]) == Ok(kinds)
      invariant Chain(chain, kinds)
      invariant |chain| == i + 1 && chain[0] == base && last == chain[i]
      invariant forall k :: 1 <= k < |chain| ==> fresh(chain[k])
      invariant base.subs == old(base.subs) + (if i == 0 then [] else [chain[1]])
      invariant i > 0 ==> last.subs == []
    {
      var node := GroupingNode(schema, buckets[i]);
      assert rs[i] == node;
      CollectAllStep(rs, i);
      if node.Err? {
        CollectAllPrefixFails(rs, i + 1);
        return Err(node.error), chain;
      }
      var cur;
      cur, chain := ExtendChain(base, last, node.value, chain, kinds);
      last := cur;
      kinds := kinds + [node.value];
      i := i + 1;
    }
    assert rs[..i] == rs;
    r := Ok(last);
  }

  /**
   * `addAggregationBuildersFromAggregationSpec`: appends to `base` the fresh
   * leaves of one spec; the terms leaf of a LATEST spec holds a fresh
   * max-timestamp aggregation.
   */
  method AddAggregationBuildersFromAggregationSpec(base: AggBuilder, spec: AggregationSpec)
    returns (ghost added: seq<AggBuilder>)
    modifies base
    ensures base.subs == old(base.subs) + added
    ensures |added| == |SpecLeafKinds(spec)|
    ensures forall k :: 0 <= k < |added| ==>
      fresh(added[k]) && added[k].kind == SpecLeafKinds(spec)[k] && WellFormedLeaf(added[k]) &&
      (added[k].kind.TermsAgg? ==> fresh(added[k].subs[0]))
  {
    var fieldPath := spec.fieldPath;
    match spec.aggregationType
    case Latest =>
      var termsAggName := ToEsAggName(AggregationPrefix + TermsAggregationPrefix + fieldPath);
      var termsAgg := new AggBuilder(TermsAgg(termsAggName, fieldPath, MaxTermBuckets, DefaultOrder));
      var maxAgg := new AggBuilder(MaxTimestampNode);
      termsAgg.SubAggregation(maxAgg);
      base.SubAggregation(termsAgg);
      var maxBucketPipelineAgg := new AggBuilder(MaxBucketPipeline(AggEsName(spec), termsAggName + ">" + AggMaxTimestamp));
      base.SubAggregation(maxBucketPipelineAgg);
      added := [termsAgg, maxBucketPipelineAgg];
    case Sum =>
      var sumAgg := new AggBuilder(SumAgg(AggEsName(spec), fieldPath));
      base.SubAggregation(sumAgg);
      added := [sumAgg];
    case Cardinality =>
      var cardinalityAgg := new AggBuilder(CardinalityAgg(AggEsName(spec), fieldPath));
      base.SubAggregation(cardinalityAgg);
      added := [cardinalityAgg];
  }

  /** A leaf as the builder makes it: a terms leaf holds one max-timestamp aggregation, any other leaf nothing. */
  ghost predicate WellFormedLeaf(leaf: AggBuilder)
    reads leaf, leaf.subs
  {
    if leaf.kind.TermsAgg? then
      |leaf.subs| == 1 && leaf.subs[0].kind == MaxTimestampNode && leaf.subs[0].subs == []
    else leaf.subs == []
  }

  /**
   * The loop of `getAggregatedStats` over the aggregation specs: attaches
   * the leaves of every spec, in order, to `base`.
   */
  method AddAllAggregationBuilders(base: AggBuilder, specs: seq<AggregationSpec>)
    returns (ghost leaves: seq<AggBuilder>)
    modifies base
    ensures base.subs == old(base.subs) + leaves
    ensures |leaves| == |AllLeafKinds(specs)|
    ensures forall k :: 0 <= k < |leaves| ==>
      fresh(leaves[k]) && leaves[k].kind == AllLeafKinds(specs)[k] && WellFormedLeaf(leaves[k])
  {
    leaves := [];
    ghost var kinds: seq<AggKind> := [];
    ghost var initial := base.subs;
    var j := 0;
    while j < |specs|
      invariant 0 <= j <= |specs|
      invariant kinds == AllLeafKinds(specs[..j])
      invariant initial == old(base.subs) && base.subs == initial + leaves && |leaves| == |kinds|
      invariant forall k :: 0 <= k < |leaves| ==> leaves[k].kind == kinds[k] && WellFormedLeaf(leaves[k])
      invariant forall k :: 0 <= k < |leaves| ==> fresh(leaves[k]) && base !in leaves[k].subs
    {
      leaves, kinds := AttachSpecLeaves(base, specs, j, initial, leaves, kinds);
      j := j + 1;
    }
    assert specs[..j] == specs;
  }

  /** One iteration of the loop over the specs: attaches the leaves of `specs[j]` after `leaves`. */
  method AttachSpecLeaves(base: AggBuilder, specs: seq<AggregationSpec>, j: nat, ghost initial: seq<AggBuilder>,
                          ghost leaves: seq<AggBuilder>, ghost kinds: seq<AggKind>)
    returns (ghost leaves': seq<AggBuilder>, ghost kinds': seq<AggKind>)
    requires j < |specs| && kinds == AllLeafKinds(specs[..j])
    requires base.subs == initial + leaves && |leaves| == |kinds|
    requires forall k :: 0 <= k < |leaves| ==> leaves[k].kind == kinds[k] && WellFormedLeaf(leaves[k])
    requires forall k :: 0 <= k < |leaves| ==> leaves[k] != base && base !in leaves[k].subs
    modifies base
    ensures kinds' == AllLeafKinds(specs[..j + 1])
    ensures base.subs == initial + leaves' && |leaves'| == |kinds'|
    ensures forall k :: 0 <= k < |leaves'| ==> leaves'[k].kind == kinds'[k] && WellFormedLeaf(leaves'[k])
    ensures |leaves| <= |leaves'| && forall k :: 0 <= k < |leaves| ==> leaves'[k] == leaves[k]
    ensures forall k :: |leaves| <= k < |leaves'| ==> fresh(leaves'[k]) && base !in leaves'[k].subs
  {
    ghost var added := AddAggregationBuildersFromAggregationSpec(base, specs[j]);
    leaves' := leaves + added;
    kinds' := kinds + SpecLeafKinds(specs[j]);
    AppendAssoc(initial, leaves, added);
    AllLeafKindsStep(specs, j);
  }

  lemma AllLeafKindsStep(specs: seq<AggregationSpec>, j: nat)
    requires j < |specs|
    ensures AllLeafKinds(specs[..j + 1]) == AllLeafKinds(specs[..j]) + SpecLeafKinds(specs[j])
  {
    assert specs[..j + 1][..j] == specs[..j];
  }

  /**
   * The request-building part of `getAggregatedStats`: a fresh filter root,
   * the grouping chain below it, and every spec's leaves attached, in order,
   * to the innermost node. Fails, before anything is sent, exactly when the
   * grouping chain does.
   */
  method BuildAggregationRequest(schema: AspectSchema, filter: FilterQuery,
                                 specs: seq<AggregationSpec>, buckets: seq<GroupingBucket>)
    returns (r: Result<AggBuilder>, ghost chain: seq<AggBuilder>, ghost leaves: seq<AggBuilder>)
    ensures r.Ok? <==> GroupingChain(schema, buckets).Ok?
    ensures r.Err? ==> r.error == GroupingChain(schema, buckets).error
    ensures r.Ok? ==>
      && fresh(r.value) && r.value.kind == FilterAgg(FilteredStats, filter)
      && Chain(chain, GroupingChain(schema, buckets).value) && |chain| == |buckets| + 1 && chain[0] == r.value
      && (buckets != [] ==> r.value.subs == [chain[1]])
      && chain[|buckets|].subs == leaves
      && |leaves| == |AllLeafKinds(specs)|
      && (forall k :: 0 <= k < |leaves| ==> leaves[k].kind == AllLeafKinds(specs)[k] && WellFormedLeaf(leaves[k]))
  {
    var filteredAggBuilder := new AggBuilder(FilterAgg(FilteredStats, filter));
    var base;
    base, chain := MakeGroupingAggregationBuilder(schema, filteredAggBuilder, buckets);
    if base.Err? {
      return Err(base.error), chain, [];
    }
    var baseAggregationForMembers := base.value;
    leaves := AddAllAggregationBuilders(baseAggregationForMembers, specs);
    r := Ok(filteredAggBuilder);
  }
}
