/**
 * The DAO's entry point: builds the aggregation request, sends it, and
 * flattens the response into a table. The search backend is a parameter:
 * `None` when the search client fails, otherwise the parsed aggregations of
 * its response.
 */
module Stats {
  import opened Types
  import opened Naming
  import opened Schema
  import opened Columns
  import opened Request
  import opened Response
  import opened Flatten

  /**
   * `getAggregatedStats`. A grouping bucket that cannot be compiled fails
   * before anything is sent, with its own error. Everything that fails once
   * the search is under way (the search itself, or reading its response) is
   * reported wrapped in `SearchQueryFailed`. On success the table has the
   * generated columns and exactly the rows of the walk of the response's
   * filter aggregation, one cell per column in each.
   */
  method GetAggregatedStats(schema: AspectSchema, filter: FilterQuery, specs: seq<AggregationSpec>,
                            buckets: seq<GroupingBucket>, response: Option<Aggregations>)
    returns (r: Result<GenericTable>)
    ensures GroupingChain(schema, buckets).Err? ==> r == Err(GroupingChain(schema, buckets).error)
    ensures GroupingChain(schema, buckets).Ok? && response.None? ==> r == Err(SearchQueryFailed(SearchTransportFailure))
    ensures GroupingChain(schema, buckets).Ok? && r.Err? ==> r.error.SearchQueryFailed?
    ensures r.Ok? <==>
      && GroupingChain(schema, buckets).Ok?
      && response.Some?
      && Resolvable(schema, buckets, specs)
      && HasFilteredStats(response.value)
      && LevelRows(response.value[FilteredStats].aggs, 0, |buckets|, [], buckets, Extractor(schema, specs)).Ok?
    ensures r.Ok? ==>
      && r.value.columnNames == GenColumnNames(buckets, specs)
      && DescribesColumns(schema, buckets, specs, r.value.columnTypes)
      && r.value.rows ==
           LevelRows(response.value[FilteredStats].aggs, 0, |buckets|, [], buckets, Extractor(schema, specs)).value
      && Rectangular(r.value)
  {
    var request, _, _ := BuildAggregationRequest(schema, filter, specs, buckets);
    if request.Err? {
      return Err(request.error);
    }
    if response.None? {
      return Err(SearchQueryFailed(SearchTransportFailure));
    }
    var table := GenerateResponseFromElastic(response.value, buckets, specs, schema);
    if table.Err? {
      return Err(SearchQueryFailed(table.error));
    }
    r := Ok(table.value);
  }
}
