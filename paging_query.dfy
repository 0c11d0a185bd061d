/**
  Paging result assembly of the sharding engine: the paging query counts the
  rows of every routed table, sums the counts into `Totals` with the checked
  64-bit sum of LINQ, fetches the page of rows through one of two strategies
  chosen by `IsOrderedTables`, and yields exactly one `PagingResult`. The
  data-list enumerable then yields the rows of the first paging result.

  The two row strategies (the ordered-table query, which is given the
  per-table counts, and the ordinary query) and the row count of each routed
  table are inputs of the model.
*/
module PagingQuery {
  import opened Wrappers

  const LongMin: int := -0x8000_0000_0000_0000
  const LongMax: int := 0x7FFF_FFFF_FFFF_FFFF

  /** OverflowException of a checked long sum; InvalidOperationException of First on an
      empty sequence. */
  datatype PagingError = Overflow | NoElements

  /** A physical table the plan routes the query to. */
  datatype RouteTable = RouteTable(dataSource: string, name: string)

  datatype ShardingQueryPlan = ShardingQueryPlan(tables: seq<RouteTable>, isOrderedTables: bool)

  /** The result a per-table query produced for one routed table. */
  datatype QueryResult<R> = QueryResult(table: RouteTable, result: R)

  datatype PagingResult<T> = PagingResult(totals: int, dataList: seq<T>)

  /** The data sources of one paging query: the number of rows each routed table holds
      for the query, and the two strategies that fetch the page of rows. */
  datatype Sources<T> = Sources(
    rowCount: RouteTable -> nat,
    orderedTableQuery: (ShardingQueryPlan, seq<QueryResult<int>>) -> seq<T>,
    ordinaryQuery: ShardingQueryPlan -> seq<T>)

  /** LongCount and LongCountAsync on the query of one routed table. */
  function LongCount<T>(src: Sources<T>, t: RouteTable): nat {
    src.rowCount(t)
  }

  function LongCountAsync<T>(src: Sources<T>, t: RouteTable): nat {
    src.rowCount(t)
  }

  /** The executor GetCountQuery hands to the aggregate query. */
  function CountExecutor<T>(src: Sources<T>, t: RouteTable, isAsync: bool): (r: nat)
    ensures r == src.rowCount(t)
  {
    if isAsync then LongCountAsync(src, t) else LongCount(src, t)
  }

  /** The aggregate count query: one result per routed table, in plan order. */
  function CountQuery<T>(plan: ShardingQueryPlan, src: Sources<T>, isAsync: bool): (r: seq<QueryResult<int>>)
    ensures |r| == |plan.tables|
    ensures forall i :: 0 <= i < |r| ==> r[i] == QueryResult(plan.tables[i], src.rowCount(plan.tables[i]))
  {
    seq(|plan.tables|, i requires 0 <= i < |plan.tables| =>
      QueryResult(plan.tables[i], CountExecutor(src, plan.tables[i], isAsync)))
  }

  function Results(rs: seq<QueryResult<int>>): (xs: seq<int>)
    ensures |xs| == |rs| && forall i :: 0 <= i < |rs| ==> xs[i] == rs[i].result
  {
    seq(|rs|, i requires 0 <= i < |rs| => rs[i].result)
  }

  /** The mathematical sum, as a left fold. */
  function Sum(xs: seq<int>): int {
    if xs == [] then 0 else Sum(xs[..|xs| - 1]) + xs[|xs| - 1]
  }

  /** Checked long addition. */
  function CheckedAdd(a: int, b: int): Result<int, PagingError> {
    if LongMin <= a + b <= LongMax then Ok(a + b) else Err(Overflow)
  }

  /** Enumerable.Sum over longs: a left fold that throws on the first overflow. */
  function CheckedSum(xs: seq<int>): Result<int, PagingError> {
    if xs == [] then Ok(0)
    else
      var s :- CheckedSum(xs[..|xs| - 1]);
      CheckedAdd(s, xs[|xs| - 1])
  }

  /** CreateEnumerator of the paging query: count, sum, fetch the rows by the strategy
      the plan selects, and yield a single paging result. */
  function CreatePagingResult<T>(plan: ShardingQueryPlan, src: Sources<T>, isAsync: bool): Result<seq<PagingResult<T>>, PagingError> {
    var routeTableCounts := CountQuery(plan, src, isAsync);
    var totals :- CheckedSum(Results(routeTableCounts));
    var dataList :=
      if plan.isOrderedTables then src.orderedTableQuery(plan, routeTableCounts)
      else src.ordinaryQuery(plan);
    Ok([PagingResult(totals, dataList)])
  }

  /** CreateEnumerator of the data-list enumerable: the rows of the first paging result. */
  function DataListElements<T>(pagingResults: Result<seq<PagingResult<T>>, PagingError>): Result<seq<T>, PagingError> {
    var results :- pagingResults;
    if |results| == 0 then Err(NoElements) else Ok(results[0].dataList)
  }

  /** The row counts of the routed tables, in plan order. */
  function TableCounts<T>(plan: ShardingQueryPlan, src: Sources<T>): (xs: seq<int>)
    ensures |xs| == |plan.tables|
  {
    seq(|plan.tables|, i requires 0 <= i < |plan.tables| => src.rowCount(plan.tables[i]) as int)
  }

  lemma {:induction false} SumOfNonNegativeIsMonotone(xs: seq<int>, n: nat)
    requires n <= |xs|
    requires forall i :: 0 <= i < |xs| ==> xs[i] >= 0
    ensures 0 <= Sum(xs[..n]) <= Sum(xs)
    decreases |xs|
  {
    if xs != [] {
      var init := xs[..|xs| - 1];
      if n < |xs| {
        assert xs[..n] == init[..n];
        SumOfNonNegativeIsMonotone(init, n);
      } else {
        assert xs[..n] == xs;
        SumOfNonNegativeIsMonotone(init, |init|);
        assert init[..|init|] == init;
      }
    }
  }

  /** For counts that cannot be negative, the checked sum is the true sum when that fits
      in a long, and an overflow error otherwise. */
  lemma {:induction false} CheckedSumIsSum(xs: seq<int>)
    requires forall i :: 0 <= i < |xs| ==> xs[i] >= 0
    ensures CheckedSum(xs) == if Sum(xs) <= LongMax then Ok(Sum(xs)) else Err(Overflow)
    decreases |xs|
  {
    if xs != [] {
      var init := xs[..|xs| - 1];
      CheckedSumIsSum(init);
      SumOfNonNegativeIsMonotone(xs, |xs| - 1);
      assert xs[..|xs| - 1] == init;
    }
  }

  /** The paging query yields exactly one paging result; it fails only when the total
      overflows a long; its Totals is the sum of the per-table counts, and its DataList
      comes from the ordered-table query (given the per-table counts) when the tables are
      ordered and from the ordinary query otherwise. */
  lemma PagingResultAssembly<T>(plan: ShardingQueryPlan, src: Sources<T>, isAsync: bool)
    ensures var r := CreatePagingResult(plan, src, isAsync);
      && (r.Err? <==> Sum(TableCounts(plan, src)) > LongMax)
      && (r.Err? ==> r.error == Overflow)
      && (r.Ok? ==>
            && |r.value| == 1
            && r.value[0].totals == Sum(TableCounts(plan, src))
            && r.value[0].dataList ==
                 (if plan.isOrderedTables then src.orderedTableQuery(plan, CountQuery(plan, src, isAsync))
                  else src.ordinaryQuery(plan)))
  {
    assert Results(CountQuery(plan, src, isAsync)) == TableCounts(plan, src);
    CheckedSumIsSum(TableCounts(plan, src));
  }

  /** Totals does not depend on the row strategy, on the strategies' results, or on
      whether the counts ran synchronously. */
  lemma TotalsIndependentOfStrategy<T>(plan: ShardingQueryPlan, src: Sources<T>, isAsync: bool,
                                       ordered: bool, other: Sources<T>, otherAsync: bool)
    requires other.rowCount == src.rowCount
    ensures var r1 := CreatePagingResult(plan, src, isAsync);
      var r2 := CreatePagingResult(plan.(isOrderedTables := ordered), other, otherAsync);
      && r1.Ok? == r2.Ok?
      && (r1.Ok? ==> r1.value[0].totals == r2.value[0].totals)
  {
    var plan2 := plan.(isOrderedTables := ordered);
    PagingResultAssembly(plan, src, isAsync);
    PagingResultAssembly(plan2, other, otherAsync);
    assert TableCounts(plan, src) == TableCounts(plan2, other);
  }

  /** The data-list enumerable yields exactly the rows of the paging result, in order,
      and passes on the overflow of the count. */
  lemma DataListIsPageRows<T>(plan: ShardingQueryPlan, src: Sources<T>, isAsync: bool)
    ensures var r := CreatePagingResult(plan, src, isAsync);
      && (r.Ok? ==> DataListElements(r) == Ok(r.value[0].dataList))
      && (r.Err? ==> DataListElements(r) == Err(r.error))
  {
    PagingResultAssembly(plan, src, isAsync);
  }

  /** Per-table counts 4, 0 and 6 give Totals 10. */
  lemma TotalsExample()
    ensures CheckedSum([4, 0, 6]) == Ok(10)
  {
    assert [4, 0, 6][..2] == [4, 0];
    assert [4, 0][..1] == [4];
    assert [4][..0] == [];
  }
}
