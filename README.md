# Chloe sharding and SQLite SQL generation, modelled in Dafny

This project models five pieces of the Chloe ORM and proves what they promise.

- **The shared object pool** (`ShareObjectPool<T>`, module `SharePool`). It holds a fixed set of
  objects, such as one database context per shard connection. Free objects wait in a FIFO queue
  (`Stocks`) and callers wait in a FIFO queue (`Waitings`). `TryEmit` pairs the heads of the two
  queues. `PoolItem.Dispose` returns an object. `Dispose` closes the pool and fails every waiter.
  - Each locked section is one atomic step.
  - The pure functions `AfterTryEmit`, `AfterGet`, `AfterReturn` and `AfterDispose` give the state
    after each step.
  - The class `ShareObjectPool` is proved to follow those functions.
  - Lemmas prove conservation of objects, exclusivity of the two queues, FIFO service and
    idempotent disposal.
- **The take-narrowing query state** (`ShardingTakeQueryState`, module `TakeQueryState`). It is a
  class whose `Count` setter validates the count and keeps `QueryModel.Take` equal to it. `Accept`
  narrows the count to a smaller `Take`.
- **Paging result assembly** (`PagingQueryEnumerable`, module `PagingQuery`). It counts the rows of
  every routed table and sums them, with checked 64-bit addition, into `Totals`. It then picks the
  row strategy by `IsOrderedTables` and yields a single `PagingResult`. The per-table row counts
  and the two row strategies are inputs of the model.
- **The evaluable-expression transformer** (`EvaluableDbExpressionTransformerBase`, module
  `EvaluableTransformer`). It is a pure bottom-up rewrite. It computes on the client the member
  accesses, coalesces and method calls whose operands are known values, and replaces each by a
  parameter. It keeps the member accesses and calls the database can translate: a member in
  `ToTranslateMembers`, a call that a method handler accepts, or a call with a DbFunction
  attribute. The set of translatable members, the method handlers' `CanProcess` and client-side
  evaluation are inputs.
- **The SQLite SQL generator** (`SqlGenerator`, modules `SqliteNullRewrite`, `SqliteEmit`,
  `SqliteEmitProperties` and `SqliteGenerator`).
  - The NULL-aware rewrites of `==` and `!=` are pure functions on the expression tree
    (`SqliteNullRewrite`). A three-valued SQL semantics proves that a row passes the rewritten
    condition exactly when the C# comparison holds.
  - `SqliteEmit` specifies, as functions, the text every visit appends and the parameter
    collection it leaves.
  - The class `SqliteGenerator.SqlGenerator` has the builder (`sql`) and the parameter collection
    (`parameters`) as fields. Its visit methods are proved to append exactly the specified text
    and to leave exactly the specified collection, or to fail with the specified exception. Its
    `first`/index-flag loops are included.
  - `SqliteEmitProperties` proves properties of the emitted SQL. Parameters are only added at the
    end. Parameter names stay distinct. The SQL of a query begins with `SELECT DISTINCT ` exactly
    when `IsDistinct` is set. That proof relies on no rendered expression text beginning with `D`,
    which holds because the DateTime members are not rendered (see "## Left out").

The shared expression datatype (`DbExpressions`) has Constant, Parameter, Member, Coalesce,
MethodCall, Equal, NotEqual, And, Or, Not, ColumnAccess, Table and SubQuery nodes, plus a SELECT
query with columns, table, condition, group segments, having, orderings, skip and take.
`Wrappers` holds `Option`, `Result` and `Outcome`.

Modelling choices that the source does not settle on its own:

- `GatherBinaryExpressionOperand` is not part of this model. `SqliteEmit.Gather` takes it to
  flatten a left-leaning chain of the same connective, left-most operand first.
- The `Sql.IsEqual`/`Sql.IsNotEqual` method handlers are not part of this model. The model takes
  them to render `x IS NULL`/`x IS NOT NULL` when one side is a constant or parameter holding null
  or DBNull. Otherwise they render `x = y`/`x <> y`.
- `AffirmExpressionRetValueIsNull` is taken to recognise a constant or parameter whose value is
  null or DBNull (`DbExpressions.AffirmNull`).
- `DbParamCollection.Find` is taken to return the first parameter with the same value, type and
  DbType (`SqliteEmit.FindParam`).
- `GenParameterName(n)` is taken to be the prefix `@P_` followed by `n`, as the name cache of
  src/Chloe.SQLite/SqlGenerator.cs:53-60 builds it.
- The statement that a disposed pool never leaves a waiter hanging holds in the model because the
  disposed check of `GetAsync` is part of the atomic step. In the code that check runs before the
  lock. A get that passes the check just before a concurrent `Dispose` enqueues a waiter that
  nothing settles.

## Model

| member | source | states |
|---|---|---|
| SharePool.Size | src/Chloe/Sharding/ShareObjectPool.cs:50 | defines Size as the number of objects the pool was built with |
| SharePool.AfterTryEmit | src/Chloe/Sharding/ShareObjectPool.cs:106-119 | defines TryEmit: nothing on a disposed pool or when a queue is empty; otherwise the head object settles the head waiter and both heads are dequeued |
| SharePool.AfterGet | src/Chloe/Sharding/ShareObjectPool.cs:74-86 | defines the locked section of a get: a disposed pool gives ObjectDisposed; otherwise a new pending waiter is enqueued under a new ticket and TryEmit follows |
| SharePool.AfterReturn | src/Chloe/Sharding/ShareObjectPool.cs:97-104 | defines Return: the object is enqueued at the end of Stocks, then TryEmit follows |
| SharePool.FailWaiters | src/Chloe/Sharding/ShareObjectPool.cs:65-69 | defines the waiter loop of Dispose: TrySetException on each queued waiter in queue order |
| SharePool.AfterDispose | src/Chloe/Sharding/ShareObjectPool.cs:52-72 | defines Dispose: nothing on a disposed pool; otherwise the objects are disposed when disposable, every queued waiter is failed and the pool is marked disposed |
| SharePool.ShareObjectPool.Size | src/Chloe/Sharding/ShareObjectPool.cs:50 | Size is the number of objects of All |
| SharePool.Init | src/Chloe/Sharding/ShareObjectPool.cs:43-50 | the new pool is valid; Size is the number of objects; every object is in Stocks; nobody waits; nothing is lent; the pool is open |
| SharePool.TrySet | src/Chloe/Sharding/ShareObjectPool.cs:118 | TrySetResult/TrySetException change only a pending completion source, and no other |
| SharePool.TryEmitKeepsInvariants | src/Chloe/Sharding/ShareObjectPool.cs:106-119 | TryEmit keeps conservation and ticket well-formedness, keeps Size and the disposed flag, and moves at most one object and one waiter |
| SharePool.TryEmitPairsHeads | src/Chloe/Sharding/ShareObjectPool.cs:116-118 | on an open pool with both queues non-empty, the oldest waiter receives the oldest free object, both heads are dequeued, and no other completion source changes |
| SharePool.TryEmitIdle | src/Chloe/Sharding/ShareObjectPool.cs:108-114 | TryEmit changes nothing on a disposed pool or when either queue is empty |
| SharePool.TryEmitWellFormed | src/Chloe/Sharding/ShareObjectPool.cs:106-119 | TryEmit keeps ticket well-formedness and never changes a completion source that is already settled |
| SharePool.GetKeepsValid | src/Chloe/Sharding/ShareObjectPool.cs:74-90 | a get keeps the pool valid; on a disposed pool it fails with ObjectDisposed and changes nothing; on an open pool it returns a new ticket, which is served the head of Stocks at once when an object is free and otherwise is enqueued as pending |
| SharePool.ReturnKeepsValid | src/Chloe/Sharding/ShareObjectPool.cs:97-104 | returning a lent object keeps the pool valid; the object goes to the oldest waiter when one is queued on an open pool, and to the end of Stocks otherwise |
| SharePool.FailWaitersEffect | src/Chloe/Sharding/ShareObjectPool.cs:65-69 | failing the first n queued waiters faults every pending one of them and leaves every other completion source unchanged |
| SharePool.DisposeFailsEveryWaiter | src/Chloe/Sharding/ShareObjectPool.cs:52-72 | the first Dispose faults every queued waiter, leaves every other completion source, Stocks and the lent objects unchanged, marks the pool disposed and keeps it valid |
| SharePool.DisposeIdempotent | src/Chloe/Sharding/ShareObjectPool.cs:52-55 | a second Dispose changes nothing, and after Dispose the pool is disposed |
| SharePool.CheckedOutWithinSize | src/Chloe/Sharding/ShareObjectPool.cs:50 | free plus handed-out objects is exactly Size, so at most Size objects are checked out |
| SharePool.ReturnsServeWaitersInOrder | src/Chloe/Sharding/ShareObjectPool.cs:97-119 | with no free object and at least k waiters, k returns hand the i-th returned object to the i-th oldest waiter, dequeue exactly those waiters and keep the pool valid |
| SharePool.AfterReturnsKeepsServed | src/Chloe/Sharding/ShareObjectPool.cs:97-119 | a served waiter keeps its result across any later returns |
| SharePool.RunKeepsValid | src/Chloe/Sharding/ShareObjectPool.cs:43-119 | over any sequence of gets, returns of lent objects and disposals, the pool stays valid, Size never changes, and free plus handed-out objects stays Size |
| SharePool.ShareObjectPool.constructor | src/Chloe/Sharding/ShareObjectPool.cs:43-48 | the pool's state is `Init` of the objects, and it is valid |
| SharePool.ShareObjectPool.TryEmit | src/Chloe/Sharding/ShareObjectPool.cs:106-119 | the new state is `AfterTryEmit` of the old state |
| SharePool.ShareObjectPool.GetAsync | src/Chloe/Sharding/ShareObjectPool.cs:74-86 | the new state and the result are `AfterGet` of the old state, and the pool stays valid |
| SharePool.ShareObjectPool.Resume | src/Chloe/Sharding/ShareObjectPool.cs:88-89 | a faulted waiter rethrows ObjectDisposed; a resolved one gets a fresh PoolItem holding its object and this pool |
| SharePool.ShareObjectPool.Return | src/Chloe/Sharding/ShareObjectPool.cs:97-104 | the new state is `AfterReturn` of the old state and the object, and the pool stays valid |
| SharePool.ShareObjectPool.Dispose | src/Chloe/Sharding/ShareObjectPool.cs:52-72 | the new state is `AfterDispose` of the old state (the waiter loop is proved against `FailWaiters`), and the pool stays valid |
| SharePool.PoolItem.constructor | src/Chloe/Sharding/ShareObjectPool.cs:126-130 | the item holds the resource and the pool, and is not disposed |
| SharePool.PoolItem.Dispose | src/Chloe/Sharding/ShareObjectPool.cs:134-141 | the first call returns the resource to the pool (`AfterReturn`); later calls leave the pool unchanged; afterwards the item is disposed |
| TakeQueryState.CheckInputCount | src/Chloe/Sharding/QueryState/ShardingTakeQueryState.cs:28-34 | the check fails, with the negative-count error, exactly when the count is negative |
| TakeQueryState.Narrow | src/Chloe/Sharding/QueryState/ShardingTakeQueryState.cs:38-43 | defines one Accept on the count: a smaller count goes through the checked setter, any other count is ignored |
| TakeQueryState.ApplyTakes | src/Chloe/Sharding/QueryState/ShardingTakeQueryState.cs:36-44 | defines a sequence of Accept calls, stopping at the first exception |
| TakeQueryState.NarrowIsMin | src/Chloe/Sharding/QueryState/ShardingTakeQueryState.cs:36-44 | on a non-negative count, one Take fails exactly for a negative count and otherwise yields the smaller of the two counts |
| TakeQueryState.ApplyTakesIsMinimum | src/Chloe/Sharding/QueryState/ShardingTakeQueryState.cs:36-44 | a sequence of Takes succeeds exactly when no count is negative, and then ends at the minimum of the initial count and every count seen, so the count never grows |
| TakeQueryState.TakesFiveThreeTen | src/Chloe/Sharding/QueryState/ShardingTakeQueryState.cs:36-44 | Take(5) followed by Take(3) and Take(10) leaves the count at 3 |
| TakeQueryState.ShardingTakeQueryState.Create | src/Chloe/Sharding/QueryState/ShardingTakeQueryState.cs:10-13 | construction fails exactly for a negative count and then leaves the query model unchanged; otherwise Count and QueryModel.Take both equal the count |
| TakeQueryState.ShardingTakeQueryState.Init | src/Chloe/Sharding/QueryState/ShardingTakeQueryState.cs:10-13 | the state holds the query model and the count, and QueryModel.Take equals the count |
| TakeQueryState.ShardingTakeQueryState.SetCount | src/Chloe/Sharding/QueryState/ShardingTakeQueryState.cs:21-26 | the setter's outcome is the check's; an accepted count becomes Count and QueryModel.Take; a rejected one leaves both unchanged |
| TakeQueryState.ShardingTakeQueryState.Accept | src/Chloe/Sharding/QueryState/ShardingTakeQueryState.cs:36-44 | Accept returns this same state; it fails exactly for a negative count and then leaves Count unchanged; otherwise Count becomes the narrowed count; a count at least the current one changes nothing; the state stays valid |
| PagingQuery.LongCount | src/Chloe/Sharding/Enumerables/PagingQueryEnumerable.cs:58 | the synchronous count of one routed table's query, an input of the model |
| PagingQuery.LongCountAsync | src/Chloe/Sharding/Enumerables/PagingQueryEnumerable.cs:58 | the asynchronous count of one routed table's query, assumed equal to the synchronous one |
| PagingQuery.CheckedSum | src/Chloe/Sharding/Enumerables/PagingQueryEnumerable.cs:36 | defines LINQ's Sum over longs: a left fold with checked addition that fails on the first overflow |
| PagingQuery.CreatePagingResult | src/Chloe/Sharding/Enumerables/PagingQueryEnumerable.cs:30-52 | defines CreateEnumerator of the paging query: count, checked sum, rows from the strategy IsOrderedTables selects, one paging result |
| PagingQuery.DataListElements | src/Chloe/Sharding/Enumerables/PagingQueryEnumerable.cs:92-96 | defines CreateEnumerator of the data-list enumerable: the DataList of the first paging result, and First's error on none |
| PagingQuery.CountExecutor | src/Chloe/Sharding/Enumerables/PagingQueryEnumerable.cs:56-60 | the per-table counter gives the table's row count in both sync and async mode; that LongCount and LongCountAsync agree is an assumption of the model (see "## Left out") |
| PagingQuery.CountQuery | src/Chloe/Sharding/Enumerables/PagingQueryEnumerable.cs:54-64 | the count query gives one result per routed table, in plan order, holding that table's row count |
| PagingQuery.SumOfNonNegativeIsMonotone | src/Chloe/Sharding/Enumerables/PagingQueryEnumerable.cs:36 | a prefix of non-negative counts sums to between zero and the full sum |
| PagingQuery.CheckedSumIsSum | src/Chloe/Sharding/Enumerables/PagingQueryEnumerable.cs:36 | for non-negative counts the checked long sum is the true sum when it fits in a long, and an overflow otherwise |
| PagingQuery.PagingResultAssembly | src/Chloe/Sharding/Enumerables/PagingQueryEnumerable.cs:30-52 | exactly one paging result is produced; it fails only, with an overflow, when the total exceeds long.MaxValue; Totals is the sum of the per-table counts; DataList comes from the ordered-table query, given the per-table counts, when the tables are ordered, and from the ordinary query otherwise |
| PagingQuery.TotalsIndependentOfStrategy | src/Chloe/Sharding/Enumerables/PagingQueryEnumerable.cs:33-49 | Totals and success do not depend on the ordering flag or on the row strategies; they do not depend on sync versus async counting under the assumed agreement of LongCount and LongCountAsync |
| PagingQuery.DataListIsPageRows | src/Chloe/Sharding/Enumerables/PagingQueryEnumerable.cs:92-96 | the data-list enumerable yields exactly the DataList of the paging result, and passes on its overflow |
| PagingQuery.TotalsExample | src/Chloe/Sharding/Enumerables/PagingQueryEnumerable.cs:36 | per-table counts 4, 0 and 6 give Totals 10 |
| EvaluableTransformer.IsConstantOrParameter | src/Chloe/Visitors/EvaluableDbExpressionTransformerBase.cs:17-20 | holds exactly when the expression is present and is a Constant or a Parameter |
| EvaluableTransformer.CanTranslateMember | src/Chloe/Visitors/EvaluableDbExpressionTransformerBase.cs:27-30 | holds exactly when the member is in ToTranslateMembers |
| EvaluableTransformer.CanTranslateCall | src/Chloe/Visitors/EvaluableDbExpressionTransformerBase.cs:36-48 | holds exactly when a handler is registered under the method name and its CanProcess accepts the call |
| EvaluableTransformer.Transform | src/Chloe/Visitors/EvaluableDbExpressionTransformerBase.cs:50-120 | defines the rewrite: the Member, Coalesce, MethodCall and Parameter visits with their early returns, and a rebuild of the other nodes from their transformed operands |
| EvaluableTransformer.TransformLeavesNoEvaluable | src/Chloe/Visitors/EvaluableDbExpressionTransformerBase.cs:50-120 | the transformed tree has no member access, coalesce or method call left that the transformer would still compute |
| EvaluableTransformer.TransformFixesNoEvaluable | src/Chloe/Visitors/EvaluableDbExpressionTransformerBase.cs:50-120 | a tree with no such sub-tree is returned unchanged |
| EvaluableTransformer.TransformIdempotent | src/Chloe/Visitors/EvaluableDbExpressionTransformerBase.cs:50-120 | transforming twice is transforming once |
| EvaluableTransformer.TransformKeepsType | src/Chloe/Visitors/EvaluableDbExpressionTransformerBase.cs:68 | the transformer keeps the type of every expression; a node it computes becomes a parameter without a DbType, and only member accesses, coalesces and method calls are computed |
| EvaluableTransformer.ParameterUnchanged | src/Chloe/Visitors/EvaluableDbExpressionTransformerBase.cs:117-120 | a parameter node is returned unchanged |
| EvaluableTransformer.MemberRule | src/Chloe/Visitors/EvaluableDbExpressionTransformerBase.cs:50-69 | over a receiver that does not transform to a constant or parameter, a member access stays a member access over the transformed receiver; otherwise it is kept exactly when the member is in ToTranslateMembers (CanTranslateToSql), and else becomes the parameter of its evaluated value with the same type |
| EvaluableTransformer.CoalesceRule | src/Chloe/Visitors/EvaluableDbExpressionTransformerBase.cs:71-81 | a coalesce becomes a parameter exactly when both transformed operands are constants or parameters, and otherwise is the coalesce of the transformed operands |
| EvaluableTransformer.MethodCallRule | src/Chloe/Visitors/EvaluableDbExpressionTransformerBase.cs:83-115 | a call is rebuilt with its arguments transformed in the same order and number; it becomes a parameter exactly when its object (if any) and all its arguments are constants or parameters, it is not translatable (no handler registered under the method name whose CanProcess accepts the call) and it has no DbFunction attribute |
| DbExpressions.Ty.Underlying | src/Chloe.SQLite/SqlGenerator.cs:745 | the underlying type has the same name and is not Nullable, and a type that is not Nullable is its own underlying type |
| SqliteNullRewrite.RewriteEqual | src/Chloe.SQLite/SqlGenerator.cs:70-115 | the tree emitted for `l == r` is smaller than the equality, so emission terminates |
| SqliteNullRewrite.RewriteNotEqual | src/Chloe.SQLite/SqlGenerator.cs:116-224 | the tree emitted for `l != r` is smaller than the inequality, so emission terminates |
| SqliteNullRewrite.CallTruths | src/Chloe.SQLite/SqlGenerator.cs:81 | a Sql.IsEqual or Sql.IsNotEqual call has the three-valued truth of the comparison its handler renders |
| SqliteNullRewrite.RewriteEqualKeepsMeaning | src/Chloe.SQLite/SqlGenerator.cs:83-112 | for operands that are not subqueries, in a row consistent with their types, the rewritten equality is TRUE exactly when the C# values are equal (null equals null) |
| SqliteNullRewrite.RewriteNotEqualKeepsMeaning | src/Chloe.SQLite/SqlGenerator.cs:130-221 | for operands that are not subqueries, the rewritten inequality is TRUE exactly when the C# values differ, including the swap of a constant or parameter to the right |
| SqliteNullRewrite.GeneralNotEqualTruth | src/Chloe.SQLite/SqlGenerator.cs:191-221 | the general inequality rewrite is the plain `<>` or exactly one side NULL |
| SqliteNullRewrite.NegatedEqualLosesOneSidedNulls | src/Chloe.SQLite/SqlGenerator.cs:191-195 | negating the general equality rewrite is UNKNOWN when exactly one side is NULL although the C# values differ, which is why inequality has its own rewrite |
| SqliteEmit.ParamName | src/Chloe.SQLite/SqlGenerator.cs:53-60 | defines the name of the n-th parameter: the prefix followed by n |
| SqliteEmit.ParamValue | src/Chloe.SQLite/SqlGenerator.cs:754-755 | a null parameter value is stored as DBNull |
| SqliteEmit.StringSize | src/Chloe.SQLite/SqlGenerator.cs:768-774 | defines the Size of a new string parameter: its length for a fixed-length DbType, else 4000 when it has at most 4000 characters, else none |
| SqliteEmit.Emit | src/Chloe.SQLite/SqlGenerator.cs:70-782 | defines the text and parameters of a visit, dispatching on the node kind as the Visit overloads do |
| SqliteEmit.EmitEqual | src/Chloe.SQLite/SqlGenerator.cs:70-115 | defines the text of an equality: the visit of its NULL-aware rewrite |
| SqliteEmit.EmitNotEqual | src/Chloe.SQLite/SqlGenerator.cs:116-224 | defines the text of an inequality: the visit of its NULL-aware rewrite |
| SqliteEmit.EmitCoalesce | src/Chloe.SQLite/SqlGenerator.cs:543-552 | defines `IFNULL(` check `,` replacement `)` |
| SqliteEmit.EmitNot | src/Chloe.SQLite/SqlGenerator.cs:226-234 | defines `NOT (` operand `)` |
| SqliteEmit.EmitSubQuery | src/Chloe.SQLite/SqlGenerator.cs:431-438 | defines the query's SQL in parentheses |
| SqliteEmit.EmitMember | src/Chloe.SQLite/SqlGenerator.cs:684-705 | defines `LENGTH(` receiver `)` for string Length, the receiver for Nullable Value, and NotSupported otherwise |
| SqliteEmit.EmitMethodCall | src/Chloe.SQLite/SqlGenerator.cs:605-645 | defines the text of the Sql.IsEqual and Sql.IsNotEqual handlers (IS NULL or IS NOT NULL against an affirmed null, = or <> otherwise), else the DbFunction call with comma-separated arguments, else NotSupported |
| SqliteEmit.ConcatOperands | src/Chloe.SQLite/SqlGenerator.cs:906-923 | defines `(`, the operand texts joined by the connector, `)` |
| SqliteEmit.EmitSegment | src/Chloe.SQLite/SqlGenerator.cs:785-796 | defines the body, ` AS ` and the quoted alias |
| SqliteEmit.LimitClause | src/Chloe.SQLite/SqlGenerator.cs:845-853 | defines the LIMIT/OFFSET tail: nothing without skip and take, else take (long.MaxValue by default) and skip (0 by default) |
| SqliteEmit.EmitQuery | src/Chloe.SQLite/SqlGenerator.cs:822-854 | defines the SELECT statement: DISTINCT when flagged, the columns, FROM and the table, then WHERE, GROUP BY, ORDER BY and LIMIT, numbering parameters in that order |
| SqliteEmit.JoinSnoc | src/Chloe.SQLite/SqlGenerator.cs:906-923 | appending a text to a joined list puts the separator before it exactly when the list was non-empty, so n texts carry n-1 separators |
| SqliteEmit.NatToString | src/Chloe.SQLite/SqlGenerator.cs:731-735 | the decimal rendering of a number is a non-empty string of digits |
| SqliteEmit.ParseIntToString | src/Chloe.SQLite/SqlGenerator.cs:731-735 | a rendered integer is a numeral that reads back as the integer |
| SqliteEmit.ParamNameInjective | src/Chloe.SQLite/SqlGenerator.cs:53-60 | different indexes give different parameter names |
| SqliteEmit.GrowsTrans | src/Chloe.SQLite/SqlGenerator.cs:742-782 | growing the parameter collection is transitive |
| SqliteEmit.FindParam | src/Chloe.SQLite/SqlGenerator.cs:757 | Find returns the first parameter with the same value, type and DbType, and none when there is no such parameter |
| SqliteEmit.EmitParameter | src/Chloe.SQLite/SqlGenerator.cs:742-782 | a parameter visit grows the collection by at most one and keeps it well formed; the appended name is that of the parameter Find then returns; an existing match is reused and nothing is added |
| SqliteEmit.FindParamExtend | src/Chloe.SQLite/SqlGenerator.cs:765-780 | a parameter added after a failed Find is what Find returns next |
| SqliteEmit.FindParamPrefix | src/Chloe.SQLite/SqlGenerator.cs:757-763 | a parameter Find returns is still what it returns after parameters are added |
| SqliteEmit.ParameterVisitDeduplicates | src/Chloe.SQLite/SqlGenerator.cs:742-782 | visiting the same parameter a second time appends the same name and adds nothing |
| SqliteEmit.ParamNamesDistinct | src/Chloe.SQLite/SqlGenerator.cs:765-779 | in a well-formed collection all parameter names are different |
| SqliteEmit.EmitConstant | src/Chloe.SQLite/SqlGenerator.cs:707-741 | a constant visit keeps the collection well formed, and adds no parameter unless the value is of some other type |
| SqliteEmit.ConstantLiteralReadsBack | src/Chloe.SQLite/SqlGenerator.cs:707-735 | a constant's literal reads back as the constant: NULL exactly for null and DBNull, 1 exactly for true and 0 for false, the number for an integer, and the string between single quotes with nothing escaped |
| SqliteEmit.QuoteName | src/Chloe.SQLite/SqlGenerator.cs:925-931 | QuoteName fails with the empty-name error exactly for an empty name |
| SqliteEmit.QuoteNameReadsBack | src/Chloe.SQLite/SqlGenerator.cs:925-931 | a quoted name reads back, between its brackets, as the name |
| SqliteEmit.Gather | src/Chloe.SQLite/SqlGenerator.cs:243-263 | a chain of one connective has at least two operands, each smaller than the chain |
| SqliteEmit.GatherRegroups | src/Chloe.SQLite/SqlGenerator.cs:243-263 | the gathered operands regroup to the original chain, and the first operand does not continue it |
| SqliteEmit.EmitEach | src/Chloe.SQLite/SqlGenerator.cs:906-923 | a walk over a list gives one text per element |
| SqliteEmit.EmitColumnAccess | src/Chloe.SQLite/SqlGenerator.cs:390-397 | a column access adds no parameter |
| SqliteEmit.EmitName | src/Chloe.SQLite/SqlGenerator.cs:385-389 | a table name adds no parameter |
| SqliteEmit.EmitColumns | src/Chloe.SQLite/SqlGenerator.cs:829-837 | the column walk gives one text per column |
| SqliteEmit.EmitWhere | src/Chloe.SQLite/SqlGenerator.cs:856-863 | without a condition nothing is appended and no parameter is added |
| SqliteEmit.EmitGroup | src/Chloe.SQLite/SqlGenerator.cs:884-888 | without group segments nothing is appended, HAVING included |
| SqliteEmit.EmitOrdering | src/Chloe.SQLite/SqlGenerator.cs:797-813 | an order type other than ascending or descending fails with the unsupported-order-type error |
| SqliteEmit.EmitOrderings | src/Chloe.SQLite/SqlGenerator.cs:872-883 | the ordering walk gives one text per ordering |
| SqliteEmit.EmitOrder | src/Chloe.SQLite/SqlGenerator.cs:864-871 | without orderings nothing is appended |
| SqliteEmitProperties.EmitGrows | src/Chloe.SQLite/SqlGenerator.cs:70-782 | visiting any expression only adds parameters at the end of the collection and keeps it well formed |
| SqliteEmitProperties.MemberGrows | src/Chloe.SQLite/SqlGenerator.cs:646-706 | a member visit only adds parameters at the end and keeps the collection well formed |
| SqliteEmitProperties.CoalesceGrows | src/Chloe.SQLite/SqlGenerator.cs:543-552 | a coalesce visit only adds parameters at the end and keeps the collection well formed |
| SqliteEmitProperties.MethodCallGrows | src/Chloe.SQLite/SqlGenerator.cs:605-645 | a method-call visit only adds parameters at the end and keeps the collection well formed |
| SqliteEmitProperties.EachGrows | src/Chloe.SQLite/SqlGenerator.cs:906-923 | an operand walk only adds parameters at the end and keeps the collection well formed |
| SqliteEmitProperties.SegmentGrows | src/Chloe.SQLite/SqlGenerator.cs:785-796 | a column or table segment only adds parameters at the end and keeps the collection well formed |
| SqliteEmitProperties.ColumnsGrows | src/Chloe.SQLite/SqlGenerator.cs:829-837 | the column walk only adds parameters at the end and keeps the collection well formed |
| SqliteEmitProperties.WhereGrows | src/Chloe.SQLite/SqlGenerator.cs:856-863 | the WHERE clause only adds parameters at the end and keeps the collection well formed |
| SqliteEmitProperties.GroupGrows | src/Chloe.SQLite/SqlGenerator.cs:884-904 | the GROUP BY and HAVING clauses only add parameters at the end and keep the collection well formed |
| SqliteEmitProperties.OrderingGrows | src/Chloe.SQLite/SqlGenerator.cs:797-813 | one ordering only adds parameters at the end and keeps the collection well formed |
| SqliteEmitProperties.OrderingsGrows | src/Chloe.SQLite/SqlGenerator.cs:872-883 | the ordering walk only adds parameters at the end and keeps the collection well formed |
| SqliteEmitProperties.QueryGrows | src/Chloe.SQLite/SqlGenerator.cs:822-854 | a query only adds parameters at the end and keeps the collection well formed |
| SqliteEmitProperties.QueryParamsWellFormed | src/Chloe.SQLite/SqlGenerator.cs:742-782 | the parameters a query produces from an empty collection are well formed and have pairwise distinct names |
| SqliteEmitProperties.EmitTextStart | src/Chloe.SQLite/SqlGenerator.cs:70-782 | the text of any expression the model renders is non-empty and does not begin with `D`; this holds only because the DateTime member texts (`DATETIME(...)`, `DATE(...)`, src/Chloe.SQLite/SqlGenerator.cs:650-681) are not rendered |
| SqliteEmitProperties.ParameterTextStart | src/Chloe.SQLite/SqlGenerator.cs:761-780 | the text of a parameter visit is non-empty and begins with the parameter name prefix |
| SqliteEmitProperties.ColumnTextsStart | src/Chloe.SQLite/SqlGenerator.cs:791-796 | no column text the model renders begins with `D` (the same DateTime caveat as EmitTextStart) |
| SqliteEmitProperties.SelectHead | src/Chloe.SQLite/SqlGenerator.cs:824-827 | `SELECT DISTINCT ` begins the query text exactly when the distinct flag is set, provided the column list does not begin with `D` |
| SqliteEmitProperties.DistinctOnlyWhenFlagged | src/Chloe.SQLite/SqlGenerator.cs:822-854 | the SQL of a query begins with `SELECT DISTINCT ` exactly when IsDistinct is set (a string constant or subquery may still contain DISTINCT later in the text); proved over the rendered nodes, through EmitTextStart |
| SqliteGenerator.SqlGenerator.constructor | src/Chloe.SQLite/SqlGenerator.cs:14 | a new generator has an empty builder and an empty parameter collection |
| SqliteGenerator.SqlGenerator.QuoteName | src/Chloe.SQLite/SqlGenerator.cs:925-931 | appends the bracketed name, or fails on an empty name; no parameter is added |
| SqliteGenerator.SqlGenerator.Visit | src/Chloe.SQLite/SqlGenerator.cs:70-782 | any visit appends exactly `Emit` of the node and leaves its parameter collection, or fails with its error |
| SqliteGenerator.SqlGenerator.VisitEqual | src/Chloe.SQLite/SqlGenerator.cs:70-115 | appends the text of the NULL-aware equality rewrite |
| SqliteGenerator.SqlGenerator.VisitNotEqual | src/Chloe.SQLite/SqlGenerator.cs:116-224 | appends the text of the NULL-aware inequality rewrite |
| SqliteGenerator.SqlGenerator.VisitNot | src/Chloe.SQLite/SqlGenerator.cs:226-234 | appends `NOT (`, the operand and `)` |
| SqliteGenerator.SqlGenerator.VisitAnd | src/Chloe.SQLite/SqlGenerator.cs:243-249 | appends the gathered AND operands through ConcatOperands |
| SqliteGenerator.SqlGenerator.VisitOr | src/Chloe.SQLite/SqlGenerator.cs:257-263 | appends the gathered OR operands through ConcatOperands |
| SqliteGenerator.SqlGenerator.ConcatOperands | src/Chloe.SQLite/SqlGenerator.cs:906-923 | appends `(`, the operands joined by the connector (n-1 connectors for n operands), and `)` |
| SqliteGenerator.SqlGenerator.VisitJoined | src/Chloe.SQLite/SqlGenerator.cs:910-919 | the first-flag loop appends the element texts joined by the separator and leaves the walk's parameter collection, or fails with the first element's error |
| SqliteGenerator.SqlGenerator.AcceptElement | src/Chloe.SQLite/SqlGenerator.cs:913-918 | one loop step appends the separator (except before the first element) and the element, advancing the walk by one text |
| SqliteGenerator.SqlGenerator.AppendColumnAt | src/Chloe.SQLite/SqlGenerator.cs:832-836 | one step of the column loop appends a comma (except before the first column) and the column segment |
| SqliteGenerator.SqlGenerator.AppendOrderingAt | src/Chloe.SQLite/SqlGenerator.cs:876-881 | one step of the ordering loop appends a comma (except before the first ordering) and the ordering |
| SqliteGenerator.SqlGenerator.VisitCoalesce | src/Chloe.SQLite/SqlGenerator.cs:543-552 | appends `IFNULL(`, the check, `,`, the replacement and `)` |
| SqliteGenerator.SqlGenerator.VisitMethodCall | src/Chloe.SQLite/SqlGenerator.cs:605-645 | appends the comparison handler's text or the DbFunction call, or fails with NotSupported for any other method |
| SqliteGenerator.SqlGenerator.ProcessComparison | src/Chloe.SQLite/SqlGenerator.cs:608-614 | appends `x IS NULL`/`x IS NOT NULL` against a known null, else `x = y`/`x <> y` |
| SqliteGenerator.SqlGenerator.VisitDbFunction | src/Chloe.SQLite/SqlGenerator.cs:617-636 | appends the quoted function name (the attribute's name, or the method's when that is empty) and the comma-separated arguments in parentheses |
| SqliteGenerator.SqlGenerator.VisitMember | src/Chloe.SQLite/SqlGenerator.cs:684-705 | appends `LENGTH(` the string `)` for string Length, the receiver for Nullable Value, and fails with NotSupported otherwise |
| SqliteGenerator.SqlGenerator.VisitConstant | src/Chloe.SQLite/SqlGenerator.cs:707-741 | appends exactly the constant's literal, or visits it as a parameter |
| SqliteGenerator.SqlGenerator.VisitParameter | src/Chloe.SQLite/SqlGenerator.cs:742-782 | appends the reused or new parameter name and leaves exactly the specified collection |
| SqliteGenerator.SqlGenerator.VisitColumnAccess | src/Chloe.SQLite/SqlGenerator.cs:390-397 | appends the quoted table name, `.` and the quoted column name |
| SqliteGenerator.SqlGenerator.VisitSubQuery | src/Chloe.SQLite/SqlGenerator.cs:431-443 | appends the query's SQL in parentheses |
| SqliteGenerator.SqlGenerator.AppendSegment | src/Chloe.SQLite/SqlGenerator.cs:785-796 | appends the body, ` AS ` and the quoted alias |
| SqliteGenerator.SqlGenerator.AppendOrdering | src/Chloe.SQLite/SqlGenerator.cs:797-813 | appends the expression and ` ASC` or ` DESC`, and fails for any other order type |
| SqliteGenerator.SqlGenerator.BuildWhereState | src/Chloe.SQLite/SqlGenerator.cs:856-863 | appends ` WHERE ` and the condition only when there is a condition |
| SqliteGenerator.SqlGenerator.BuildOrderState | src/Chloe.SQLite/SqlGenerator.cs:864-871 | appends ` ORDER BY ` and the orderings only when there are orderings |
| SqliteGenerator.SqlGenerator.ConcatOrderings | src/Chloe.SQLite/SqlGenerator.cs:872-883 | the index-flag loop appends the orderings separated by commas |
| SqliteGenerator.SqlGenerator.BuildGroupState | src/Chloe.SQLite/SqlGenerator.cs:884-904 | nothing without group segments; otherwise ` GROUP BY `, the comma-separated segments, then ` HAVING ` and the condition when there is one |
| SqliteGenerator.SqlGenerator.AppendColumns | src/Chloe.SQLite/SqlGenerator.cs:829-837 | the index-flag loop appends the column segments separated by commas |
| SqliteGenerator.SqlGenerator.BuildGeneralSql | src/Chloe.SQLite/SqlGenerator.cs:822-854 | appends exactly `EmitQuery`: `SELECT `, `DISTINCT ` when flagged, the columns, ` FROM ` and the table, then the WHERE, GROUP BY, ORDER BY and LIMIT parts |
| SqliteGenerator.SqlGenerator.AppendLimit | src/Chloe.SQLite/SqlGenerator.cs:845-853 | appends nothing when neither skip nor take is set; otherwise ` LIMIT ` take (long.MaxValue by default) ` OFFSET ` skip (0 by default); no parameter is added |

## Left out

- Concurrency is not modelled: `async`/`await`, the `TaskCompletionSource` continuations, `lock(this)` and `CancellationToken`. Each locked section is one atomic method. The continuation after the await of a get is the separate method `Resume`, for a waiter that is already settled.
- The sync-over-async `Get` (src/Chloe/Sharding/ShareObjectPool.cs:92-95) blocks on the same locked section as `GetAsync`, and is not a separate member.
- The race between the unlocked disposed check of `GetAsync` and a concurrent `Dispose` is not modelled, because the model makes the check part of the atomic step.
- `SharePool.ShareObjectPool.Dispose` does not dispose the objects of `All`: they are foreign `IDisposable`s. It only records whether they would be disposed, in the flag `objectsDisposed`.
- `SharePool.PoolItem.Dispose` requires that the item's object is lent out. Only the pool creates items, through `Resume`, so the requirement is the pool's own protocol.
- Class `SqliteGenerator.SqlGenerator`: on an exception its methods state only the error. The text already appended to the builder before the throw is not specified, because the generator is abandoned after an exception.
- Reflection and client-side evaluation are inputs of the model: `MethodInfo`, `MakeGenericMethod`, `GetCustomAttribute`, `IsDefined` and `Evaluate`. So are the transformer's `ToTranslateMembers` and method handler table.
- `PagingQuery.PagingResultAssembly` assumes per-table row counts that fit in a long, since they are natural numbers. The overflow of one table's `LongCount` is not modelled.
- `OrderedTableQuery`, `OrdinaryQueryEnumerable` and `AggregateQuery` are not part of this model. They are represented by the row counts and the two row strategies of `PagingQuery.Sources`.
- `EvaluableTransformer.Transform` rebuilds the Equal, NotEqual, And, Or and Not nodes from their transformed operands. It returns Constant, ColumnAccess, Table and SubQuery unchanged. The visitor base class that does this is not part of this model.
- `PagingQuery.CountExecutor` and `PagingQuery.LongCountAsync`: the agreement of LongCount and LongCountAsync on the same query is assumed, not proved. Both are modelled by the one input `rowCount`, because the two are foreign query methods that are not part of this model. The sync-versus-async clause of `PagingQuery.TotalsIndependentOfStrategy` rests on that assumption.
- `SqliteEmitProperties.EmitTextStart`, `SqliteEmitProperties.ColumnTextsStart` and `SqliteEmitProperties.DistinctOnlyWhenFlagged` hold over the nodes the model renders. The DateTime member texts `DATETIME('NOW','LOCALTIME')`, `DATETIME()`, `DATE('NOW','LOCALTIME')` and `DATETIME(DATE(...))` (src/Chloe.SQLite/SqlGenerator.cs:650-681) begin with `D` and are not rendered, and neither is the DATETIME output of `Visit(DbConvertExpression)`. The proof that a query begins with `SELECT DISTINCT ` exactly when it is distinct therefore does not cover queries whose first column is such a member.
- `SqliteEmit.EmitConstant` does not model enums (`Convert.ChangeType`) or float, double and decimal literals. Only the integer types of the numeric table are rendered raw.
- `SqliteEmit.EmitParameter` does not model the enum conversion of a parameter.
- `SqliteGenerator.SqlGenerator.VisitMember` and its specification `SqliteEmit.EmitMember` do not model the DateTime members (`Now`, `UtcNow`, `Today`, `Date`, date parts). It also omits `TryConvertToParameterExpression`, so any other member fails with NotSupported. A null receiver for `Value` throws in the code; the model fails with NotSupported instead.
- `SqliteGenerator.SqlGenerator.VisitMethodCall` and its specification `SqliteEmit.EmitMethodCall` do not model the registered method handlers other than Sql.IsEqual and Sql.IsNotEqual. It also omits the `IsEvaluable` fallback (src/Chloe.SQLite/SqlGenerator.cs:638-642).
- `StripInvalidConvert` is not modelled, and neither is `Visit(DbConvertExpression)` with its CAST and DATETIME output. The comparisons operate on the operands as given.
- The bitwise, arithmetic and comparison operators beyond `==` and `!=` are not modelled. Neither are CASE WHEN, aggregates, joins, and the INSERT, UPDATE and DELETE statements. They use the same ConcatOperands and append patterns but are outside this core.
- `SqliteNullRewrite.RewriteEqualKeepsMeaning` and `SqliteNullRewrite.RewriteNotEqualKeepsMeaning` exclude subquery operands. For those the code deliberately emits the plain comparison without NULL handling.
- `SqliteEmit.QuoteName` treats only the empty name as missing, since a Dafny string cannot be null. Names are not escaped.
- `SqliteEmit.Gather` is the assumed flattening of `GatherBinaryExpressionOperand`, which is not part of this model.
- The SQL Server ODBC `Average_Handler`, the `QueryExpressionType` enum and `SQLiteOptions` are not modelled. They hold no behaviour of this core.
