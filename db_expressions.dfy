/**
  The database expression tree shared by the expression-folding visitor and
  the SQLite SQL generator: the node kinds both of them handle, the CLR type
  information they consult (nullability, the underlying type of a nullable),
  the values a constant or parameter can hold, and the SQL query expression
  with its column, table, grouping and ordering parts.
*/
module DbExpressions {
  import opened Wrappers

  /** How a CLR type can hold null: a plain value type cannot, Nullable<T> and reference
      types can. */
  datatype TypeKind = ValueKind | NullableKind | ReferenceKind

  /** A CLR type; a Nullable<T> carries T's name with `NullableKind`. */
  datatype Ty = Ty(name: string, kind: TypeKind) {
    /** Type.CanNull */
    predicate CanNull() {
      kind != ValueKind
    }

    /** Type.GetUnderlyingType: T for Nullable<T>, the type itself otherwise. */
    function Underlying(): (t: Ty)
      ensures t.name == name && !(t.kind == NullableKind)
      ensures kind != NullableKind ==> t == this
    {
      if kind == NullableKind then Ty(name, ValueKind) else this
    }
  }

  const BooleanTy := Ty("Boolean", ValueKind)
  const StringTy := Ty("String", ReferenceKind)
  const ObjectTy := Ty("Object", ReferenceKind)
  const DBNullTy := Ty("DBNull", ReferenceKind)

  /** The integral CLR types of the generator's numeric table. Float, double and decimal
      are not part of this model. */
  datatype IntegerKind = Byte | SByte | Int16 | UInt16 | Int32 | UInt32 | Int64 | UInt64

  function IntegerTy(k: IntegerKind): Ty {
    match k
    case Byte => Ty("Byte", ValueKind)
    case SByte => Ty("SByte", ValueKind)
    case Int16 => Ty("Int16", ValueKind)
    case UInt16 => Ty("UInt16", ValueKind)
    case Int32 => Ty("Int32", ValueKind)
    case UInt32 => Ty("UInt32", ValueKind)
    case Int64 => Ty("Int64", ValueKind)
    case UInt64 => Ty("UInt64", ValueKind)
  }

  /** The value of a constant or parameter: null, DBNull.Value, a bool, a string, an
      integer of one of the numeric types, or any other object (identified by `id`). */
  datatype Value =
    | NullValue
    | DbNullValue
    | BoolValue(b: bool)
    | StringValue(s: string)
    | IntegerValue(n: int, intKind: IntegerKind)
    | OtherValue(id: nat, runtimeTy: Ty)
  {
    predicate IsNull() {
      NullValue? || DbNullValue?
    }

    /** Value.GetType() for a value that is not null. */
    function RuntimeType(): Ty
      requires !NullValue?
    {
      match this
      case DbNullValue => DBNullTy
      case BoolValue(_) => BooleanTy
      case StringValue(_) => StringTy
      case IntegerValue(_, k) => IntegerTy(k)
      case OtherValue(_, t) => t
    }
  }

  /** The DbType a parameter may be given explicitly. */
  datatype DbType = AnsiString | AnsiStringFixedLength | String | StringFixedLength | OtherDbType(code: nat)

  datatype MemberInfo = MemberInfo(name: string, declaringType: Ty)

  /** A method, with the Name of its DbFunction attribute when it has one. */
  datatype MethodInfo = MethodInfo(name: string, declaringType: Ty, dbFunction: Option<string>)

  const SqlTy := Ty("Chloe.Sql", ReferenceKind)
  /** Sql.IsEqual and Sql.IsNotEqual, the comparison helpers the generator's rewrites call. */
  const SqlIsEqual := MethodInfo("IsEqual", SqlTy, None)
  const SqlIsNotEqual := MethodInfo("IsNotEqual", SqlTy, None)

  datatype OrderType = Asc | Desc | OtherOrderType(code: nat)

  datatype Expr =
    | Constant(value: Value, ty: Ty)
    | Parameter(value: Value, ty: Ty, dbType: Option<DbType>)
    | Member(member: MemberInfo, instance: Option<Expr>, ty: Ty)
    | Coalesce(check: Expr, replacement: Expr, ty: Ty)
    | MethodCall(obj: Option<Expr>, callee: MethodInfo, args: seq<Expr>, ty: Ty)
    | Equal(left: Expr, right: Expr)
    | NotEqual(left: Expr, right: Expr)
    | And(left: Expr, right: Expr)
    | Or(left: Expr, right: Expr)
    | Not(operand: Expr)
    | ColumnAccess(tableName: string, columnName: string, ty: Ty)
    | Table(name: string)
    | SubQuery(query: SqlQuery, ty: Ty)

  datatype ColumnSegment = ColumnSegment(body: Expr, alias: string)
  datatype TableSegment = TableSegment(body: Expr, alias: string)
  datatype Ordering = Ordering(expr: Expr, orderType: OrderType)

  /** A SELECT query; joins are not part of this model. */
  datatype SqlQuery = SqlQuery(
    isDistinct: bool,
    columns: seq<ColumnSegment>,
    table: TableSegment,
    condition: Option<Expr>,
    groupSegments: seq<Expr>,
    havingCondition: Option<Expr>,
    orderings: seq<Ordering>,
    skipCount: Option<int>,
    takeCount: Option<int>)

  /** DbExpression.Type */
  function TypeOf(e: Expr): Ty {
    match e
    case Constant(_, t) => t
    case Parameter(_, t, _) => t
    case Member(_, _, t) => t
    case Coalesce(_, _, t) => t
    case MethodCall(_, _, _, t) => t
    case Equal(_, _) => BooleanTy
    case NotEqual(_, _) => BooleanTy
    case And(_, _) => BooleanTy
    case Or(_, _) => BooleanTy
    case Not(_) => BooleanTy
    case ColumnAccess(_, _, t) => t
    case Table(_) => ObjectTy
    case SubQuery(_, t) => t
  }

  /** The node is a Constant or a Parameter. */
  predicate IsConstantOrParameterNode(e: Expr) {
    e.Constant? || e.Parameter?
  }

  /** A Constant or Parameter whose value is null or DBNull: its value is known to be null. */
  predicate AffirmNull(e: Expr) {
    (e.Constant? || e.Parameter?) && e.value.IsNull()
  }

  /** A size measure on expression trees under which the generator's equality rewrites
      are smaller than the comparisons they replace. */
  function Weight(e: Expr): nat
    decreases e, 0
  {
    match e
    case Constant(_, _) => 1
    case Parameter(_, _, _) => 1
    case Member(_, inst, _) => 1 + OptWeight(inst)
    case Coalesce(c, rp, _) => 1 + Weight(c) + Weight(rp)
    case MethodCall(obj, _, args, _) => 1 + OptWeight(obj) + ArgsWeight(args)
    case Equal(l, r) => 4 * (Weight(l) + Weight(r)) + 16
    case NotEqual(l, r) => 4 * (Weight(l) + Weight(r)) + 16
    case And(l, r) => 1 + Weight(l) + Weight(r)
    case Or(l, r) => 1 + Weight(l) + Weight(r)
    case Not(o) => 1 + Weight(o)
    case ColumnAccess(_, _, _) => 1
    case Table(_) => 1
    case SubQuery(q, _) => 1 + QueryWeight(q)
  }

  function OptWeight(e: Option<Expr>): nat {
    if e.Some? then Weight(e.value) else 0
  }

  function ArgsWeight(args: seq<Expr>): (w: nat)
    ensures forall i :: 0 <= i < |args| ==> Weight(args[i]) <= w
  {
    if args == [] then 0 else ArgsWeight(args[..|args| - 1]) + Weight(args[|args| - 1])
  }

  function ColumnsWeight(cs: seq<ColumnSegment>): (w: nat)
    ensures forall i :: 0 <= i < |cs| ==> Weight(cs[i].body) <= w
  {
    if cs == [] then 0 else ColumnsWeight(cs[..|cs| - 1]) + Weight(cs[|cs| - 1].body)
  }

  /** The weight of the first `n` orderings of `q`. */
  function OrderingsWeight(q: SqlQuery, n: nat): (w: nat)
    requires n <= |q.orderings|
    ensures forall i :: 0 <= i < n ==> Weight(q.orderings[i].expr) <= w
    decreases q, n
  {
    if n == 0 then 0 else OrderingsWeight(q, n - 1) + Weight(q.orderings[n - 1].expr)
  }

  function QueryWeight(q: SqlQuery): (w: nat)
    decreases q, |q.orderings| + 1
    ensures forall i :: 0 <= i < |q.columns| ==> Weight(q.columns[i].body) < w
    ensures forall i :: 0 <= i < |q.groupSegments| ==> Weight(q.groupSegments[i]) < w
    ensures forall i :: 0 <= i < |q.orderings| ==> Weight(q.orderings[i].expr) < w
    ensures Weight(q.table.body) < w && OptWeight(q.condition) < w && OptWeight(q.havingCondition) < w
  {
    1 + ColumnsWeight(q.columns) + Weight(q.table.body) + OptWeight(q.condition)
      + ArgsWeight(q.groupSegments) + OptWeight(q.havingCondition) + OrderingsWeight(q, |q.orderings|)
  }
}
