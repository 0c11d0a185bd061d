/**
  What the SQLite SQL generator emits, as functions: for every node the text
  the visit appends to the SQL builder and the parameter collection after the
  visit. The generator class (module SqliteGenerator) is proved to append
  exactly this text and to leave exactly this collection.

  Lists are emitted element by element; a list's texts are then joined with
  the separator (`Join`), which is how the generator's first/index-flag loops
  are specified.
*/
module SqliteEmit {
  import opened Wrappers
  import opened DbExpressions
  import opened SqliteNullRewrite

  /** The parameter name prefix of the SQLite provider. */
  const ParameterNamePrefix: string := "@P_"
  /** long.MaxValue, the LIMIT of a query that only skips. */
  const LongMaxValue: int := 0x7FFF_FFFF_FFFF_FFFF
  /** The size given to a string parameter of at most this length. */
  const DefaultStringSize: int := 4000

  /** The exceptions the generator throws: ArgumentException for an empty name,
      NotSupportedException for an unknown order type, method or member. */
  datatype GenError =
    | EmptyName
    | UnsupportedOrderType(code: nat)
    | NotSupportedMethod(methodName: string)
    | NotSupportedMember(memberName: string)

  /** A DbParam of the parameter collection. */
  datatype DbParam = DbParam(name: string, value: Value, ty: Ty, size: Option<int>, dbType: Option<DbType>)

  /** The text one visit appends, and the parameter collection after it. */
  datatype Piece = Piece(text: string, params: seq<DbParam>)

  /** The texts a list walk appends, one per element, and the parameter collection after it. */
  datatype Pieces = Pieces(texts: seq<string>, params: seq<DbParam>)

  /** The texts joined with `sep` between consecutive elements (n - 1 separators for n texts). */
  function Join(texts: seq<string>, sep: string): string {
    if |texts| == 0 then ""
    else if |texts| == 1 then texts[0]
    else Join(texts[..|texts| - 1], sep) + sep + texts[|texts| - 1]
  }

  lemma JoinSnoc(texts: seq<string>, t: string, sep: string)
    ensures Join(texts + [t], sep) == Join(texts, sep) + (if texts == [] then "" else sep) + t
  {
    assert (texts + [t])[..|texts|] == texts;
  }

  /* ---------------------------------------------------------------- numbers */

  function DigitChar(d: nat): (c: char)
    requires d < 10
    ensures '0' <= c <= '9' && (c as int) - ('0' as int) == d
  {
    (('0' as int) + d) as char
  }

  predicate IsDigits(s: string) {
    forall i :: 0 <= i < |s| ==> '0' <= s[i] <= '9'
  }

  /** Decimal rendering of a natural number (Int32/Int64 ToString). */
  function NatToString(n: nat): (s: string)
    ensures |s| > 0 && IsDigits(s)
  {
    if n < 10 then [DigitChar(n)] else NatToString(n / 10) + [DigitChar(n % 10)]
  }

  function IntToString(n: int): (s: string)
    ensures |s| > 0
  {
    if n < 0 then "-" + NatToString(-n) else NatToString(n)
  }

  /** Reading a decimal numeral back. */
  function ParseNat(s: string): nat
    requires IsDigits(s)
  {
    if s == [] then 0 else ParseNat(s[..|s| - 1]) * 10 + ((s[|s| - 1] as int) - ('0' as int))
  }

  /** An optional minus sign followed by digits. */
  predicate IsNumeral(s: string) {
    |s| > 0 && (if s[0] == '-' then IsDigits(s[1..]) else IsDigits(s))
  }

  function ParseInt(s: string): int
    requires IsNumeral(s)
  {
    if s[0] == '-' then -(ParseNat(s[1..]) as int) else ParseNat(s)
  }

  /** The rendering reads back as the number. */
  lemma {:induction false} ParseNatToString(n: nat)
    ensures ParseNat(NatToString(n)) == n
  {
    if n >= 10 {
      var s := NatToString(n);
      assert s[..|s| - 1] == NatToString(n / 10);
      ParseNatToString(n / 10);
    }
  }

  lemma ParseIntToString(n: int)
    ensures IsNumeral(IntToString(n)) && ParseInt(IntToString(n)) == n
  {
    var s := IntToString(n);
    if n < 0 {
      var digits := NatToString(-n);
      assert s == "-" + digits;
      assert s[1..] == digits;
      ParseNatToString(-n);
    } else {
      var digits := NatToString(n);
      assert s == digits && s[0] != '-';
      ParseNatToString(n);
    }
  }

  /** GenParameterName: the prefix followed by the index. */
  function ParamName(n: nat): string {
    ParameterNamePrefix + NatToString(n)
  }

  /** Different indexes give different parameter names. */
  lemma ParamNameInjective(i: nat, j: nat)
    ensures ParamName(i) == ParamName(j) ==> i == j
  {
    if ParamName(i) == ParamName(j) {
      var p := |ParameterNamePrefix|;
      assert NatToString(i) == ParamName(i)[p..];
      assert NatToString(j) == ParamName(j)[p..];
      ParseNatToString(i);
      ParseNatToString(j);
    }
  }

  /* ---------------------------------------------------------------- parameters */

  /** The parameter has this value, type and DbType: the key DbParamCollection.Find matches on. */
  predicate HasKey(p: DbParam, value: Value, ty: Ty, dbType: Option<DbType>) {
    p.value == value && p.ty == ty && p.dbType == dbType
  }

  /** The collection the generator builds: the i-th parameter is named by i, and no two
      parameters share a key. */
  predicate ParamsWellFormed(ps: seq<DbParam>) {
    && (forall i :: 0 <= i < |ps| ==> ps[i].name == ParamName(i))
    && (forall i, j :: 0 <= i < j < |ps| ==> !HasKey(ps[j], ps[i].value, ps[i].ty, ps[i].dbType))
  }

  /** Visiting only adds parameters at the end, and keeps the collection well formed. */
  predicate Grows(ps: seq<DbParam>, qs: seq<DbParam>) {
    ps <= qs && (ParamsWellFormed(ps) ==> ParamsWellFormed(qs))
  }

  lemma GrowsTrans(ps: seq<DbParam>, qs: seq<DbParam>, rs: seq<DbParam>)
    requires Grows(ps, qs) && Grows(qs, rs)
    ensures Grows(ps, rs)
  {
    assert rs[..|qs|][..|ps|] == rs[..|ps|];
  }

  /** DbParamCollection.Find: the first parameter with the key, searching from index i. */
  function FindParam(ps: seq<DbParam>, value: Value, ty: Ty, dbType: Option<DbType>, i: nat): (r: Option<nat>)
    requires i <= |ps|
    ensures r.Some? ==>
      && i <= r.value < |ps| && HasKey(ps[r.value], value, ty, dbType)
      && (forall k :: i <= k < r.value ==> !HasKey(ps[k], value, ty, dbType))
    ensures r.None? ==> forall k :: i <= k < |ps| ==> !HasKey(ps[k], value, ty, dbType)
    decreases |ps| - i
  {
    if i == |ps| then None
    else if HasKey(ps[i], value, ty, dbType) then Some(i)
    else FindParam(ps, value, ty, dbType, i + 1)
  }

  /** A null value is passed as DBNull. */
  function ParamValue(value: Value): Value {
    if value == NullValue then DbNullValue else value
  }

  /** The Size of a new string parameter: its length for a fixed-length DbType, else 4000
      when it fits; other parameters get no size. */
  function StringSize(value: Value, dbType: Option<DbType>): Option<int> {
    if !value.StringValue? then None
    else if dbType == Some(AnsiStringFixedLength) || dbType == Some(StringFixedLength) then Some(|value.s|)
    else if |value.s| <= DefaultStringSize then Some(DefaultStringSize)
    else None
  }

  /** Visit(DbParameterExpression): reuse the parameter with the same value, underlying
      type and DbType, or add one named by the collection's count. The appended text is
      the name of the parameter that Find returns after the visit. */
  function EmitParameter(value: Value, ty: Ty, dbType: Option<DbType>, ps: seq<DbParam>): (r: Piece)
    ensures Grows(ps, r.params) && |ps| <= |r.params| <= |ps| + 1
    ensures var found := FindParam(r.params, ParamValue(value), ty.Underlying(), dbType, 0);
      found.Some? && r.text == r.params[found.value].name
    ensures FindParam(ps, ParamValue(value), ty.Underlying(), dbType, 0).Some? ==> r.params == ps
  {
    var paramType := ty.Underlying();
    var paramValue := ParamValue(value);
    match FindParam(ps, paramValue, paramType, dbType, 0)
    case Some(i) => Piece(ps[i].name, ps)
    case None =>
      var name := ParamName(|ps|);
      var p := DbParam(name, paramValue, paramType, StringSize(paramValue, dbType), dbType);
      assert FindParam(ps + [p], paramValue, paramType, dbType, 0) == Some(|ps|) by {
        FindParamExtend(ps, p, paramValue, paramType, dbType, 0);
      }
      Piece(name, ps + [p])
  }

  lemma {:induction false} FindParamExtend(ps: seq<DbParam>, p: DbParam, value: Value, ty: Ty, dbType: Option<DbType>, i: nat)
    requires i <= |ps|
    requires FindParam(ps, value, ty, dbType, i).None? && HasKey(p, value, ty, dbType)
    ensures FindParam(ps + [p], value, ty, dbType, i) == Some(|ps|)
    decreases |ps| - i
  {
    if i < |ps| {
      FindParamExtend(ps, p, value, ty, dbType, i + 1);
    }
  }

  lemma {:induction false} FindParamPrefix(ps: seq<DbParam>, qs: seq<DbParam>, value: Value, ty: Ty, dbType: Option<DbType>, i: nat)
    requires i <= |ps| && ps <= qs
    requires FindParam(ps, value, ty, dbType, i).Some?
    ensures FindParam(qs, value, ty, dbType, i) == FindParam(ps, value, ty, dbType, i)
    decreases |ps| - i
  {
    assert ps[i] == qs[i];
    if !HasKey(ps[i], value, ty, dbType) {
      FindParamPrefix(ps, qs, value, ty, dbType, i + 1);
    }
  }

  /** Visiting the same parameter twice adds at most one parameter, and the second visit
      appends the same name and adds nothing. */
  lemma ParameterVisitDeduplicates(value: Value, ty: Ty, dbType: Option<DbType>, ps: seq<DbParam>)
    ensures var first := EmitParameter(value, ty, dbType, ps);
      EmitParameter(value, ty, dbType, first.params) == first
  {
    var first := EmitParameter(value, ty, dbType, ps);
    var key := (ParamValue(value), ty.Underlying(), dbType);
    var found := FindParam(first.params, key.0, key.1, key.2, 0);
    assert found.Some?;
  }

  /** In a well-formed collection every parameter name is different. */
  lemma ParamNamesDistinct(ps: seq<DbParam>)
    requires ParamsWellFormed(ps)
    ensures forall i, j :: 0 <= i < j < |ps| ==> ps[i].name != ps[j].name
  {
    forall i, j | 0 <= i < j < |ps| ensures ps[i].name != ps[j].name {
      ParamNameInjective(i, j);
    }
  }

  /* ---------------------------------------------------------------- literals and names */

  /** Visit(DbConstantExpression): NULL, 1/0, a quoted string, a raw integer, or a
      parameter for any other value. */
  function EmitConstant(value: Value, ps: seq<DbParam>): (r: Piece)
    ensures Grows(ps, r.params)
    ensures !value.OtherValue? ==> r.params == ps
  {
    match value
    case NullValue => Piece("NULL", ps)
    case DbNullValue => Piece("NULL", ps)
    case BoolValue(b) => Piece(if b then "1" else "0", ps)
    case StringValue(s) => Piece("'" + s + "'", ps)
    case IntegerValue(n, _) => Piece(IntToString(n), ps)
    case OtherValue(_, t) => EmitParameter(value, t, None, ps)
  }

  /** The literal a constant renders to reads back as the constant: NULL for null and
      DBNull, 1 exactly for true, the number for an integer, and the string between its
      quotes (no character of it is escaped). */
  lemma ConstantLiteralReadsBack(value: Value, ps: seq<DbParam>)
    requires !value.OtherValue?
    ensures var t := EmitConstant(value, ps).text;
      && (value.IsNull() <==> t == "NULL")
      && (value.BoolValue? ==> (t == "1" <==> value.b) && (t == "0" <==> !value.b))
      && (value.IntegerValue? ==> ParseInt(t) == value.n)
      && (value.StringValue? ==> |t| >= 2 && t[0] == '\'' && t[|t| - 1] == '\'' && t[1..|t| - 1] == value.s)
  {
    var t := EmitConstant(value, ps).text;
    assert "NULL"[0] == 'N';
    if value.IntegerValue? {
      ParseIntToString(value.n);
      assert t[0] == '-' || '0' <= t[0] <= '9';
    } else if value.StringValue? {
      assert t[0] == '\'';
    }
  }

  /** QuoteName: an empty name is rejected; any other name is put in brackets. */
  function QuoteName(name: string): (r: Result<string, GenError>)
    ensures r.Err? <==> name == []
    ensures r.Err? ==> r.error == EmptyName
  {
    if name == [] then Err(EmptyName) else Ok("[" + name + "]")
  }

  function Unquote(s: string): Option<string> {
    if |s| >= 2 && s[0] == '[' && s[|s| - 1] == ']' then Some(s[1..|s| - 1]) else None
  }

  /** A quoted name reads back as the name. */
  lemma QuoteNameReadsBack(name: string)
    ensures QuoteName(name).Ok? ==> Unquote(QuoteName(name).value) == Some(name)
  {
  }

  /* ---------------------------------------------------------------- expressions */

  predicate SameConnective(a: Expr, b: Expr) {
    (a.And? && b.And?) || (a.Or? && b.Or?)
  }

  /** GatherBinaryExpressionOperand: the operands of a chain of the same connective,
      left-most first. */
  function Gather(e: Expr): (ops: seq<Expr>)
    requires e.And? || e.Or?
    ensures |ops| >= 2
    ensures forall i :: 0 <= i < |ops| ==> Weight(ops[i]) < Weight(e)
  {
    (if SameConnective(e.left, e) then Gather(e.left) else [e.left]) + [e.right]
  }

  /** Re-associating the operands to the left with the connective. */
  function Regroup(ops: seq<Expr>, isAnd: bool): Expr
    requires |ops| >= 1
  {
    if |ops| == 1 then ops[0]
    else
      var l := Regroup(ops[..|ops| - 1], isAnd);
      if isAnd then And(l, ops[|ops| - 1]) else Or(l, ops[|ops| - 1])
  }

  /** Gathering loses nothing: the operands regroup to the original chain, and the first
      operand does not continue the chain. */
  lemma {:induction false} GatherRegroups(e: Expr)
    requires e.And? || e.Or?
    ensures Regroup(Gather(e), e.And?) == e
    ensures !SameConnective(Gather(e)[0], e)
  {
    var ops := Gather(e);
    assert ops[..|ops| - 1] == (if SameConnective(e.left, e) then Gather(e.left) else [e.left]);
    if SameConnective(e.left, e) {
      GatherRegroups(e.left);
    }
  }

  /** Visit: the text appended for one node and the parameter collection after it. */
  function Emit(e: Expr, ps: seq<DbParam>): (r: Result<Piece, GenError>)
    decreases Weight(e), 2, 0
  {
    match e
    case Constant(v, _) => Ok(EmitConstant(v, ps))
    case Parameter(v, ty, dbType) => Ok(EmitParameter(v, ty, dbType, ps))
    case Member(_, _, _) => EmitMember(e, ps)
    case Coalesce(_, _, _) => EmitCoalesce(e, ps)
    case MethodCall(_, _, _, _) => EmitMethodCall(e, ps)
    case Equal(_, _) => EmitEqual(e, ps)
    case NotEqual(_, _) => EmitNotEqual(e, ps)
    case And(_, _) => ConcatOperands(Gather(e), " AND ", ps, Weight(e))
    case Or(_, _) => ConcatOperands(Gather(e), " OR ", ps, Weight(e))
    case Not(_) => EmitNot(e, ps)
    case ColumnAccess(_, _, _) => EmitColumnAccess(e, ps)
    case Table(name) => EmitName(name, ps)
    case SubQuery(_, _) => EmitSubQuery(e, ps)
  }

  /** Visit(DbEqualExpression): the text of the NULL-aware rewrite. */
  function EmitEqual(e: Expr, ps: seq<DbParam>): (r: Result<Piece, GenError>)
    requires e.Equal?
    decreases Weight(e), 1, 0
  {
    Emit(RewriteEqual(e.left, e.right), ps)
  }

  /** Visit(DbNotEqualExpression): the text of the NULL-aware rewrite. */
  function EmitNotEqual(e: Expr, ps: seq<DbParam>): (r: Result<Piece, GenError>)
    requires e.NotEqual?
    decreases Weight(e), 1, 0
  {
    Emit(RewriteNotEqual(e.left, e.right), ps)
  }

  function EmitCoalesce(e: Expr, ps: seq<DbParam>): (r: Result<Piece, GenError>)
    requires e.Coalesce?
    decreases Weight(e), 1, 0
  {
    var pc :- Emit(e.check, ps);
    var pr :- Emit(e.replacement, pc.params);
    Ok(Piece("IFNULL(" + pc.text + "," + pr.text + ")", pr.params))
  }

  function EmitNot(e: Expr, ps: seq<DbParam>): (r: Result<Piece, GenError>)
    requires e.Not?
    decreases Weight(e), 1, 0
  {
    var p :- Emit(e.operand, ps);
    Ok(Piece("NOT " + "(" + p.text + ")", p.params))
  }

  function EmitColumnAccess(e: Expr, ps: seq<DbParam>): (r: Result<Piece, GenError>)
    requires e.ColumnAccess?
    ensures r.Ok? ==> r.value.params == ps
  {
    var t :- QuoteName(e.tableName);
    var c :- QuoteName(e.columnName);
    Ok(Piece(t + "." + c, ps))
  }

  /** The piece of QuoteName: the quoted name, and no new parameter. Visit(DbTableExpression)
      (AppendTable) appends it for the table's name. */
  function EmitName(name: string, ps: seq<DbParam>): (r: Result<Piece, GenError>)
    ensures r.Ok? ==> r.value.params == ps
  {
    var t :- QuoteName(name);
    Ok(Piece(t, ps))
  }

  function EmitSubQuery(e: Expr, ps: seq<DbParam>): (r: Result<Piece, GenError>)
    requires e.SubQuery?
    decreases Weight(e), 1, 0
  {
    var p :- EmitQuery(e.query, ps);
    Ok(Piece("(" + p.text + ")", p.params))
  }

  /** Visit(DbMemberExpression) for string Length and Nullable Value. */
  function EmitMember(e: Expr, ps: seq<DbParam>): (r: Result<Piece, GenError>)
    requires e.Member?
    decreases Weight(e), 1, 0
  {
    var m := e.member;
    if m.name == "Length" && m.declaringType == StringTy && e.instance.Some? then
      assert OptWeight(e.instance) == Weight(e.instance.value);
      var p :- Emit(e.instance.value, ps);
      Ok(Piece("LENGTH(" + p.text + ")", p.params))
    else if m.name == "Value" && e.instance.Some? && TypeOf(e.instance.value).kind == NullableKind then
      assert OptWeight(e.instance) == Weight(e.instance.value);
      Emit(e.instance.value, ps)
    else Err(NotSupportedMember(m.name))
  }

  /** Visit(DbMethodCallExpression): the Sql.IsEqual / Sql.IsNotEqual handlers, then a
      DbFunction call, else NotSupportedException. */
  function EmitMethodCall(e: Expr, ps: seq<DbParam>): (r: Result<Piece, GenError>)
    requires e.MethodCall?
    decreases Weight(e), 1, 0
  {
    var m := e.callee;
    var args := e.args;
    if (m == SqlIsEqual || m == SqlIsNotEqual) && |args| == 2 then
      var isNull := if m == SqlIsEqual then " IS NULL" else " IS NOT NULL";
      if AffirmNull(args[1]) then
        var p :- Emit(args[0], ps);
        Ok(Piece(p.text + isNull, p.params))
      else if AffirmNull(args[0]) then
        var p :- Emit(args[1], ps);
        Ok(Piece(p.text + isNull, p.params))
      else
        var p0 :- Emit(args[0], ps);
        var p1 :- Emit(args[1], p0.params);
        Ok(Piece(p0.text + (if m == SqlIsEqual then " = " else " <> ") + p1.text, p1.params))
    else if m.dbFunction.Some? then
      var functionName := if m.dbFunction.value == [] then m.name else m.dbFunction.value;
      var quoted :- QuoteName(functionName);
      var each :- EmitEach(args, 0, ps, Weight(e));
      Ok(Piece(quoted + "(" + Join(each.texts, ",") + ")", each.params))
    else Err(NotSupportedMethod(m.name))
  }

  /** The texts of the expressions from index i on, each visited in turn. */
  function EmitEach(xs: seq<Expr>, i: nat, ps: seq<DbParam>, ghost bound: nat): (r: Result<Pieces, GenError>)
    requires i <= |xs|
    requires forall k :: 0 <= k < |xs| ==> Weight(xs[k]) < bound
    ensures r.Ok? ==> |r.value.texts| == |xs| - i
    decreases bound, 0, |xs| - i
  {
    if i == |xs| then Ok(Pieces([], ps))
    else
      var p :- Emit(xs[i], ps);
      var rest :- EmitEach(xs, i + 1, p.params, bound);
      Ok(Pieces([p.text] + rest.texts, rest.params))
  }

  /** ConcatOperands: the operands in parentheses with the connector between them. */
  function ConcatOperands(ops: seq<Expr>, connector: string, ps: seq<DbParam>, ghost bound: nat): (r: Result<Piece, GenError>)
    requires forall k :: 0 <= k < |ops| ==> Weight(ops[k]) < bound
    decreases bound, 1, 0
  {
    var each :- EmitEach(ops, 0, ps, bound);
    Ok(Piece("(" + Join(each.texts, connector) + ")", each.params))
  }

  /* ---------------------------------------------------------------- queries */

  /** AppendColumnSegment and AppendTableSegment: the body, then AS and the quoted alias. */
  function EmitSegment(body: Expr, alias: string, ps: seq<DbParam>): (r: Result<Piece, GenError>)
    decreases Weight(body), 3, 0
  {
    var b :- Emit(body, ps);
    var a :- QuoteName(alias);
    Ok(Piece(b.text + " AS " + a, b.params))
  }

  function EmitColumns(cols: seq<ColumnSegment>, i: nat, ps: seq<DbParam>, ghost bound: nat): (r: Result<Pieces, GenError>)
    requires i <= |cols|
    requires forall k :: 0 <= k < |cols| ==> Weight(cols[k].body) < bound
    ensures r.Ok? ==> |r.value.texts| == |cols| - i
    decreases bound, 0, |cols| - i
  {
    if i == |cols| then Ok(Pieces([], ps))
    else
      var p :- EmitSegment(cols[i].body, cols[i].alias, ps);
      var rest :- EmitColumns(cols, i + 1, p.params, bound);
      Ok(Pieces([p.text] + rest.texts, rest.params))
  }

  /** BuildWhereState: WHERE and the condition, only when there is a condition. */
  function EmitWhere(condition: Option<Expr>, ps: seq<DbParam>): (r: Result<Piece, GenError>)
    ensures condition.None? ==> r == Ok(Piece("", ps))
    decreases OptWeight(condition), 3, 0
  {
    if condition.None? then Ok(Piece("", ps))
    else
      var p :- Emit(condition.value, ps);
      Ok(Piece(" WHERE " + p.text, p.params))
  }

  /** BuildGroupState: nothing without group segments; otherwise GROUP BY the segments,
      then HAVING and the condition when there is one. */
  function EmitGroup(segments: seq<Expr>, having: Option<Expr>, ps: seq<DbParam>, ghost bound: nat): (r: Result<Piece, GenError>)
    requires forall k :: 0 <= k < |segments| ==> Weight(segments[k]) < bound
    requires OptWeight(having) < bound
    ensures segments == [] ==> r == Ok(Piece("", ps))
    decreases bound, 1, 0
  {
    if segments == [] then Ok(Piece("", ps))
    else
      var each :- EmitEach(segments, 0, ps, bound);
      var groupBy := " GROUP BY " + Join(each.texts, ",");
      if having.None? then Ok(Piece(groupBy, each.params))
      else
        var h :- Emit(having.value, each.params);
        Ok(Piece(groupBy + " HAVING " + h.text, h.params))
  }

  /** AppendOrdering: the expression then ASC or DESC; any other order type throws. */
  function EmitOrdering(o: Ordering, ps: seq<DbParam>): (r: Result<Piece, GenError>)
    ensures o.orderType.OtherOrderType? ==> r == Err(UnsupportedOrderType(o.orderType.code))
    decreases Weight(o.expr), 3, 0
  {
    match o.orderType
    case Asc =>
      var p :- Emit(o.expr, ps);
      Ok(Piece(p.text + " ASC", p.params))
    case Desc =>
      var p :- Emit(o.expr, ps);
      Ok(Piece(p.text + " DESC", p.params))
    case OtherOrderType(code) => Err(UnsupportedOrderType(code))
  }

  function EmitOrderings(os: seq<Ordering>, i: nat, ps: seq<DbParam>, ghost bound: nat): (r: Result<Pieces, GenError>)
    requires i <= |os|
    requires forall k :: 0 <= k < |os| ==> Weight(os[k].expr) < bound
    ensures r.Ok? ==> |r.value.texts| == |os| - i
    decreases bound, 0, |os| - i
  {
    if i == |os| then Ok(Pieces([], ps))
    else
      var p :- EmitOrdering(os[i], ps);
      var rest :- EmitOrderings(os, i + 1, p.params, bound);
      Ok(Pieces([p.text] + rest.texts, rest.params))
  }

  /** BuildOrderState and ConcatOrderings: ORDER BY the orderings, only when there are some. */
  function EmitOrder(os: seq<Ordering>, ps: seq<DbParam>, ghost bound: nat): (r: Result<Piece, GenError>)
    requires forall k :: 0 <= k < |os| ==> Weight(os[k].expr) < bound
    ensures os == [] ==> r == Ok(Piece("", ps))
    decreases bound, 1, 0
  {
    if os == [] then Ok(Piece("", ps))
    else
      var each :- EmitOrderings(os, 0, ps, bound);
      Ok(Piece(" ORDER BY " + Join(each.texts, ","), each.params))
  }

  /** The LIMIT/OFFSET tail of BuildGeneralSql. */
  function LimitClause(skip: Option<int>, take: Option<int>): string {
    if skip.None? && take.None? then ""
    else " LIMIT " + IntToString(take.GetOr(LongMaxValue)) + " OFFSET " + IntToString(skip.GetOr(0))
  }

  /** BuildGeneralSql. */
  function EmitQuery(q: SqlQuery, ps: seq<DbParam>): (r: Result<Piece, GenError>)
    decreases QueryWeight(q), 2, 0
  {
    var cols :- EmitColumns(q.columns, 0, ps, QueryWeight(q));
    var table :- EmitSegment(q.table.body, q.table.alias, cols.params);
    var where :- EmitWhere(q.condition, table.params);
    var group :- EmitGroup(q.groupSegments, q.havingCondition, where.params, QueryWeight(q));
    var order :- EmitOrder(q.orderings, group.params, QueryWeight(q));
    Ok(Piece(
      "SELECT " + (if q.isDistinct then "DISTINCT " else "") + Join(cols.texts, ",")
      + " FROM " + table.text + where.text + group.text + order.text
      + LimitClause(q.skipCount, q.takeCount),
      order.params))
  }
}
