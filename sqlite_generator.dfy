/**
  The SQLite SQL generator: a visitor that appends SQL text to its builder
  (`sql`) and adds parameters to its parameter collection (`parameters`) as it
  walks a database expression. Every visit is proved to append exactly the
  text module SqliteEmit specifies for the node and to leave exactly the
  specified collection, or to fail with the specified exception.
*/
module SqliteGenerator {
  import opened Wrappers
  import opened DbExpressions
  import opened SqliteNullRewrite
  import opened SqliteEmit

  /* ---------------------------------------------------------------- proof helpers

     Concatenation and loop bookkeeping for the proofs of the class below: they have no
     counterpart in the generator itself. `Prepend`, the `*Step` and `*Done` lemmas carry a
     list walk's specification through the generator's first/index-flag loops, and the
     `Assoc*` lemmas re-associate string concatenation for the solver. */

  /** The outcome of a list walk after `texts` were already appended. */
  function Prepend(texts: seq<string>, r: Result<Pieces, GenError>): Result<Pieces, GenError> {
    match r
    case Ok(p) => Ok(Pieces(texts + p.texts, p.params))
    case Err(e) => Err(e)
  }

  /** Appending the next text of a walk to what the walk appended so far. */
  lemma JoinStep(prefix: string, texts: seq<string>, sep: string, mid: string, t: string)
    requires mid == if texts == [] then "" else sep
    ensures prefix + Join(texts, sep) + mid + t == prefix + Join(texts + [t], sep)
  {
    JoinSnoc(texts, t, sep);
  }

  lemma Assoc4(a: string, b: string, c: string, d: string)
    ensures a + b + c + d == a + (b + c + d)
  {
  }

  lemma Assoc5(a: string, b: string, c: string, d: string, e: string)
    ensures a + b + c + d + e == a + (b + c + d + e)
  {
  }

  lemma Assoc6(a: string, b: string, c: string, d: string, e: string, f: string)
    ensures a + b + c + d + e + f == a + (b + c + d + e + f)
  {
  }

  /** A walk over all the elements that appended `texts` ends with those texts. */
  lemma EachDone(xs: seq<Expr>, ps0: seq<DbParam>, ps: seq<DbParam>, bound: nat, texts: seq<string>)
    requires forall k :: 0 <= k < |xs| ==> Weight(xs[k]) < bound
    requires EmitEach(xs, 0, ps0, bound) == Prepend(texts, EmitEach(xs, |xs|, ps, bound))
    ensures EmitEach(xs, 0, ps0, bound) == Ok(Pieces(texts, ps))
  {
    assert texts + [] == texts;
  }

  lemma ColumnsDone(cols: seq<ColumnSegment>, ps0: seq<DbParam>, ps: seq<DbParam>, bound: nat, texts: seq<string>)
    requires forall k :: 0 <= k < |cols| ==> Weight(cols[k].body) < bound
    requires EmitColumns(cols, 0, ps0, bound) == Prepend(texts, EmitColumns(cols, |cols|, ps, bound))
    ensures EmitColumns(cols, 0, ps0, bound) == Ok(Pieces(texts, ps))
  {
    assert texts + [] == texts;
  }

  lemma OrderingsDone(os: seq<Ordering>, ps0: seq<DbParam>, ps: seq<DbParam>, bound: nat, texts: seq<string>)
    requires forall k :: 0 <= k < |os| ==> Weight(os[k].expr) < bound
    requires EmitOrderings(os, 0, ps0, bound) == Prepend(texts, EmitOrderings(os, |os|, ps, bound))
    ensures EmitOrderings(os, 0, ps0, bound) == Ok(Pieces(texts, ps))
  {
    assert texts + [] == texts;
  }

  lemma Assoc3(a: string, b: string, c: string)
    ensures a + b + c == a + (b + c)
  {
  }

  lemma PrependNothing(r: Result<Pieces, GenError>)
    ensures Prepend([], r) == r
  {
    if r.Ok? {
      assert [] + r.value.texts == r.value.texts;
    }
  }

  /** One step of a walk over expressions: a failing element fails the walk, a
      succeeding one moves its text to the texts already appended. */
  lemma EachStep(xs: seq<Expr>, i: nat, ps: seq<DbParam>, bound: nat, texts: seq<string>)
    requires i < |xs| && forall k :: 0 <= k < |xs| ==> Weight(xs[k]) < bound
    ensures var p := Emit(xs[i], ps);
      && (p.Err? ==> Prepend(texts, EmitEach(xs, i, ps, bound)) == Err(p.error))
      && (p.Ok? ==> Prepend(texts, EmitEach(xs, i, ps, bound))
                    == Prepend(texts + [p.value.text], EmitEach(xs, i + 1, p.value.params, bound)))
  {
    var p := Emit(xs[i], ps);
    if p.Ok? {
      var rest := EmitEach(xs, i + 1, p.value.params, bound);
      if rest.Ok? {
        assert texts + ([p.value.text] + rest.value.texts) == texts + [p.value.text] + rest.value.texts;
      }
    }
  }

  lemma ColumnsStep(cols: seq<ColumnSegment>, i: nat, ps: seq<DbParam>, bound: nat, texts: seq<string>)
    requires i < |cols| && forall k :: 0 <= k < |cols| ==> Weight(cols[k].body) < bound
    ensures var p := EmitSegment(cols[i].body, cols[i].alias, ps);
      && (p.Err? ==> Prepend(texts, EmitColumns(cols, i, ps, bound)) == Err(p.error))
      && (p.Ok? ==> Prepend(texts, EmitColumns(cols, i, ps, bound))
                    == Prepend(texts + [p.value.text], EmitColumns(cols, i + 1, p.value.params, bound)))
  {
    var p := EmitSegment(cols[i].body, cols[i].alias, ps);
    if p.Ok? {
      var rest := EmitColumns(cols, i + 1, p.value.params, bound);
      if rest.Ok? {
        assert texts + ([p.value.text] + rest.value.texts) == texts + [p.value.text] + rest.value.texts;
      }
    }
  }

  lemma OrderingsStep(os: seq<Ordering>, i: nat, ps: seq<DbParam>, bound: nat, texts: seq<string>)
    requires i < |os| && forall k :: 0 <= k < |os| ==> Weight(os[k].expr) < bound
    ensures var p := EmitOrdering(os[i], ps);
      && (p.Err? ==> Prepend(texts, EmitOrderings(os, i, ps, bound)) == Err(p.error))
      && (p.Ok? ==> Prepend(texts, EmitOrderings(os, i, ps, bound))
                    == Prepend(texts + [p.value.text], EmitOrderings(os, i + 1, p.value.params, bound)))
  {
    var p := EmitOrdering(os[i], ps);
    if p.Ok? {
      var rest := EmitOrderings(os, i + 1, p.value.params, bound);
      if rest.Ok? {
        assert texts + ([p.value.text] + rest.value.texts) == texts + [p.value.text] + rest.value.texts;
      }
    }
  }

  /* ---------------------------------------------------------------- the generator */

  class SqlGenerator {
    /** The SQL builder. */
    var sql: string
    /** The parameter collection. */
    var parameters: seq<DbParam>

    constructor()
      ensures sql == [] && parameters == []
    {
      sql := [];
      parameters := [];
    }

    /** The visit agrees with the specification `spec` of what it appends to `sql0`: on
        success the text was appended and the collection is the specified one; on failure
        the exception is the specified one. */
    ghost predicate Follows(spec: Result<Piece, GenError>, r: Outcome<GenError>, sql0: string)
      reads this
    {
      match spec
      case Ok(p) => r == Pass && sql == sql0 + p.text && parameters == p.params
      case Err(e) => r == Fail(e)
    }

    /** The walk agrees with the specification `spec` of a list: on success the texts were
        appended to `sql0` joined by `sep`, and the collection is the specified one. */
    ghost predicate FollowsAll(spec: Result<Pieces, GenError>, sep: string, r: Outcome<GenError>, sql0: string)
      reads this
    {
      match spec
      case Ok(p) => r == Pass && sql == sql0 + Join(p.texts, sep) && parameters == p.params
      case Err(e) => r == Fail(e)
    }

    /** QuoteName: ArgumentException for an empty name, else the name in brackets. */
    method QuoteName(name: string) returns (r: Outcome<GenError>)
      modifies this
      ensures parameters == old(parameters)
      ensures Follows(EmitName(name, parameters), r, old(sql))
    {
      if name == [] {
        return Fail(EmptyName);
      }
      sql := sql + "[" + name + "]";
      r := Pass;
    }

    /** Visit: the dispatch on the node kind. */
    method Visit(e: Expr) returns (r: Outcome<GenError>)
      modifies this
      ensures Follows(Emit(e, old(parameters)), r, old(sql))
      decreases Weight(e), 3, 0
    {
      match e
      case Constant(v, _) =>
        VisitConstant(v);
        r := Pass;
      case Parameter(v, ty, dbType) =>
        VisitParameter(v, ty, dbType);
        r := Pass;
      case Member(_, _, _) => r := VisitMember(e);
      case Coalesce(_, _, _) => r := VisitCoalesce(e);
      case MethodCall(_, _, _, _) => r := VisitMethodCall(e);
      case Equal(_, _) => r := VisitEqual(e);
      case NotEqual(_, _) => r := VisitNotEqual(e);
      case And(_, _) => r := VisitAnd(e);
      case Or(_, _) => r := VisitOr(e);
      case Not(_) => r := VisitNot(e);
      case ColumnAccess(_, _, _) => r := VisitColumnAccess(e);
      case Table(name) => r := QuoteName(name);
      case SubQuery(_, _) => r := VisitSubQuery(e);
    }

    /** Visit(DbEqualExpression): visits the NULL-aware rewrite of the comparison. */
    method VisitEqual(e: Expr) returns (r: Outcome<GenError>)
      requires e.Equal?
      modifies this
      ensures Follows(EmitEqual(e, old(parameters)), r, old(sql))
      decreases Weight(e), 2, 0
    {
      r := Visit(RewriteEqual(e.left, e.right));
    }

    /** Visit(DbNotEqualExpression): visits the NULL-aware rewrite of the comparison. */
    method VisitNotEqual(e: Expr) returns (r: Outcome<GenError>)
      requires e.NotEqual?
      modifies this
      ensures Follows(EmitNotEqual(e, old(parameters)), r, old(sql))
      decreases Weight(e), 2, 0
    {
      r := Visit(RewriteNotEqual(e.left, e.right));
    }

    method VisitNot(e: Expr) returns (r: Outcome<GenError>)
      requires e.Not?
      modifies this
      ensures Follows(EmitNot(e, old(parameters)), r, old(sql))
      decreases Weight(e), 2, 0
    {
      ghost var ps0 := parameters;
      ghost var sql0 := sql;
      sql := sql + "NOT ";
      sql := sql + "(";
      r := Visit(e.operand);
      if r.Fail? {
        return;
      }
      sql := sql + ")";
      Assoc5(sql0, "NOT ", "(", Emit(e.operand, ps0).value.text, ")");
    }

    method VisitAnd(e: Expr) returns (r: Outcome<GenError>)
      requires e.And?
      modifies this
      ensures Follows(Emit(e, old(parameters)), r, old(sql))
      decreases Weight(e), 2, 0
    {
      r := ConcatOperands(Gather(e), " AND ", Weight(e));
    }

    method VisitOr(e: Expr) returns (r: Outcome<GenError>)
      requires e.Or?
      modifies this
      ensures Follows(Emit(e, old(parameters)), r, old(sql))
      decreases Weight(e), 2, 0
    {
      r := ConcatOperands(Gather(e), " OR ", Weight(e));
    }

    /** ConcatOperands: the operands in parentheses, the connector between them. */
    method ConcatOperands(ops: seq<Expr>, connector: string, ghost bound: nat) returns (r: Outcome<GenError>)
      requires forall k :: 0 <= k < |ops| ==> Weight(ops[k]) < bound
      modifies this
      ensures Follows(SqliteEmit.ConcatOperands(ops, connector, old(parameters), bound), r, old(sql))
      decreases bound, 1, 1
    {
      ghost var ps0 := parameters;
      ghost var sql0 := sql;
      sql := sql + "(";
      r := VisitJoined(ops, connector, bound);
      if r.Fail? {
        return;
      }
      sql := sql + ")";
      Assoc4(sql0, "(", Join(EmitEach(ops, 0, ps0, bound).value.texts, connector), ")");
    }

    /** Visits the expressions in turn with the separator before every one but the first:
        the operand loop of ConcatOperands (separated by AND or OR), the argument loop of a
        DbFunction call and the GROUP BY loop of BuildGroupState (separated by commas). */
    method VisitJoined(xs: seq<Expr>, sep: string, ghost bound: nat) returns (r: Outcome<GenError>)
      requires forall k :: 0 <= k < |xs| ==> Weight(xs[k]) < bound
      modifies this
      ensures FollowsAll(EmitEach(xs, 0, old(parameters), bound), sep, r, old(sql))
      decreases bound, 1, 0
    {
      ghost var ps0 := parameters;
      ghost var sql1 := sql;
      ghost var texts: seq<string> := [];
      PrependNothing(EmitEach(xs, 0, ps0, bound));
      var first := true;
      var i := 0;
      while i < |xs|
        invariant 0 <= i <= |xs| && |texts| == i
        invariant first == (texts == [])
        invariant EmitEach(xs, 0, ps0, bound) == Prepend(texts, EmitEach(xs, i, parameters, bound))
        invariant sql == sql1 + Join(texts, sep)
      {
        if first {
          first := false;
        } else {
          sql := sql + sep;
        }
        ghost var t;
        r, t := AcceptElement(xs, i, bound, texts, sql1, sep);
        if r.Fail? {
          return;
        }
        texts := texts + [t];
        i := i + 1;
      }
      EachDone(xs, ps0, parameters, bound, texts);
      r := Pass;
    }

    /** operand.Accept(this) for the i-th element of a walk whose earlier texts, joined by
        `sep`, follow `sql1`, and whose separator is already appended: the element's text
        moves from the rest of the walk to `texts`. */
    method AcceptElement(xs: seq<Expr>, i: nat, ghost bound: nat, ghost texts: seq<string>, ghost sql1: string, ghost sep: string)
      returns (r: Outcome<GenError>, ghost t: string)
      requires i < |xs| && forall k :: 0 <= k < |xs| ==> Weight(xs[k]) < bound
      requires sql == sql1 + Join(texts, sep) + (if texts == [] then "" else sep)
      modifies this
      ensures r.Pass? ==>
        && sql == sql1 + Join(texts + [t], sep)
        && Prepend(texts, EmitEach(xs, i, old(parameters), bound)) == Prepend(texts + [t], EmitEach(xs, i + 1, parameters, bound))
      ensures r.Fail? ==> Prepend(texts, EmitEach(xs, i, old(parameters), bound)) == Err(r.error)
      decreases bound, 0, 0
    {
      ghost var ps := parameters;
      r := Visit(xs[i]);
      EachStep(xs, i, ps, bound, texts);
      t := if r.Pass? then Emit(xs[i], ps).value.text else "";
      if r.Pass? {
        JoinStep(sql1, texts, sep, if texts == [] then "" else sep, t);
      }
    }

    /** AppendColumnSegment for the i-th column, with the walk's bookkeeping. */
    method AppendColumnAt(cols: seq<ColumnSegment>, i: nat, ghost bound: nat, ghost texts: seq<string>, ghost sql1: string)
      returns (r: Outcome<GenError>, ghost t: string)
      requires i < |cols| && forall k :: 0 <= k < |cols| ==> Weight(cols[k].body) < bound
      requires sql == sql1 + Join(texts, ",") + (if texts == [] then "" else ",")
      modifies this
      ensures r.Pass? ==>
        && sql == sql1 + Join(texts + [t], ",")
        && Prepend(texts, EmitColumns(cols, i, old(parameters), bound)) == Prepend(texts + [t], EmitColumns(cols, i + 1, parameters, bound))
      ensures r.Fail? ==> Prepend(texts, EmitColumns(cols, i, old(parameters), bound)) == Err(r.error)
      decreases bound, 0, 0
    {
      ghost var ps := parameters;
      r := AppendSegment(cols[i].body, cols[i].alias);
      ColumnsStep(cols, i, ps, bound, texts);
      t := if r.Pass? then EmitSegment(cols[i].body, cols[i].alias, ps).value.text else "";
      if r.Pass? {
        JoinStep(sql1, texts, ",", if texts == [] then "" else ",", t);
      }
    }

    /** AppendOrdering for the i-th ordering, with the walk's bookkeeping. */
    method AppendOrderingAt(os: seq<Ordering>, i: nat, ghost bound: nat, ghost texts: seq<string>, ghost sql1: string)
      returns (r: Outcome<GenError>, ghost t: string)
      requires i < |os| && forall k :: 0 <= k < |os| ==> Weight(os[k].expr) < bound
      requires sql == sql1 + Join(texts, ",") + (if texts == [] then "" else ",")
      modifies this
      ensures r.Pass? ==>
        && sql == sql1 + Join(texts + [t], ",")
        && Prepend(texts, EmitOrderings(os, i, old(parameters), bound)) == Prepend(texts + [t], EmitOrderings(os, i + 1, parameters, bound))
      ensures r.Fail? ==> Prepend(texts, EmitOrderings(os, i, old(parameters), bound)) == Err(r.error)
      decreases bound, 0, 0
    {
      ghost var ps := parameters;
      r := AppendOrdering(os[i]);
      OrderingsStep(os, i, ps, bound, texts);
      t := if r.Pass? then EmitOrdering(os[i], ps).value.text else "";
      if r.Pass? {
        JoinStep(sql1, texts, ",", if texts == [] then "" else ",", t);
      }
    }

    method VisitCoalesce(e: Expr) returns (r: Outcome<GenError>)
      requires e.Coalesce?
      modifies this
      ensures Follows(EmitCoalesce(e, old(parameters)), r, old(sql))
      decreases Weight(e), 2, 0
    {
      ghost var ps0 := parameters;
      ghost var sql0 := sql;
      sql := sql + "IFNULL(";
      r := Visit(e.check);
      if r.Fail? {
        return;
      }
      ghost var check := Emit(e.check, ps0).value;
      sql := sql + ",";
      r := Visit(e.replacement);
      if r.Fail? {
        return;
      }
      sql := sql + ")";
      Assoc6(sql0, "IFNULL(", check.text, ",", Emit(e.replacement, check.params).value.text, ")");
    }

    /** Visit(DbMethodCallExpression): the Sql.IsEqual / Sql.IsNotEqual handlers, then a
        DbFunction call, else NotSupportedException. */
    method VisitMethodCall(e: Expr) returns (r: Outcome<GenError>)
      requires e.MethodCall?
      modifies this
      ensures Follows(EmitMethodCall(e, old(parameters)), r, old(sql))
      decreases Weight(e), 2, 0
    {
      var m := e.callee;
      if (m == SqlIsEqual || m == SqlIsNotEqual) && |e.args| == 2 {
        r := ProcessComparison(e);
        return;
      }
      if m.dbFunction.None? {
        return Fail(NotSupportedMethod(m.name));
      }
      r := VisitDbFunction(e);
    }

    /** The Sql.IsEqual / Sql.IsNotEqual handlers: IS NULL or IS NOT NULL against a side
        known to be null, otherwise = or <>. */
    method ProcessComparison(e: Expr) returns (r: Outcome<GenError>)
      requires e.MethodCall? && (e.callee == SqlIsEqual || e.callee == SqlIsNotEqual) && |e.args| == 2
      modifies this
      ensures Follows(EmitMethodCall(e, old(parameters)), r, old(sql))
      decreases Weight(e), 1, 0
    {
      ghost var ps0 := parameters;
      ghost var sql0 := sql;
      var args := e.args;
      var isNull := if e.callee == SqlIsEqual then " IS NULL" else " IS NOT NULL";
      if AffirmNull(args[1]) {
        r := Visit(args[0]);
        if r.Fail? {
          return;
        }
        sql := sql + isNull;
        Assoc3(sql0, Emit(args[0], ps0).value.text, isNull);
      } else if AffirmNull(args[0]) {
        r := Visit(args[1]);
        if r.Fail? {
          return;
        }
        sql := sql + isNull;
        Assoc3(sql0, Emit(args[1], ps0).value.text, isNull);
      } else {
        r := Visit(args[0]);
        if r.Fail? {
          return;
        }
        ghost var p0 := Emit(args[0], ps0).value;
        var op := if e.callee == SqlIsEqual then " = " else " <> ";
        sql := sql + op;
        r := Visit(args[1]);
        if r.Pass? {
          Assoc4(sql0, p0.text, op, Emit(args[1], p0.params).value.text);
        }
      }
    }

    /** A call of a method with a DbFunction attribute: the quoted function name, then the
        arguments in parentheses. */
    method VisitDbFunction(e: Expr) returns (r: Outcome<GenError>)
      requires e.MethodCall? && !((e.callee == SqlIsEqual || e.callee == SqlIsNotEqual) && |e.args| == 2)
      requires e.callee.dbFunction.Some?
      modifies this
      ensures Follows(EmitMethodCall(e, old(parameters)), r, old(sql))
      decreases Weight(e), 1, 1
    {
      ghost var ps0 := parameters;
      ghost var sql0 := sql;
      var m := e.callee;
      var functionName := if m.dbFunction.value == [] then m.name else m.dbFunction.value;
      r := QuoteName(functionName);
      if r.Fail? {
        return;
      }
      sql := sql + "(";
      r := VisitJoined(e.args, ",", Weight(e));
      if r.Fail? {
        return;
      }
      sql := sql + ")";
      ghost var each := EmitEach(e.args, 0, ps0, Weight(e)).value;
      Assoc5(sql0, SqliteEmit.QuoteName(functionName).value, "(", Join(each.texts, ","), ")");
    }

    /** Visit(DbMemberExpression) for string Length and Nullable Value. */
    method VisitMember(e: Expr) returns (r: Outcome<GenError>)
      requires e.Member?
      modifies this
      ensures Follows(EmitMember(e, old(parameters)), r, old(sql))
      decreases Weight(e), 2, 0
    {
      ghost var ps0 := parameters;
      ghost var sql0 := sql;
      var m := e.member;
      if m.name == "Length" && m.declaringType == StringTy && e.instance.Some? {
        assert OptWeight(e.instance) == Weight(e.instance.value);
        sql := sql + "LENGTH(";
        r := Visit(e.instance.value);
        if r.Fail? {
          return;
        }
        sql := sql + ")";
        ghost var p := Emit(e.instance.value, ps0).value;
        assert sql == sql0 + ("LENGTH(" + p.text + ")");
        assert EmitMember(e, ps0) == Ok(Piece("LENGTH(" + p.text + ")", p.params));
        return;
      }
      if m.name == "Value" && e.instance.Some? && TypeOf(e.instance.value).kind == NullableKind {
        assert OptWeight(e.instance) == Weight(e.instance.value);
        r := Visit(e.instance.value);
        assert EmitMember(e, ps0) == Emit(e.instance.value, ps0);
        return;
      }
      r := Fail(NotSupportedMember(m.name));
      assert EmitMember(e, ps0) == Err(NotSupportedMember(m.name));
    }

    /** Visit(DbConstantExpression). */
    method VisitConstant(value: Value)
      modifies this
      ensures var p := EmitConstant(value, old(parameters));
        sql == old(sql) + p.text && parameters == p.params
    {
      match value
      case NullValue => sql := sql + "NULL";
      case DbNullValue => sql := sql + "NULL";
      case BoolValue(b) => sql := sql + (if b then "1" else "0");
      case StringValue(s) => sql := sql + "'" + s + "'";
      case IntegerValue(n, _) => sql := sql + IntToString(n);
      case OtherValue(_, t) => VisitParameter(value, t, None);
    }

    /** Visit(DbParameterExpression): reuse the parameter Find returns, or add a new one
        named by the collection's count. */
    method VisitParameter(value: Value, ty: Ty, dbType: Option<DbType>)
      modifies this
      ensures var p := EmitParameter(value, ty, dbType, old(parameters));
        sql == old(sql) + p.text && parameters == p.params
    {
      var paramType := ty.Underlying();
      var paramValue := if value == NullValue then DbNullValue else value;
      var found := FindParam(parameters, paramValue, paramType, dbType, 0);
      if found.Some? {
        sql := sql + parameters[found.value].name;
        return;
      }
      var paramName := ParamName(|parameters|);
      var size: Option<int> := None;
      if paramValue.StringValue? {
        if dbType == Some(AnsiStringFixedLength) || dbType == Some(StringFixedLength) {
          size := Some(|paramValue.s|);
        } else if |paramValue.s| <= DefaultStringSize {
          size := Some(DefaultStringSize);
        }
      }
      parameters := parameters + [DbParam(paramName, paramValue, paramType, size, dbType)];
      sql := sql + paramName;
    }

    method VisitColumnAccess(e: Expr) returns (r: Outcome<GenError>)
      requires e.ColumnAccess?
      modifies this
      ensures Follows(EmitColumnAccess(e, old(parameters)), r, old(sql))
    {
      r := QuoteName(e.tableName);
      if r.Fail? {
        return;
      }
      sql := sql + ".";
      r := QuoteName(e.columnName);
    }

    method VisitSubQuery(e: Expr) returns (r: Outcome<GenError>)
      requires e.SubQuery?
      modifies this
      ensures Follows(EmitSubQuery(e, old(parameters)), r, old(sql))
      decreases Weight(e), 2, 0
    {
      ghost var ps0 := parameters;
      ghost var sql0 := sql;
      sql := sql + "(";
      r := BuildGeneralSql(e.query);
      if r.Fail? {
        return;
      }
      sql := sql + ")";
      Assoc4(sql0, "(", EmitQuery(e.query, ps0).value.text, ")");
    }

    /** AppendColumnSegment and AppendTableSegment. */
    method AppendSegment(body: Expr, alias: string) returns (r: Outcome<GenError>)
      modifies this
      ensures Follows(EmitSegment(body, alias, old(parameters)), r, old(sql))
      decreases Weight(body), 4, 0
    {
      ghost var ps0 := parameters;
      ghost var sql0 := sql;
      r := Visit(body);
      if r.Fail? {
        return;
      }
      sql := sql + " AS ";
      r := QuoteName(alias);
      if r.Pass? {
        Assoc4(sql0, Emit(body, ps0).value.text, " AS ", SqliteEmit.QuoteName(alias).value);
      }
    }

    method AppendOrdering(o: Ordering) returns (r: Outcome<GenError>)
      modifies this
      ensures Follows(EmitOrdering(o, old(parameters)), r, old(sql))
      decreases Weight(o.expr), 4, 0
    {
      if o.orderType == Asc {
        r := Visit(o.expr);
        if r.Fail? {
          return;
        }
        sql := sql + " ASC";
        return;
      } else if o.orderType == Desc {
        r := Visit(o.expr);
        if r.Fail? {
          return;
        }
        sql := sql + " DESC";
        return;
      }
      r := Fail(UnsupportedOrderType(o.orderType.code));
    }

    method BuildWhereState(condition: Option<Expr>) returns (r: Outcome<GenError>)
      modifies this
      ensures Follows(EmitWhere(condition, old(parameters)), r, old(sql))
      decreases OptWeight(condition), 4, 0
    {
      r := Pass;
      if condition.Some? {
        sql := sql + " WHERE ";
        r := Visit(condition.value);
      }
    }

    method BuildOrderState(os: seq<Ordering>, ghost bound: nat) returns (r: Outcome<GenError>)
      requires forall k :: 0 <= k < |os| ==> Weight(os[k].expr) < bound
      modifies this
      ensures Follows(EmitOrder(os, old(parameters), bound), r, old(sql))
      decreases bound, 1, 1
    {
      r := Pass;
      if |os| > 0 {
        sql := sql + " ORDER BY ";
        r := ConcatOrderings(os, bound);
      }
    }

    /** ConcatOrderings: the orderings with a comma before every one but the first. */
    method ConcatOrderings(os: seq<Ordering>, ghost bound: nat) returns (r: Outcome<GenError>)
      requires forall k :: 0 <= k < |os| ==> Weight(os[k].expr) < bound
      modifies this
      ensures FollowsAll(EmitOrderings(os, 0, old(parameters), bound), ",", r, old(sql))
      decreases bound, 1, 0
    {
      ghost var ps0 := parameters;
      ghost var sql1 := sql;
      ghost var texts: seq<string> := [];
      PrependNothing(EmitOrderings(os, 0, ps0, bound));
      var i := 0;
      while i < |os|
        invariant 0 <= i <= |os| && |texts| == i
        invariant EmitOrderings(os, 0, ps0, bound) == Prepend(texts, EmitOrderings(os, i, parameters, bound))
        invariant sql == sql1 + Join(texts, ",")
      {
        if i > 0 {
          sql := sql + ",";
        }
        ghost var t;
        r, t := AppendOrderingAt(os, i, bound, texts, sql1);
        if r.Fail? {
          return;
        }
        texts := texts + [t];
        i := i + 1;
      }
      OrderingsDone(os, ps0, parameters, bound, texts);
      r := Pass;
    }

    method BuildGroupState(segments: seq<Expr>, having: Option<Expr>, ghost bound: nat) returns (r: Outcome<GenError>)
      requires forall k :: 0 <= k < |segments| ==> Weight(segments[k]) < bound
      requires OptWeight(having) < bound
      modifies this
      ensures Follows(EmitGroup(segments, having, old(parameters), bound), r, old(sql))
      decreases bound, 1, 1
    {
      ghost var ps0 := parameters;
      ghost var sql0 := sql;
      r := Pass;
      if |segments| == 0 {
        return;
      }
      sql := sql + " GROUP BY ";
      r := VisitJoined(segments, ",", bound);
      if r.Fail? {
        return;
      }
      ghost var each := EmitEach(segments, 0, ps0, bound).value;
      Assoc3(sql0, " GROUP BY ", Join(each.texts, ","));
      if having.Some? {
        sql := sql + " HAVING ";
        r := Visit(having.value);
        if r.Pass? {
          Assoc5(sql0, " GROUP BY ", Join(each.texts, ","), " HAVING ", Emit(having.value, each.params).value.text);
        }
      }
    }

    /** The column loop of BuildGeneralSql: the columns with a comma before every one but
        the first. */
    method AppendColumns(columns: seq<ColumnSegment>, ghost bound: nat) returns (r: Outcome<GenError>)
      requires forall k :: 0 <= k < |columns| ==> Weight(columns[k].body) < bound
      modifies this
      ensures FollowsAll(EmitColumns(columns, 0, old(parameters), bound), ",", r, old(sql))
      decreases bound, 1, 0
    {
      ghost var ps0 := parameters;
      ghost var sql1 := sql;
      ghost var texts: seq<string> := [];
      PrependNothing(EmitColumns(columns, 0, ps0, bound));
      r := Pass;
      for i := 0 to |columns|
        invariant |texts| == i
        invariant EmitColumns(columns, 0, ps0, bound) == Prepend(texts, EmitColumns(columns, i, parameters, bound))
        invariant sql == sql1 + Join(texts, ",")
      {
        if i > 0 {
          sql := sql + ",";
        }
        ghost var t;
        r, t := AppendColumnAt(columns, i, bound, texts, sql1);
        if r.Fail? {
          return;
        }
        texts := texts + [t];
      }
      ColumnsDone(columns, ps0, parameters, bound, texts);
      r := Pass;
    }

    /** Visit(DbSqlQueryExpression), that is BuildGeneralSql. */
    method BuildGeneralSql(q: SqlQuery) returns (r: Outcome<GenError>)
      modifies this
      ensures Follows(EmitQuery(q, old(parameters)), r, old(sql))
      decreases QueryWeight(q), 2, 0
    {
      ghost var bound := QueryWeight(q);
      ghost var ps0 := parameters;
      ghost var sql0 := sql;
      sql := sql + "SELECT ";
      if q.isDistinct {
        sql := sql + "DISTINCT ";
      }
      ghost var head := "SELECT " + (if q.isDistinct then "DISTINCT " else "");
      assert sql == sql0 + head;
      r := AppendColumns(q.columns, bound);
      if r.Fail? {
        return;
      }
      ghost var cols := EmitColumns(q.columns, 0, ps0, bound).value;
      Assoc3(sql0, head, Join(cols.texts, ","));
      ghost var text := head + Join(cols.texts, ",");
      sql := sql + " FROM ";
      Assoc3(sql0, text, " FROM ");
      text := text + " FROM ";
      r := AppendSegment(q.table.body, q.table.alias);
      if r.Fail? {
        return;
      }
      ghost var table := EmitSegment(q.table.body, q.table.alias, cols.params).value;
      Assoc3(sql0, text, table.text);
      text := text + table.text;
      r := BuildWhereState(q.condition);
      if r.Fail? {
        return;
      }
      ghost var where := EmitWhere(q.condition, table.params).value;
      Assoc3(sql0, text, where.text);
      text := text + where.text;
      r := BuildGroupState(q.groupSegments, q.havingCondition, bound);
      if r.Fail? {
        return;
      }
      ghost var group := EmitGroup(q.groupSegments, q.havingCondition, where.params, bound).value;
      Assoc3(sql0, text, group.text);
      text := text + group.text;
      r := BuildOrderState(q.orderings, bound);
      if r.Fail? {
        return;
      }
      ghost var order := EmitOrder(q.orderings, group.params, bound).value;
      Assoc3(sql0, text, order.text);
      text := text + order.text;
      AppendLimit(q.skipCount, q.takeCount);
      Assoc3(sql0, text, LimitClause(q.skipCount, q.takeCount));
    }

    /** The LIMIT/OFFSET tail of BuildGeneralSql: nothing unless the query skips or takes;
        a query that only skips takes long.MaxValue rows. */
    method AppendLimit(skip: Option<int>, take: Option<int>)
      modifies this
      ensures sql == old(sql) + LimitClause(skip, take) && parameters == old(parameters)
    {
      if skip.None? && take.None? {
        return;
      }
      var skipCount := skip.GetOr(0);
      var takeCount := LongMaxValue;
      if take.Some? {
        takeCount := take.value;
      }
      sql := sql + " LIMIT " + IntToString(takeCount) + " OFFSET " + IntToString(skipCount);
    }
  }
}
