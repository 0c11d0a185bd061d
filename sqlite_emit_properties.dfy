/**
  Properties of what the SQLite SQL generator emits. Visiting never removes or
  renames a parameter: it only appends, and appends only parameters that keep
  the collection well formed (named by position, no two with the same value,
  type and DbType). On top of that, the text of every expression the model
  renders starts with a character other than D, so a query starts with
  SELECT DISTINCT exactly when it is distinct. The DateTime members, whose
  texts begin with DATE or DATETIME, are not rendered by this model.
*/
module SqliteEmitProperties {
  import opened Wrappers
  import opened DbExpressions
  import opened SqliteNullRewrite
  import opened SqliteEmit

  /* ---------------------------------------------------------------- the collection only grows */

  /** Visiting an expression only appends to the parameter collection and keeps it well formed. */
  lemma {:induction false} EmitGrows(e: Expr, ps: seq<DbParam>)
    ensures var r := Emit(e, ps); r.Ok? ==> Grows(ps, r.value.params)
    decreases Weight(e), 2, 0
  {
    match e
    case Constant(_, _) =>
    case Parameter(_, _, _) =>
    case Member(_, _, _) => MemberGrows(e, ps);
    case Coalesce(_, _, _) => CoalesceGrows(e, ps);
    case MethodCall(_, _, _, _) => MethodCallGrows(e, ps);
    case Equal(l, r) => EmitGrows(RewriteEqual(l, r), ps);
    case NotEqual(l, r) => EmitGrows(RewriteNotEqual(l, r), ps);
    case And(_, _) => EachGrows(Gather(e), 0, ps, Weight(e));
    case Or(_, _) => EachGrows(Gather(e), 0, ps, Weight(e));
    case Not(o) => EmitGrows(o, ps);
    case ColumnAccess(_, _, _) =>
    case Table(_) =>
    case SubQuery(q, _) => QueryGrows(q, ps);
  }

  lemma {:induction false} MemberGrows(e: Expr, ps: seq<DbParam>)
    requires e.Member?
    ensures var r := EmitMember(e, ps); r.Ok? ==> Grows(ps, r.value.params)
    decreases Weight(e), 1, 0
  {
    if e.instance.Some? {
      assert OptWeight(e.instance) == Weight(e.instance.value);
      EmitGrows(e.instance.value, ps);
    }
  }

  lemma {:induction false} CoalesceGrows(e: Expr, ps: seq<DbParam>)
    requires e.Coalesce?
    ensures var r := EmitCoalesce(e, ps); r.Ok? ==> Grows(ps, r.value.params)
    decreases Weight(e), 1, 0
  {
    EmitGrows(e.check, ps);
    var pc := Emit(e.check, ps);
    if pc.Ok? {
      EmitGrows(e.replacement, pc.value.params);
      var pr := Emit(e.replacement, pc.value.params);
      if pr.Ok? {
        GrowsTrans(ps, pc.value.params, pr.value.params);
      }
    }
  }

  lemma {:induction false} MethodCallGrows(e: Expr, ps: seq<DbParam>)
    requires e.MethodCall?
    ensures var r := EmitMethodCall(e, ps); r.Ok? ==> Grows(ps, r.value.params)
    decreases Weight(e), 1, 0
  {
    var m := e.callee;
    var args := e.args;
    if (m == SqlIsEqual || m == SqlIsNotEqual) && |args| == 2 {
      EmitGrows(args[0], ps);
      EmitGrows(args[1], ps);
      var p0 := Emit(args[0], ps);
      if p0.Ok? {
        EmitGrows(args[1], p0.value.params);
        var p1 := Emit(args[1], p0.value.params);
        if p1.Ok? {
          GrowsTrans(ps, p0.value.params, p1.value.params);
        }
      }
    } else if m.dbFunction.Some? {
      EachGrows(args, 0, ps, Weight(e));
    }
  }

  lemma {:induction false} EachGrows(xs: seq<Expr>, i: nat, ps: seq<DbParam>, bound: nat)
    requires i <= |xs|
    requires forall k :: 0 <= k < |xs| ==> Weight(xs[k]) < bound
    ensures var r := EmitEach(xs, i, ps, bound); r.Ok? ==> Grows(ps, r.value.params)
    decreases bound, 0, |xs| - i
  {
    if i < |xs| {
      EmitGrows(xs[i], ps);
      var p := Emit(xs[i], ps);
      if p.Ok? {
        EachGrows(xs, i + 1, p.value.params, bound);
        var rest := EmitEach(xs, i + 1, p.value.params, bound);
        if rest.Ok? {
          GrowsTrans(ps, p.value.params, rest.value.params);
        }
      }
    }
  }

  lemma {:induction false} SegmentGrows(body: Expr, alias: string, ps: seq<DbParam>)
    ensures var r := EmitSegment(body, alias, ps); r.Ok? ==> Grows(ps, r.value.params)
    decreases Weight(body), 3, 0
  {
    EmitGrows(body, ps);
  }

  lemma {:induction false} ColumnsGrows(cols: seq<ColumnSegment>, i: nat, ps: seq<DbParam>, bound: nat)
    requires i <= |cols|
    requires forall k :: 0 <= k < |cols| ==> Weight(cols[k].body) < bound
    ensures var r := EmitColumns(cols, i, ps, bound); r.Ok? ==> Grows(ps, r.value.params)
    decreases bound, 0, |cols| - i
  {
    if i < |cols| {
      SegmentGrows(cols[i].body, cols[i].alias, ps);
      var p := EmitSegment(cols[i].body, cols[i].alias, ps);
      if p.Ok? {
        ColumnsGrows(cols, i + 1, p.value.params, bound);
        var rest := EmitColumns(cols, i + 1, p.value.params, bound);
        if rest.Ok? {
          GrowsTrans(ps, p.value.params, rest.value.params);
        }
      }
    }
  }

  lemma {:induction false} WhereGrows(condition: Option<Expr>, ps: seq<DbParam>)
    ensures var r := EmitWhere(condition, ps); r.Ok? ==> Grows(ps, r.value.params)
    decreases OptWeight(condition), 3, 0
  {
    if condition.Some? {
      EmitGrows(condition.value, ps);
    }
  }

  lemma {:induction false} GroupGrows(segments: seq<Expr>, having: Option<Expr>, ps: seq<DbParam>, bound: nat)
    requires forall k :: 0 <= k < |segments| ==> Weight(segments[k]) < bound
    requires OptWeight(having) < bound
    ensures var r := EmitGroup(segments, having, ps, bound); r.Ok? ==> Grows(ps, r.value.params)
    decreases bound, 1, 0
  {
    if segments != [] {
      EachGrows(segments, 0, ps, bound);
      var each := EmitEach(segments, 0, ps, bound);
      if each.Ok? && having.Some? {
        EmitGrows(having.value, each.value.params);
        var h := Emit(having.value, each.value.params);
        if h.Ok? {
          GrowsTrans(ps, each.value.params, h.value.params);
        }
      }
    }
  }

  lemma {:induction false} OrderingGrows(o: Ordering, ps: seq<DbParam>)
    ensures var r := EmitOrdering(o, ps); r.Ok? ==> Grows(ps, r.value.params)
    decreases Weight(o.expr), 3, 0
  {
    EmitGrows(o.expr, ps);
  }

  lemma {:induction false} OrderingsGrows(os: seq<Ordering>, i: nat, ps: seq<DbParam>, bound: nat)
    requires i <= |os|
    requires forall k :: 0 <= k < |os| ==> Weight(os[k].expr) < bound
    ensures var r := EmitOrderings(os, i, ps, bound); r.Ok? ==> Grows(ps, r.value.params)
    decreases bound, 0, |os| - i
  {
    if i < |os| {
      OrderingGrows(os[i], ps);
      var p := EmitOrdering(os[i], ps);
      if p.Ok? {
        OrderingsGrows(os, i + 1, p.value.params, bound);
        var rest := EmitOrderings(os, i + 1, p.value.params, bound);
        if rest.Ok? {
          GrowsTrans(ps, p.value.params, rest.value.params);
        }
      }
    }
  }

  /** Visiting a query (BuildGeneralSql) only appends to the collection and keeps it well formed. */
  lemma {:induction false} QueryGrows(q: SqlQuery, ps: seq<DbParam>)
    ensures var r := EmitQuery(q, ps); r.Ok? ==> Grows(ps, r.value.params)
    decreases QueryWeight(q), 2, 0
  {
    var bound := QueryWeight(q);
    ColumnsGrows(q.columns, 0, ps, bound);
    var cols := EmitColumns(q.columns, 0, ps, bound);
    if cols.Err? {
      return;
    }
    SegmentGrows(q.table.body, q.table.alias, cols.value.params);
    var table := EmitSegment(q.table.body, q.table.alias, cols.value.params);
    if table.Err? {
      return;
    }
    GrowsTrans(ps, cols.value.params, table.value.params);
    WhereGrows(q.condition, table.value.params);
    var where := EmitWhere(q.condition, table.value.params);
    if where.Err? {
      return;
    }
    GrowsTrans(ps, table.value.params, where.value.params);
    GroupGrows(q.groupSegments, q.havingCondition, where.value.params, bound);
    var group := EmitGroup(q.groupSegments, q.havingCondition, where.value.params, bound);
    if group.Err? {
      return;
    }
    GrowsTrans(ps, where.value.params, group.value.params);
    if q.orderings != [] {
      OrderingsGrows(q.orderings, 0, group.value.params, bound);
    }
    var order := EmitOrder(q.orderings, group.value.params, bound);
    if order.Ok? {
      GrowsTrans(ps, group.value.params, order.value.params);
    }
  }

  /* ---------------------------------------------------------------- properties of a whole query */

  /** A query generated from an empty parameter collection leaves a well-formed one: every
      parameter is named by its position, the names are all different, and no two
      parameters share a value, type and DbType. */
  lemma QueryParamsWellFormed(q: SqlQuery)
    ensures var r := EmitQuery(q, []);
      r.Ok? ==>
        && ParamsWellFormed(r.value.params)
        && (forall i, j :: 0 <= i < j < |r.value.params| ==> r.value.params[i].name != r.value.params[j].name)
  {
    QueryGrows(q, []);
    var r := EmitQuery(q, []);
    if r.Ok? {
      ParamNamesDistinct(r.value.params);
    }
  }

  /** Over a well-formed collection, no expression's text is empty or starts with D. This
      holds for the nodes the model renders; the DateTime member texts (DATETIME(...),
      DATE(...)) would begin with D and are not part of this model. */
  lemma {:induction false} EmitTextStart(e: Expr, ps: seq<DbParam>)
    requires ParamsWellFormed(ps)
    ensures var r := Emit(e, ps); r.Ok? ==> |r.value.text| > 0 && r.value.text[0] != 'D'
    decreases Weight(e)
  {
    match e {
      case Constant(v, _) =>
        if v.IntegerValue? {
          assert IntToString(v.n)[0] == '-' || '0' <= IntToString(v.n)[0] <= '9';
        } else if v.OtherValue? {
          ParameterTextStart(v, v.runtimeTy, None, ps);
        }
      case Parameter(v, ty, dbType) =>
        ParameterTextStart(v, ty, dbType, ps);
      case Member(m, inst, _) =>
        if inst.Some? {
          assert OptWeight(inst) == Weight(inst.value);
          EmitTextStart(inst.value, ps);
        }
        assert Emit(e, ps) == EmitMember(e, ps);
      case MethodCall(_, callee, args, _) =>
        if (callee == SqlIsEqual || callee == SqlIsNotEqual) && |args| == 2 {
          EmitTextStart(args[0], ps);
          EmitTextStart(args[1], ps);
        }
        assert Emit(e, ps) == EmitMethodCall(e, ps);
      case Equal(l, r) =>
        EmitTextStart(RewriteEqual(l, r), ps);
        assert Emit(e, ps) == EmitEqual(e, ps);
      case NotEqual(l, r) =>
        EmitTextStart(RewriteNotEqual(l, r), ps);
        assert Emit(e, ps) == EmitNotEqual(e, ps);
      case _ =>
    }
  }

  lemma ParameterTextStart(value: Value, ty: Ty, dbType: Option<DbType>, ps: seq<DbParam>)
    requires ParamsWellFormed(ps)
    ensures var t := EmitParameter(value, ty, dbType, ps).text; |t| > 0 && t[0] == '@'
  {
    var p := EmitParameter(value, ty, dbType, ps);
    var found := FindParam(p.params, ParamValue(value), ty.Underlying(), dbType, 0);
    assert p.text == ParamName(found.value);
  }

  lemma {:induction false} ColumnTextsStart(cols: seq<ColumnSegment>, i: nat, ps: seq<DbParam>, bound: nat)
    requires i <= |cols| && ParamsWellFormed(ps)
    requires forall k :: 0 <= k < |cols| ==> Weight(cols[k].body) < bound
    ensures var r := EmitColumns(cols, i, ps, bound);
      r.Ok? ==> forall k :: 0 <= k < |r.value.texts| ==> |r.value.texts[k]| > 0 && r.value.texts[k][0] != 'D'
    decreases |cols| - i
  {
    if i < |cols| {
      EmitTextStart(cols[i].body, ps);
      SegmentGrows(cols[i].body, cols[i].alias, ps);
      var p := EmitSegment(cols[i].body, cols[i].alias, ps);
      if p.Ok? {
        ColumnTextsStart(cols, i + 1, p.value.params, bound);
      }
    }
  }

  lemma {:induction false} JoinHead(texts: seq<string>, sep: string)
    requires |texts| > 0 && |texts[0]| > 0
    ensures |Join(texts, sep)| > 0 && Join(texts, sep)[0] == texts[0][0]
    decreases |texts|
  {
    if |texts| > 1 {
      var init := texts[..|texts| - 1];
      assert init[0] == texts[0];
      JoinHead(init, sep);
    }
  }

  /** The head of a SELECT statement: DISTINCT follows SELECT exactly when it was written,
      provided the column list does not itself start with D. */
  lemma SelectHead(distinct: bool, head: string, a: string, b: string, c: string, d: string, e: string)
    requires |head| > 0 ==> head[0] != 'D'
    ensures var t := "SELECT " + (if distinct then "DISTINCT " else "") + head + " FROM " + a + b + c + d + e;
      distinct <==> |t| >= 16 && t[..16] == "SELECT DISTINCT "
  {
    var t := "SELECT " + (if distinct then "DISTINCT " else "") + head + " FROM " + a + b + c + d + e;
    var u := "SELECT " + (if distinct then "DISTINCT " else "") + head + " FROM ";
    assert t[..|u|] == u;
    if distinct {
      assert u[..16] == "SELECT DISTINCT ";
    } else {
      assert "SELECT DISTINCT "[7] == 'D';
      if |head| > 0 {
        assert u[7] == head[0];
      } else {
        assert u[7] == ' ';
      }
    }
  }

  /** Over a well-formed collection, a generated query begins with SELECT DISTINCT exactly
      when the query is distinct. */
  lemma DistinctOnlyWhenFlagged(q: SqlQuery, ps: seq<DbParam>)
    requires ParamsWellFormed(ps)
    ensures var r := EmitQuery(q, ps);
      r.Ok? ==> (q.isDistinct <==> |r.value.text| >= 16 && r.value.text[..16] == "SELECT DISTINCT ")
  {
    var bound := QueryWeight(q);
    var cols := EmitColumns(q.columns, 0, ps, bound);
    if cols.Err? {
      return;
    }
    ColumnTextsStart(q.columns, 0, ps, bound);
    var head := Join(cols.value.texts, ",");
    if |cols.value.texts| > 0 {
      JoinHead(cols.value.texts, ",");
    }
    var table := EmitSegment(q.table.body, q.table.alias, cols.value.params);
    if table.Err? {
      return;
    }
    var where := EmitWhere(q.condition, table.value.params);
    if where.Err? {
      return;
    }
    var group := EmitGroup(q.groupSegments, q.havingCondition, where.value.params, bound);
    if group.Err? {
      return;
    }
    var order := EmitOrder(q.orderings, group.value.params, bound);
    if order.Err? {
      return;
    }
    SelectHead(q.isDistinct, head, table.value.text, where.value.text, group.value.text, order.value.text,
      LimitClause(q.skipCount, q.takeCount));
  }
}
