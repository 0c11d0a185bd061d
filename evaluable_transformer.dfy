/**
  The evaluable-expression transformer: a bottom-up rewrite of a database
  expression tree that computes, on the client, every member access, coalesce
  and method call whose operands are already known values, and replaces it by
  a parameter holding the computed value. Sub-trees the database can translate
  (registered members, methods with a handler that accepts the call, methods
  carrying a DbFunction attribute) are kept.

  Reflection and client-side evaluation are inputs: the set of translatable
  members, the `CanProcess` test of each registered method handler, and the
  `Evaluate` function.
*/
module EvaluableTransformer {
  import opened Wrappers
  import opened DbExpressions

  /** The transformer's configuration: ToTranslateMembers, the CanProcess test of each
      method handler by method name, and client-side evaluation of an expression. */
  datatype Env = Env(
    toTranslateMembers: set<MemberInfo>,
    methodHandlers: map<string, Expr -> bool>,
    evaluate: Expr -> Value)

  /** IsConstantOrParameter: the expression is present and is a Constant or a Parameter. */
  predicate IsConstantOrParameter(e: Option<Expr>) {
    e.Some? && IsConstantOrParameterNode(e.value)
  }

  /** The member-access form of CanTranslateToSql. */
  predicate CanTranslateMember(env: Env, e: Expr)
    requires e.Member?
  {
    e.member in env.toTranslateMembers
  }

  /** The method-call form of CanTranslateToSql: a handler is registered under the method
      name and its CanProcess accepts the call. */
  predicate CanTranslateCall(env: Env, e: Expr)
    requires e.MethodCall?
  {
    e.callee.name in env.methodHandlers && env.methodHandlers[e.callee.name](e)
  }

  /** DbExpression.Parameter(value, type): a parameter without an explicit DbType. */
  function ParameterOf(value: Value, ty: Ty): Expr {
    Parameter(value, ty, None)
  }

  /** The rewrite. Member access, coalesce, method call and parameter follow the
      transformer's own Visit overloads; the connective and comparison nodes are rebuilt
      from their transformed operands, and the remaining nodes are left as they are. */
  function Transform(env: Env, e: Expr): Expr {
    match e
    case Member(m, inst, ty) =>
      var e1 := if inst.Some? then Member(m, Some(Transform(env, inst.value)), ty) else e;
      if e1.instance.Some? && !IsConstantOrParameterNode(e1.instance.value) then e1
      else if CanTranslateMember(env, e1) then e1
      else ParameterOf(env.evaluate(e1), ty)
    case Coalesce(c, rp, ty) =>
      var e1 := Coalesce(Transform(env, c), Transform(env, rp), ty);
      if IsConstantOrParameterNode(e1.check) && IsConstantOrParameterNode(e1.replacement) then
        ParameterOf(env.evaluate(e1), ty)
      else e1
    case MethodCall(obj, m, args, ty) =>
      var args1 := seq(|args|, i requires 0 <= i < |args| => Transform(env, args[i]));
      var obj1 := if obj.Some? then Some(Transform(env, obj.value)) else None;
      var e1 := MethodCall(obj1, m, args1, ty);
      if obj1.Some? && !IsConstantOrParameterNode(obj1.value) then e1
      else if exists i :: 0 <= i < |args1| && !IsConstantOrParameterNode(args1[i]) then e1
      else if CanTranslateCall(env, e1) then e1
      else if m.dbFunction.Some? then e1
      else ParameterOf(env.evaluate(e1), ty)
    case Parameter(_, _, _) => e
    case Equal(l, r) => Equal(Transform(env, l), Transform(env, r))
    case NotEqual(l, r) => NotEqual(Transform(env, l), Transform(env, r))
    case And(l, r) => And(Transform(env, l), Transform(env, r))
    case Or(l, r) => Or(Transform(env, l), Transform(env, r))
    case Not(o) => Not(Transform(env, o))
    case Constant(_, _) => e
    case ColumnAccess(_, _, _) => e
    case Table(_) => e
    case SubQuery(_, _) => e
  }

  /** No sub-tree is left that the transformer would still compute: every member access,
      coalesce and method call whose operands are known values is translatable. This is
      the transformer's purpose stated without its algorithm. */
  predicate NoEvaluable(env: Env, e: Expr) {
    match e
    case Member(m, inst, _) =>
      && (inst.Some? ==> NoEvaluable(env, inst.value))
      && (inst.None? || IsConstantOrParameterNode(inst.value) ==> m in env.toTranslateMembers)
    case Coalesce(c, rp, _) =>
      NoEvaluable(env, c) && NoEvaluable(env, rp)
      && !(IsConstantOrParameterNode(c) && IsConstantOrParameterNode(rp))
    case MethodCall(obj, m, args, _) =>
      && (obj.Some? ==> NoEvaluable(env, obj.value))
      && (forall i :: 0 <= i < |args| ==> NoEvaluable(env, args[i]))
      && ((obj.None? || IsConstantOrParameterNode(obj.value))
          && (forall i :: 0 <= i < |args| ==> IsConstantOrParameterNode(args[i]))
          ==> CanTranslateCall(env, e) || m.dbFunction.Some?)
    case Equal(l, r) => NoEvaluable(env, l) && NoEvaluable(env, r)
    case NotEqual(l, r) => NoEvaluable(env, l) && NoEvaluable(env, r)
    case And(l, r) => NoEvaluable(env, l) && NoEvaluable(env, r)
    case Or(l, r) => NoEvaluable(env, l) && NoEvaluable(env, r)
    case Not(o) => NoEvaluable(env, o)
    case Constant(_, _) => true
    case Parameter(_, _, _) => true
    case ColumnAccess(_, _, _) => true
    case Table(_) => true
    case SubQuery(_, _) => true
  }

  /** The result of the transformer has no evaluable sub-tree left. */
  lemma {:induction false} TransformLeavesNoEvaluable(env: Env, e: Expr)
    ensures NoEvaluable(env, Transform(env, e))
  {
    match e
    case Member(m, inst, ty) =>
      if inst.Some? {
        TransformLeavesNoEvaluable(env, inst.value);
      }
    case Coalesce(c, rp, ty) =>
      TransformLeavesNoEvaluable(env, c);
      TransformLeavesNoEvaluable(env, rp);
    case MethodCall(obj, m, args, ty) =>
      if obj.Some? {
        TransformLeavesNoEvaluable(env, obj.value);
      }
      forall i | 0 <= i < |args| ensures NoEvaluable(env, Transform(env, args[i])) {
        TransformLeavesNoEvaluable(env, args[i]);
      }
    case Equal(l, r) =>
      TransformLeavesNoEvaluable(env, l);
      TransformLeavesNoEvaluable(env, r);
    case NotEqual(l, r) =>
      TransformLeavesNoEvaluable(env, l);
      TransformLeavesNoEvaluable(env, r);
    case And(l, r) =>
      TransformLeavesNoEvaluable(env, l);
      TransformLeavesNoEvaluable(env, r);
    case Or(l, r) =>
      TransformLeavesNoEvaluable(env, l);
      TransformLeavesNoEvaluable(env, r);
    case Not(o) =>
      TransformLeavesNoEvaluable(env, o);
    case Constant(_, _) =>
    case Parameter(_, _, _) =>
    case ColumnAccess(_, _, _) =>
    case Table(_) =>
    case SubQuery(_, _) =>
  }

  /** A tree with no evaluable sub-tree is returned unchanged. */
  lemma {:induction false} TransformFixesNoEvaluable(env: Env, e: Expr)
    requires NoEvaluable(env, e)
    ensures Transform(env, e) == e
  {
    match e
    case Member(m, inst, ty) =>
      if inst.Some? {
        TransformFixesNoEvaluable(env, inst.value);
      }
    case Coalesce(c, rp, ty) =>
      TransformFixesNoEvaluable(env, c);
      TransformFixesNoEvaluable(env, rp);
    case MethodCall(obj, m, args, ty) =>
      if obj.Some? {
        TransformFixesNoEvaluable(env, obj.value);
      }
      forall i | 0 <= i < |args| ensures Transform(env, args[i]) == args[i] {
        TransformFixesNoEvaluable(env, args[i]);
      }
      var args1 := seq(|args|, i requires 0 <= i < |args| => Transform(env, args[i]));
      assert args1 == args;
    case Equal(l, r) =>
      TransformFixesNoEvaluable(env, l);
      TransformFixesNoEvaluable(env, r);
    case NotEqual(l, r) =>
      TransformFixesNoEvaluable(env, l);
      TransformFixesNoEvaluable(env, r);
    case And(l, r) =>
      TransformFixesNoEvaluable(env, l);
      TransformFixesNoEvaluable(env, r);
    case Or(l, r) =>
      TransformFixesNoEvaluable(env, l);
      TransformFixesNoEvaluable(env, r);
    case Not(o) =>
      TransformFixesNoEvaluable(env, o);
    case Constant(_, _) =>
    case Parameter(_, _, _) =>
    case ColumnAccess(_, _, _) =>
    case Table(_) =>
    case SubQuery(_, _) =>
  }

  /** Transforming twice is transforming once. */
  lemma TransformIdempotent(env: Env, e: Expr)
    ensures Transform(env, Transform(env, e)) == Transform(env, e)
  {
    TransformLeavesNoEvaluable(env, e);
    TransformFixesNoEvaluable(env, Transform(env, e));
  }

  /* The lemmas below spell out, one node kind at a time, the rule `Transform` applies and
     the type it keeps. They follow from its definition by unfolding; the transformer's
     properties proper are `TransformLeavesNoEvaluable`, `TransformFixesNoEvaluable` and
     `TransformIdempotent`. */

  /** The transformer never changes the type of an expression, and a node it computes
      becomes a parameter of that same type. */
  lemma TransformKeepsType(env: Env, e: Expr)
    ensures TypeOf(Transform(env, e)) == TypeOf(e)
    ensures Transform(env, e).Parameter? && !e.Parameter? ==>
      Transform(env, e).dbType.None? && (e.Member? || e.Coalesce? || e.MethodCall?)
  {
  }

  /** Parameter nodes are returned unchanged. */
  lemma ParameterUnchanged(env: Env, v: Value, ty: Ty, dbType: Option<DbType>)
    ensures Transform(env, Parameter(v, ty, dbType)) == Parameter(v, ty, dbType)
  {
  }

  /** Member access: over a receiver that does not transform to a known value it stays a
      member access over the transformed receiver; otherwise it is kept exactly when the
      member is translatable, and becomes the evaluated parameter of the same type. */
  lemma MemberRule(env: Env, m: MemberInfo, inst: Option<Expr>, ty: Ty)
    ensures var inst1 := if inst.Some? then Some(Transform(env, inst.value)) else None;
      var r := Transform(env, Member(m, inst, ty));
      && (inst1.Some? && !IsConstantOrParameter(inst1) ==> r == Member(m, inst1, ty))
      && (!(inst1.Some? && !IsConstantOrParameter(inst1)) ==>
            (m in env.toTranslateMembers <==> r.Member?)
            && (r.Member? ==> r == Member(m, inst1, ty))
            && (r.Parameter? ==> r == ParameterOf(env.evaluate(Member(m, inst1, ty)), ty)))
  {
  }

  /** Coalesce becomes a parameter exactly when both transformed operands are known values. */
  lemma CoalesceRule(env: Env, c: Expr, rp: Expr, ty: Ty)
    ensures var c1, rp1 := Transform(env, c), Transform(env, rp);
      var r := Transform(env, Coalesce(c, rp, ty));
      && (IsConstantOrParameterNode(c1) && IsConstantOrParameterNode(rp1) <==> r.Parameter?)
      && (!r.Parameter? ==> r == Coalesce(c1, rp1, ty))
  {
  }

  /** A method call is rebuilt with its arguments transformed in the same order and
      number, and is computed to a parameter exactly when its object (if any) and all its
      arguments are known values, it is not translatable and it has no DbFunction. */
  lemma MethodCallRule(env: Env, obj: Option<Expr>, m: MethodInfo, args: seq<Expr>, ty: Ty)
    ensures var r := Transform(env, MethodCall(obj, m, args, ty));
      var obj1 := if obj.Some? then Some(Transform(env, obj.value)) else None;
      var call := MethodCall(obj1, m, seq(|args|, i requires 0 <= i < |args| => Transform(env, args[i])), ty);
      && (r.MethodCall? || r.Parameter?)
      && (r.MethodCall? ==>
            && r == call && |r.args| == |args|
            && forall i :: 0 <= i < |args| ==> r.args[i] == Transform(env, args[i]))
      && (r.Parameter? <==>
            && (obj1.None? || IsConstantOrParameterNode(obj1.value))
            && (forall i :: 0 <= i < |args| ==> IsConstantOrParameterNode(call.args[i]))
            && !CanTranslateCall(env, call)
            && m.dbFunction.None?)
  {
  }
}
