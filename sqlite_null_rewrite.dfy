/**
  The NULL-aware rewrite of `==` and `!=` in the SQLite SQL generator. C#
  equality treats two nulls as equal and a null and a value as different,
  while SQL's `=` and `<>` yield UNKNOWN as soon as one side is NULL. Before
  emitting a comparison, the generator rewrites it into a tree of
  `Sql.IsEqual` / `Sql.IsNotEqual` calls joined by AND and OR, adding
  `IS NULL` / `IS NOT NULL` tests where a side can be null.

  The comparison handlers render `Sql.IsEqual(x, y)` as `x IS NULL` when `y`
  is known to be null (and symmetrically), and as `x = y` otherwise;
  `Sql.IsNotEqual` likewise with `IS NOT NULL` and `<>`. `SqlTruth` gives the
  three-valued truth of such a tree in one row, and the lemmas prove that a row
  passes a WHERE on the rewrite exactly when the C# comparison holds.
*/
module SqliteNullRewrite {
  import opened Wrappers
  import opened DbExpressions

  /** DbExpression.Constant(null, type) */
  function NullOf(t: Ty): Expr {
    Constant(NullValue, t)
  }

  /** Sql.IsEqual(l, r) and Sql.IsNotEqual(l, r) as static method calls. */
  function IsEqualCall(l: Expr, r: Expr): Expr {
    MethodCall(None, SqlIsEqual, [l, r], BooleanTy)
  }

  function IsNotEqualCall(l: Expr, r: Expr): Expr {
    MethodCall(None, SqlIsNotEqual, [l, r], BooleanTy)
  }

  lemma CallWeight(m: MethodInfo, l: Expr, r: Expr)
    ensures Weight(MethodCall(None, m, [l, r], BooleanTy)) == 1 + Weight(l) + Weight(r)
  {
    assert [l, r][..1] == [l];
    assert [l][..0] == [];
    assert ArgsWeight([l]) == Weight(l);
    assert ArgsWeight([l, r]) == Weight(l) + Weight(r);
  }

  /** The equality needs no null handling when a side is a constant, a parameter or a
      subquery, or when a side's type cannot hold null. */
  predicate EqualIsPlain(l: Expr, r: Expr) {
    || IsConstantOrParameterNode(r) || IsConstantOrParameterNode(l)
    || r.SubQuery? || l.SubQuery?
    || !TypeOf(l).CanNull() || !TypeOf(r).CanNull()
  }

  /** Visit(DbEqualExpression): the tree the generator emits for `l == r`. */
  function RewriteEqual(l: Expr, r: Expr): (t: Expr)
    ensures Weight(t) < Weight(Equal(l, r))
  {
    CallWeight(SqlIsEqual, l, r);
    CallWeight(SqlIsEqual, l, NullOf(TypeOf(l)));
    CallWeight(SqlIsEqual, r, NullOf(TypeOf(r)));
    var leftEqualsRight := IsEqualCall(l, r);
    if EqualIsPlain(l, r) then leftEqualsRight
    else
      Or(leftEqualsRight, And(IsEqualCall(l, NullOf(TypeOf(l))), IsEqualCall(r, NullOf(TypeOf(r)))))
  }

  /** The trees RewriteNotEqual builds around a comparison `c` of `l` and `r` are lighter
      than the inequality they replace. */
  lemma NotEqualTreeWeights(c: Expr, l: Expr, r: Expr, n: Expr)
    requires Weight(c) == 1 + Weight(l) + Weight(r) && n.Constant?
    ensures Weight(Or(c, IsEqualCall(l, n))) < 4 * (Weight(l) + Weight(r)) + 16
    ensures Weight(Or(c, Or(And(IsEqualCall(l, n), IsNotEqualCall(r, n)), And(IsNotEqualCall(l, n), IsEqualCall(r, n)))))
      < 4 * (Weight(l) + Weight(r)) + 16
  {
    CallWeight(SqlIsEqual, l, n);
    CallWeight(SqlIsNotEqual, l, n);
    CallWeight(SqlIsEqual, r, n);
    CallWeight(SqlIsNotEqual, r, n);
    assert Weight(n) == 1;
    var a := And(IsEqualCall(l, n), IsNotEqualCall(r, n));
    var b := And(IsNotEqualCall(l, n), IsEqualCall(r, n));
    assert Weight(a) == 5 + Weight(l) + Weight(r);
    assert Weight(b) == 5 + Weight(l) + Weight(r);
  }

  /** Visit(DbNotEqualExpression): the tree the generator emits for `l0 != r0`. The plain
      inequality keeps the original operand order; a constant or parameter on the left
      is moved to the right for the null tests. */
  function RewriteNotEqual(l0: Expr, r0: Expr): (t: Expr)
    ensures Weight(t) < Weight(NotEqual(l0, r0))
  {
    var leftNotEqualsRight := IsNotEqualCall(l0, r0);
    CallWeight(SqlIsNotEqual, l0, r0);
    if AffirmNull(r0) || AffirmNull(l0) then leftNotEqualsRight
    else if r0.SubQuery? || l0.SubQuery? then leftNotEqualsRight
    else
      var swap := IsConstantOrParameterNode(l0);
      var l := if swap then r0 else l0;
      var r := if swap then l0 else r0;
      var n := NullOf(TypeOf(l));
      NotEqualTreeWeights(leftNotEqualsRight, l, r, n);
      if IsConstantOrParameterNode(r) then
        if !IsConstantOrParameterNode(l) then Or(leftNotEqualsRight, IsEqualCall(l, n))
        else leftNotEqualsRight
      else
        Or(leftNotEqualsRight, Or(And(IsEqualCall(l, n), IsNotEqualCall(r, n)), And(IsNotEqualCall(l, n), IsEqualCall(r, n))))
  }

  /** The value of an operand in one row: NULL or a value. */
  datatype SqlValue = SqlNull | SqlVal(v: Value)

  /** SQL's three truth values. */
  datatype Truth = True | False | Unknown

  /** The values the non-literal operands (columns, member accesses, calls) take in one row. */
  type Row = Expr -> SqlValue

  /** A constant or parameter has its own value; any other operand takes the row's value. */
  function ValueOf(row: Row, e: Expr): SqlValue {
    if IsConstantOrParameterNode(e) then
      if e.value.IsNull() then SqlNull else SqlVal(e.value)
    else row(e)
  }

  /** The row is consistent with the operand's type: a non-nullable operand is never NULL. */
  predicate Consistent(row: Row, e: Expr) {
    !TypeOf(e).CanNull() ==> ValueOf(row, e) != SqlNull
  }

  function AndTruth(a: Truth, b: Truth): Truth {
    if a == False || b == False then False
    else if a == True && b == True then True
    else Unknown
  }

  function OrTruth(a: Truth, b: Truth): Truth {
    if a == True || b == True then True
    else if a == False && b == False then False
    else Unknown
  }

  function NotTruth(a: Truth): Truth {
    match a
    case True => False
    case False => True
    case Unknown => Unknown
  }

  function IsNullTruth(v: SqlValue): Truth {
    if v == SqlNull then True else False
  }

  /** `x = y` (or `x <> y` when `negated`): UNKNOWN when a side is NULL. */
  function CompareTruth(x: SqlValue, y: SqlValue, negated: bool): Truth {
    if x == SqlNull || y == SqlNull then Unknown
    else if (x == y) != negated then True
    else False
  }

  /** The truth of a comparison call as its handler renders it. */
  function ComparisonTruth(row: Row, x: Expr, y: Expr, negated: bool): Truth {
    if AffirmNull(y) then
      (if negated then NotTruth(IsNullTruth(ValueOf(row, x))) else IsNullTruth(ValueOf(row, x)))
    else if AffirmNull(x) then
      (if negated then NotTruth(IsNullTruth(ValueOf(row, y))) else IsNullTruth(ValueOf(row, y)))
    else CompareTruth(ValueOf(row, x), ValueOf(row, y), negated)
  }

  /** The three-valued truth in one row of a tree of comparison calls joined by AND, OR and
      NOT; any other node is not a condition of this kind and counts as UNKNOWN. */
  function SqlTruth(row: Row, e: Expr): Truth {
    match e
    case And(a, b) => AndTruth(SqlTruth(row, a), SqlTruth(row, b))
    case Or(a, b) => OrTruth(SqlTruth(row, a), SqlTruth(row, b))
    case Not(a) => NotTruth(SqlTruth(row, a))
    case MethodCall(None, m, args, _) =>
      if |args| == 2 && m == SqlIsEqual then ComparisonTruth(row, args[0], args[1], false)
      else if |args| == 2 && m == SqlIsNotEqual then ComparisonTruth(row, args[0], args[1], true)
      else Unknown
    case _ => Unknown
  }

  /** C# equality of the two operands' values: null equals null. */
  predicate CsEqual(row: Row, l: Expr, r: Expr) {
    ValueOf(row, l) == ValueOf(row, r)
  }

  lemma CallTruths(row: Row, x: Expr, y: Expr)
    ensures SqlTruth(row, IsEqualCall(x, y)) == ComparisonTruth(row, x, y, false)
    ensures SqlTruth(row, IsNotEqualCall(x, y)) == ComparisonTruth(row, x, y, true)
  {
    assert [x, y][0] == x && [x, y][1] == y;
    assert SqlIsEqual != SqlIsNotEqual;
  }

  /** A row passes a WHERE on the rewritten `l == r` exactly when `l == r` holds in C#.
      Subquery operands are excluded: for them the generator deliberately emits the plain
      SQL comparison. */
  lemma RewriteEqualKeepsMeaning(row: Row, l: Expr, r: Expr)
    requires !l.SubQuery? && !r.SubQuery?
    requires Consistent(row, l) && Consistent(row, r)
    ensures SqlTruth(row, RewriteEqual(l, r)) == True <==> CsEqual(row, l, r)
  {
    CallTruths(row, l, r);
    CallTruths(row, l, NullOf(TypeOf(l)));
    CallTruths(row, r, NullOf(TypeOf(r)));
  }

  /** A row passes a WHERE on the rewritten `l != r` exactly when `l != r` holds in C#.
      Subquery operands are excluded, as above. */
  lemma RewriteNotEqualKeepsMeaning(row: Row, l: Expr, r: Expr)
    requires !l.SubQuery? && !r.SubQuery?
    ensures SqlTruth(row, RewriteNotEqual(l, r)) == True <==> !CsEqual(row, l, r)
  {
    CallTruths(row, l, r);
    var swap := IsConstantOrParameterNode(l);
    var a := if swap then r else l;
    var b := if swap then l else r;
    var n := NullOf(TypeOf(a));
    CallTruths(row, a, n);
    CallTruths(row, b, n);
    if !IsConstantOrParameterNode(l) && !IsConstantOrParameterNode(r) {
      GeneralNotEqualTruth(row, l, r);
    }
  }

  /** The truth of the general NOT-EQUAL rewrite: its null tests are exact, so it is the
      disjunction of the plain comparison with "exactly one side is NULL". */
  lemma GeneralNotEqualTruth(row: Row, l: Expr, r: Expr)
    requires !IsConstantOrParameterNode(l) && !IsConstantOrParameterNode(r)
    requires !l.SubQuery? && !r.SubQuery?
    ensures var vl, vr := ValueOf(row, l), ValueOf(row, r);
      SqlTruth(row, RewriteNotEqual(l, r)) ==
        OrTruth(CompareTruth(vl, vr, true),
                OrTruth(AndTruth(IsNullTruth(vl), NotTruth(IsNullTruth(vr))),
                        AndTruth(NotTruth(IsNullTruth(vl)), IsNullTruth(vr))))
  {
    var n := NullOf(TypeOf(l));
    CallTruths(row, l, r);
    CallTruths(row, l, n);
    CallTruths(row, r, n);
    var vl, vr := ValueOf(row, l), ValueOf(row, r);
    var a1 := And(IsEqualCall(l, n), IsNotEqualCall(r, n));
    var a2 := And(IsNotEqualCall(l, n), IsEqualCall(r, n));
    assert RewriteNotEqual(l, r) == Or(IsNotEqualCall(l, r), Or(a1, a2));
    assert SqlTruth(row, a1) == AndTruth(IsNullTruth(vl), NotTruth(IsNullTruth(vr)));
    assert SqlTruth(row, a2) == AndTruth(NotTruth(IsNullTruth(vl)), IsNullTruth(vr));
    assert SqlTruth(row, Or(a1, a2)) == OrTruth(SqlTruth(row, a1), SqlTruth(row, a2));
  }

  /** Negating the general equality rewrite is not C# inequality: when exactly one side is
      NULL the negation is UNKNOWN, so the row would be dropped. This is why inequality
      has its own rewrite instead of a negated equality. */
  lemma NegatedEqualLosesOneSidedNulls(row: Row, l: Expr, r: Expr)
    requires !EqualIsPlain(l, r)
    requires ValueOf(row, l) == SqlNull && ValueOf(row, r) != SqlNull
    ensures !CsEqual(row, l, r)
    ensures SqlTruth(row, Not(RewriteEqual(l, r))) == Unknown
  {
    var nl, nr := NullOf(TypeOf(l)), NullOf(TypeOf(r));
    CallTruths(row, l, r);
    CallTruths(row, l, nl);
    CallTruths(row, r, nr);
    var both := And(IsEqualCall(l, nl), IsEqualCall(r, nr));
    assert RewriteEqual(l, r) == Or(IsEqualCall(l, r), both);
    assert SqlTruth(row, both) == False;
    assert SqlTruth(row, Or(IsEqualCall(l, r), both)) == Unknown;
  }
}
