/** expr_join_or and expr_join_and (scripts/config/expr.c): rewriting two operands of one level
    of || or && into a single operand, and when that keeps the value. */
module Joins {
  import opened Expressions

  /** The symbol a join looks at: that of a symbol, comparison with = or !=, or a negation. The
      first operand may also be a negated comparison. */
  function HeadSymbol(e: Expr, first: bool): Option<Symbol> {
    match e
    case Sym(s) => Some(s)
    case Compare(rel, l, _) => if rel == Eq || rel == Ne then Some(l) else None
    case Not(Sym(s)) => Some(s)
    case Not(Compare(rel, l, _)) => if first && (rel == Eq || rel == Ne) then Some(l) else None
    case _ => None
  }

  predicate Tests(e: Expr, rel: Rel, rhs: Symbol) { e.Compare? && e.rel == rel && e.rhs == rhs }

  /** Both compare with 'rel', one to 'a' and the other to 'b', in either order. */
  predicate TestsPair(e1: Expr, e2: Expr, rel: Rel, a: Symbol, b: Symbol) {
    (Tests(e1, rel, a) && Tests(e2, rel, b)) || (Tests(e1, rel, b) && Tests(e2, rel, a))
  }

  /** One is a bare symbol and the other a comparison, in either order. */
  predicate SymAndTest(e1: Expr, e2: Expr, rel: Rel, rhs: Symbol) {
    (e1.Sym? && Tests(e2, rel, rhs)) || (e2.Sym? && Tests(e1, rel, rhs))
  }

  function JoinOr(t: SymbolTable, e1: Expr, e2: Expr): Option<Expr> {
    if ExprEq(e1, e2) then Some(e1) else
    var h1, h2 := HeadSymbol(e1, true), HeadSymbol(e2, false);
    if h1.None? || h2.None? || h1 != h2 then None else
    var a := h1.value;
    if TypeOf(t, a) == Tristates then
      if TestsPair(e1, e2, Eq, SymYes, SymMod) then Some(Compare(Ne, a, SymNo))
      else if TestsPair(e1, e2, Eq, SymYes, SymNo) then Some(Compare(Ne, a, SymMod))
      else if TestsPair(e1, e2, Eq, SymMod, SymNo) then Some(Compare(Ne, a, SymYes))
      else None
    else if TypeOf(t, a) == Boolean then
      if (e1.Not? && e1.arg.Sym? && e2.Sym?) || (e2.Not? && e2.arg.Sym? && e1.Sym?)
      then Some(Sym(SymYes))
      else None
    else None
  }

  function JoinAnd(t: SymbolTable, e1: Expr, e2: Expr): Option<Expr> {
    if ExprEq(e1, e2) then Some(e1) else
    var h1, h2 := HeadSymbol(e1, true), HeadSymbol(e2, false);
    if h1.None? || h2.None? || h1 != h2 || !Switch(TypeOf(t, h1.value)) then None else
    var a := h1.value;
    if SymAndTest(e1, e2, Eq, SymYes) then Some(Compare(Eq, a, SymYes))
    else if SymAndTest(e1, e2, Ne, SymNo) then Some(Sym(a))
    else if SymAndTest(e1, e2, Ne, SymMod) then Some(Compare(Eq, a, SymYes))
    else if TypeOf(t, a) != Tristates then None
    else if EqNeConst(e1, e2) then JoinEqNe(a, e1.rhs, e2.rhs)
    else if EqNeConst(e2, e1) then JoinEqNe(a, e2.rhs, e1.rhs)
    else if TestsPair(e1, e2, Ne, SymYes, SymNo) then Some(Compare(Eq, a, SymMod))
    else if TestsPair(e1, e2, Ne, SymYes, SymMod) then Some(Compare(Eq, a, SymNo))
    else if TestsPair(e1, e2, Ne, SymMod, SymNo) then Some(Compare(Eq, a, SymYes))
    else None
  }

  /** 'eq' is a = 'b' and 'ne' is a != 'c', both against constants. */
  predicate EqNeConst(eq: Expr, ne: Expr) {
    && eq.Compare? && eq.rel == Eq && IsConst(eq.rhs)
    && ne.Compare? && ne.rel == Ne && IsConst(ne.rhs)
  }

  /** a = 'b' && a != 'c'  becomes  a = 'b', or n when b and c are the same constant. */
  function JoinEqNe(a: Symbol, b: Symbol, c: Symbol): Option<Expr> {
    Some(if b != c then Compare(Eq, a, b) else Sym(SymNo))
  }

  function Join(t: SymbolTable, op: Op, e1: Expr, e2: Expr): Option<Expr> {
    if op == OrOp then JoinOr(t, e1, e2) else JoinAnd(t, e1, e2)
  }

  // ----- when a join keeps the value -----

  /** The pair a = 'b', a != 'c' of a tristate symbol whose two different constants are
      spellings of the same tristate value, such as n and 0. */
  predicate AliasedPair(t: SymbolTable, eq: Expr, ne: Expr) {
    && EqNeConst(eq, ne) && eq.lhs == ne.lhs && TypeOf(t, eq.lhs) == Tristates
    && eq.rhs != ne.rhs && LevelOf(t, eq.rhs).Some? && LevelOf(t, eq.rhs) == LevelOf(t, ne.rhs)
  }

  predicate Aliased(t: SymbolTable, op: Op, e1: Expr, e2: Expr) {
    op == AndOp && (AliasedPair(t, e1, e2) || AliasedPair(t, e2, e1))
  }

  lemma TypedTest(t: SymbolTable, env: Env, a: Symbol, c: Symbol)
    requires Consistent(t, env) && Switch(TypeOf(t, a)) && IsConst(c)
    ensures env.order(a, c) == 0 <==> LevelOf(t, c) == Some(ValueOf(env, a))
    ensures TypeOf(t, a) == Boolean ==> ValueOf(env, a) != MOD
  {
    assert env.order(Config(a.id), c) == 0 <==> LevelOf(t, c) == Some(env.value(a.id));
  }

  lemma TypedTests(t: SymbolTable, env: Env, a: Symbol)
    requires Consistent(t, env) && Switch(TypeOf(t, a))
    ensures env.order(a, SymYes) == 0 <==> ValueOf(env, a) == YES
    ensures env.order(a, SymMod) == 0 <==> ValueOf(env, a) == MOD
    ensures env.order(a, SymNo) == 0 <==> ValueOf(env, a) == NO
    ensures TypeOf(t, a) == Boolean ==> ValueOf(env, a) != MOD
  {
    TypedTest(t, env, a, SymYes);
    TypedTest(t, env, a, SymMod);
    TypedTest(t, env, a, SymNo);
  }

  lemma JoinOrSound(t: SymbolTable, env: Env, e1: Expr, e2: Expr)
    requires Consistent(t, env) && JoinOr(t, e1, e2).Some?
    ensures Eval(env, JoinOr(t, e1, e2).value) == Combine(OrOp, Eval(env, e1), Eval(env, e2))
  {
    if ExprEq(e1, e2) {
      ExprEqSound(env, e1, e2);
    } else {
      TypedTests(t, env, HeadSymbol(e1, true).value);
    }
  }

  lemma JoinEqNeSound(t: SymbolTable, env: Env, eq: Expr, ne: Expr)
    requires Consistent(t, env) && EqNeConst(eq, ne) && eq.lhs == ne.lhs && TypeOf(t, eq.lhs) == Tristates
    requires !AliasedPair(t, eq, ne)
    ensures Eval(env, JoinEqNe(eq.lhs, eq.rhs, ne.rhs).value) == Combine(AndOp, Eval(env, eq), Eval(env, ne))
  {
    TypedTest(t, env, eq.lhs, eq.rhs);
    TypedTest(t, env, eq.lhs, ne.rhs);
  }

  lemma JoinAndSound(t: SymbolTable, env: Env, e1: Expr, e2: Expr)
    requires Consistent(t, env) && JoinAnd(t, e1, e2).Some? && !Aliased(t, AndOp, e1, e2)
    ensures Eval(env, JoinAnd(t, e1, e2).value) == Combine(AndOp, Eval(env, e1), Eval(env, e2))
  {
    if ExprEq(e1, e2) {
      ExprEqSound(env, e1, e2);
    } else if TypeOf(t, HeadSymbol(e1, true).value) == Tristates && EqNeConst(e1, e2) {
      JoinEqNeSound(t, env, e1, e2);
    } else if TypeOf(t, HeadSymbol(e1, true).value) == Tristates && EqNeConst(e2, e1) {
      JoinEqNeSound(t, env, e2, e1);
    } else {
      TypedTests(t, env, HeadSymbol(e1, true).value);
    }
  }

  /** An assignment giving 'a' the value v and every other symbol n. */
  function Witness(t: SymbolTable, a: Symbol, v: Tristate): Env {
    var value := (i: nat) => if a == Config(i) then v else NO;
    Env(value, (l: Symbol, r: Symbol) =>
      if l == r || (l.Config? && LevelOf(t, r) == Some(value(l.id))) then 0 else 1)
  }

  lemma AliasedPairFails(t: SymbolTable, eq: Expr, ne: Expr)
    requires AliasedPair(t, eq, ne)
    ensures var env := Witness(t, eq.lhs, LevelOf(t, eq.rhs).value);
            && Consistent(t, env)
            && Eval(env, Compare(Eq, eq.lhs, eq.rhs)) != Combine(AndOp, Eval(env, eq), Eval(env, ne))
            && Eval(env, Compare(Eq, eq.lhs, eq.rhs)) != Combine(AndOp, Eval(env, ne), Eval(env, eq))
  {
    var env := Witness(t, eq.lhs, LevelOf(t, eq.rhs).value);
    assert env.order(eq.lhs, eq.rhs) == 0 && env.order(eq.lhs, ne.rhs) == 0;
  }

  /** A join that is made is exact under every assignment if and only if it does not equate two
      spellings of one tristate value. */
  lemma JoinExact(t: SymbolTable, op: Op, e1: Expr, e2: Expr)
    requires Join(t, op, e1, e2).Some?
    ensures (forall env :: Consistent(t, env) ==>
               Eval(env, Join(t, op, e1, e2).value) == Combine(op, Eval(env, e1), Eval(env, e2)))
            <==> !Aliased(t, op, e1, e2)
  {
    if Aliased(t, op, e1, e2) {
      var (eq, ne) := if AliasedPair(t, e1, e2) then (e1, e2) else (e2, e1);
      AliasedPairFails(t, eq, ne);
      assert JoinAnd(t, e1, e2) == Some(Compare(Eq, eq.lhs, eq.rhs));
      var env := Witness(t, eq.lhs, LevelOf(t, eq.rhs).value);
      assert Consistent(t, env);
    } else {
      forall env | Consistent(t, env)
        ensures Eval(env, Join(t, op, e1, e2).value) == Combine(op, Eval(env, e1), Eval(env, e2))
      {
        if op == OrOp { JoinOrSound(t, env, e1, e2); } else { JoinAndSound(t, env, e1, e2); }
      }
    }
  }

  /** A join never makes the operands larger. */
  lemma JoinSize(t: SymbolTable, op: Op, e1: Expr, e2: Expr)
    requires Join(t, op, e1, e2).Some?
    ensures Size(Join(t, op, e1, e2).value) <= Size(e1)
    ensures !IsBin(op, e1) ==> !IsBin(op, Join(t, op, e1, e2).value)
  {
  }

  /** Of a tristate symbol, two tests for two of its values are one test about the third, and a
      test for one value makes the exclusion of another superfluous. */
  lemma ThirdValue(t: SymbolTable, a: Symbol, b: Symbol, c: Symbol, d: Symbol)
    requires TypeOf(t, a) == Tristates && multiset{b, c, d} == multiset{SymYes, SymMod, SymNo}
    ensures JoinOr(t, Compare(Eq, a, b), Compare(Eq, a, c)) == Some(Compare(Ne, a, d))
    ensures JoinAnd(t, Compare(Ne, a, b), Compare(Ne, a, c)) == Some(Compare(Eq, a, d))
    ensures JoinAnd(t, Compare(Eq, a, b), Compare(Ne, a, c)) == Some(Compare(Eq, a, b))
    ensures JoinAnd(t, Compare(Ne, a, c), Compare(Eq, a, b)) == Some(Compare(Eq, a, b))
    ensures JoinAnd(t, Compare(Eq, a, b), Compare(Ne, a, b)) == Some(Sym(SymNo))
  {
    assert b in multiset{SymYes, SymMod, SymNo} && c in multiset{SymYes, SymMod, SymNo} &&
      d in multiset{SymYes, SymMod, SymNo};
    assert multiset{b, c, d}[b] == 1 && multiset{b, c, d}[c] == 1;
    assert b != c && b != d && c != d;
  }

  // ----- which pairs are joined -----

  predicate EitherOrder(e1: Expr, e2: Expr, x: Expr, y: Expr) { (e1 == x && e2 == y) || (e1 == y && e2 == x) }

  /** Two tests of a with the same relation, for two of y, m and n. */
  predicate TwoTests(e1: Expr, e2: Expr, rel: Rel, a: Symbol) {
    && e1.Compare? && e1.rel == rel && e1.lhs == a && e1.rhs in {SymYes, SymMod, SymNo}
    && e2.Compare? && e2.rel == rel && e2.lhs == a && e2.rhs in {SymYes, SymMod, SymNo} && e1.rhs != e2.rhs
  }

  /** A test of a for one constant, and another that excludes a constant. */
  predicate TestAndExclusion(e1: Expr, e2: Expr, a: Symbol) {
    && e1.Compare? && e1.rel == Eq && e1.lhs == a && IsConst(e1.rhs)
    && e2.Compare? && e2.rel == Ne && e2.lhs == a && IsConst(e2.rhs)
  }

  predicate OrForm(t: SymbolTable, a: Symbol, e1: Expr, e2: Expr) {
    || (TypeOf(t, a) == Boolean && EitherOrder(e1, e2, Sym(a), Not(Sym(a))))
    || (TypeOf(t, a) == Tristates && TwoTests(e1, e2, Eq, a))
  }

  predicate AndForm(t: SymbolTable, a: Symbol, e1: Expr, e2: Expr) {
    || (Switch(TypeOf(t, a)) && EitherOrder(e1, e2, Sym(a), Compare(Eq, a, SymYes)))
    || (Switch(TypeOf(t, a)) && EitherOrder(e1, e2, Sym(a), Compare(Ne, a, SymNo)))
    || (Switch(TypeOf(t, a)) && EitherOrder(e1, e2, Sym(a), Compare(Ne, a, SymMod)))
    || (TypeOf(t, a) == Tristates && (TestAndExclusion(e1, e2, a) || TestAndExclusion(e2, e1, a)))
    || (TypeOf(t, a) == Tristates && TwoTests(e1, e2, Ne, a))
  }

  /** Joined are equal operands, and otherwise exactly: with ||, a bool and its negation, and two
      tests of a tristate for two of its values; with &&, a bool or tristate and a test for y, or
      against n or m, and of a tristate a test for a constant with an exclusion of one, and two
      exclusions. */
  lemma JoinMade(t: SymbolTable, op: Op, e1: Expr, e2: Expr)
    ensures Join(t, op, e1, e2).Some? <==>
      ExprEq(e1, e2) || exists a :: if op == OrOp then OrForm(t, a, e1, e2) else AndForm(t, a, e1, e2)
  {
    hide ExprEq;
    if Join(t, op, e1, e2).Some? && !ExprEq(e1, e2) {
      var a := HeadSymbol(e1, true).value;
      assert if op == OrOp then OrForm(t, a, e1, e2) else AndForm(t, a, e1, e2);
    }
  }
}
