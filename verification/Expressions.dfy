/** Tristate values, symbols and boolean expressions (scripts/config/expr.h), with the
    meaning that expr_calc_value gives them under an assignment of values to symbols. */
module Expressions {

  datatype Option<+T> = None | Some(value: T)

  /** n, m and y are ordered n < m < y. */
  type Tristate = v: int | 0 <= v <= 2
  const NO: Tristate := 0
  const MOD: Tristate := 1
  const YES: Tristate := 2

  /** The three predefined constants, quoted words (const symbols), and named config symbols. */
  datatype Symbol = SymYes | SymMod | SymNo | Quoted(name: string) | Config(id: nat)

  datatype SymbolType = Unknown | Boolean | Tristates | Int | Hex | Str

  /** What the optimiser may look at besides the tree: the type of a config symbol, and which
      tristate value (if any) a tristate symbol must have to compare equal to a quoted word. */
  datatype SymbolTable = SymbolTable(kind: nat -> SymbolType, level: string -> Option<Tristate>)

  datatype Rel = Eq | Ne | Lt | Le | Gt | Ge
  datatype Op = AndOp | OrOp

  datatype Expr =
    | Sym(sym: Symbol)
    | Compare(rel: Rel, lhs: Symbol, rhs: Symbol)
    | Not(arg: Expr)
    | Bin(op: Op, left: Expr, right: Expr)

  predicate IsConst(s: Symbol) { !s.Config? }

  function TypeOf(t: SymbolTable, s: Symbol): SymbolType {
    if s.Config? then t.kind(s.id) else Unknown
  }

  function LevelOf(t: SymbolTable, s: Symbol): Option<Tristate> {
    match s
    case SymYes => Some(YES)
    case SymMod => Some(MOD)
    case SymNo => Some(NO)
    case Quoted(name) => t.level(name)
    case Config(_) => None
  }

  /** Values of the config symbols, and the outcome (negative, zero, positive) of comparing
      the string values of two symbols. */
  datatype Env = Env(value: nat -> Tristate, order: (Symbol, Symbol) -> int)

  predicate Switch(k: SymbolType) { k == Boolean || k == Tristates }

  /** An assignment the evaluator can produce: a bool is never m, a bool or tristate symbol
      compares equal to a constant exactly when that constant names its value, and y, m and n
      differ from each other. */
  ghost predicate Consistent(t: SymbolTable, env: Env) {
    && (forall i: nat :: t.kind(i) == Boolean ==> env.value(i) != MOD)
    && (forall i: nat, c: Symbol :: Switch(t.kind(i)) && IsConst(c) ==>
          (env.order(Config(i), c) == 0 <==> LevelOf(t, c) == Some(env.value(i))))
    && (forall c, d :: c in {SymYes, SymMod, SymNo} && d in {SymYes, SymMod, SymNo} ==>
          (env.order(c, d) == 0 <==> c == d))
  }

  function ValueOf(env: Env, s: Symbol): Tristate {
    match s
    case SymYes => YES
    case SymMod => MOD
    case SymNo => NO
    case Quoted(_) => NO
    case Config(i) => env.value(i)
  }

  predicate Holds(rel: Rel, outcome: int) {
    match rel
    case Eq => outcome == 0
    case Ne => outcome != 0
    case Lt => outcome < 0
    case Le => outcome <= 0
    case Gt => outcome > 0
    case Ge => outcome >= 0
  }

  function Combine(op: Op, a: Tristate, b: Tristate): Tristate {
    match op
    case AndOp => if a < b then a else b
    case OrOp => if a > b then a else b
  }

  function Eval(env: Env, e: Expr): Tristate {
    match e
    case Sym(s) => ValueOf(env, s)
    case Compare(rel, l, r) => if Holds(rel, env.order(l, r)) then YES else NO
    case Not(a) => 2 - Eval(env, a)
    case Bin(op, l, r) => Combine(op, Eval(env, l), Eval(env, r))
  }

  /** Where the outcomes are those of comparing numbers, so are the tests. */
  lemma ComparesNumbers(env: Env, number: Symbol -> int, l: Symbol, r: Symbol)
    requires env.order(l, r) < 0 <==> number(l) < number(r)
    requires env.order(l, r) > 0 <==> number(l) > number(r)
    ensures Eval(env, Compare(Eq, l, r)) == YES <==> number(l) == number(r)
    ensures Eval(env, Compare(Ne, l, r)) == YES <==> number(l) != number(r)
    ensures Eval(env, Compare(Lt, l, r)) == YES <==> number(l) < number(r)
    ensures Eval(env, Compare(Le, l, r)) == YES <==> number(l) <= number(r)
    ensures Eval(env, Compare(Gt, l, r)) == YES <==> number(l) > number(r)
    ensures Eval(env, Compare(Ge, l, r)) == YES <==> number(l) >= number(r)
    ensures forall rel :: Eval(env, Compare(rel, l, r)) != MOD
  {
  }

  /** A null expression stands for y. */
  function EvalOpt(env: Env, e: Option<Expr>): Tristate {
    if e.None? then YES else Eval(env, e.value)
  }

  ghost predicate SameValue(t: SymbolTable, a: Expr, b: Expr) {
    forall env :: Consistent(t, env) ==> Eval(env, a) == Eval(env, b)
  }

  function Size(e: Expr): (n: nat)
    ensures n >= 1
  {
    match e
    case Sym(_) => 1
    case Compare(_, _, _) => 1
    case Not(a) => 1 + Size(a)
    case Bin(_, l, r) => 1 + Size(l) + Size(r)
  }

  /** y for &&, n for ||. */
  function Neutral(op: Op): Symbol { if op == AndOp then SymYes else SymNo }

  /** n for &&, y for ||. */
  function Absorbing(op: Op): Symbol { if op == AndOp then SymNo else SymYes }

  predicate IsBin(op: Op, e: Expr) { e.Bin? && e.op == op }

  // ----- expr_eliminate_yn -----

  function EliminateYn(e: Expr): Expr {
    match e
    case Bin(op, l, r) =>
      var l' := EliminateYn(l);
      var r' := EliminateYn(r);
      if l' == Sym(Absorbing(op)) then l'
      else if l' == Sym(Neutral(op)) then r'
      else if r' == Sym(Absorbing(op)) then r'
      else if r' == Sym(Neutral(op)) then l'
      else Bin(op, l', r')
    case _ => e
  }

  /** No && or || reachable through && and || has y or n as an operand. */
  predicate YnFree(e: Expr) {
    e.Bin? ==> && YnFree(e.left) && YnFree(e.right)
               && e.left !in {Sym(SymYes), Sym(SymNo)} && e.right !in {Sym(SymYes), Sym(SymNo)}
  }

  /** Some && has an operand y, or some || an operand n. */
  predicate HasNeutral(e: Expr) {
    e.Bin? && (e.left == Sym(Neutral(e.op)) || e.right == Sym(Neutral(e.op))
               || HasNeutral(e.left) || HasNeutral(e.right))
  }

  lemma {:induction false} EliminateYnSound(env: Env, e: Expr)
    ensures Eval(env, EliminateYn(e)) == Eval(env, e)
    ensures YnFree(EliminateYn(e))
  {
    if e.Bin? {
      EliminateYnSound(env, e.left);
      EliminateYnSound(env, e.right);
    }
  }

  lemma {:induction false} EliminateYnShrinks(e: Expr)
    ensures Size(EliminateYn(e)) <= Size(e)
    ensures HasNeutral(e) ==> Size(EliminateYn(e)) < Size(e)
  {
    if e.Bin? {
      EliminateYnShrinks(e.left);
      EliminateYnShrinks(e.right);
    }
  }

  // ----- __expr_eliminate_eq, expr_eliminate_eq and expr_eq -----

  /** Both trees with their common operands at this level of 'op' replaced by the neutral
      constant; a node that is not an 'op' is one operand. */
  function Cancel(op: Op, e1: Expr, e2: Expr): (r: (Expr, Expr))
    ensures Size(r.0) <= Size(e1) && Size(r.1) <= Size(e2)
    ensures IsBin(op, e1) ==> IsBin(op, r.0)
    ensures IsBin(op, e2) ==> IsBin(op, r.1)
    decreases Size(e1) + Size(e2), if IsBin(op, e1) || IsBin(op, e2) then 0 else 4
  {
    if IsBin(op, e1) then
      var a := Cancel(op, e1.left, e2);
      var b := Cancel(op, e1.right, a.1);
      (Bin(op, a.0, b.0), b.1)
    else if IsBin(op, e2) then
      var a := Cancel(op, e1, e2.left);
      var b := Cancel(op, a.0, e2.right);
      (b.0, Bin(op, a.1, b.1))
    else if e1 == e2 && e1 in {Sym(SymYes), Sym(SymNo)} then
      (e1, e2)
    else if ExprEq(e1, e2) then
      (Sym(Neutral(op)), Sym(Neutral(op)))
    else
      (e1, e2)
  }

  /** expr_eliminate_eq before its final expr_eliminate_yn: first the level of e1's operator,
      then, if the tops now differ, the level of e2's. */
  function CancelBoth(e1: Expr, e2: Expr): (r: (Expr, Expr))
    ensures Size(r.0) <= Size(e1) && Size(r.1) <= Size(e2)
    decreases Size(e1) + Size(e2), 1
  {
    var (a, b) := if e1.Bin? then Cancel(e1.op, e1, e2) else (e1, e2);
    if b.Bin? && !IsBin(b.op, a) then Cancel(b.op, a, b) else (a, b)
  }

  function EliminateEq(e1: Expr, e2: Expr): (Expr, Expr)
    decreases Size(e1) + Size(e2), 2
  {
    var (a, b) := CancelBoth(e1, e2);
    (EliminateYn(a), EliminateYn(b))
  }

  predicate ExprEq(e1: Expr, e2: Expr)
    decreases Size(e1) + Size(e2), 3
  {
    match e1
    case Sym(_) => e1 == e2
    case Compare(_, _, _) => e1 == e2
    case Not(a) => e2.Not? && ExprEq(a, e2.arg)
    case Bin(op, _, _) =>
      && IsBin(op, e2)
      && var (a, b) := EliminateEq(e1, e2);
         a.Sym? && a == b
  }

  /** The part S that Cancel takes out of both trees. */
  function Common(op: Op, e1: Expr, e2: Expr): Expr
    decreases Size(e1) + Size(e2)
  {
    if IsBin(op, e1) then
      var a := Cancel(op, e1.left, e2);
      Bin(op, Common(op, e1.left, e2), Common(op, e1.right, a.1))
    else if IsBin(op, e2) then
      var a := Cancel(op, e1, e2.left);
      Bin(op, Common(op, e1, e2.left), Common(op, a.0, e2.right))
    else if e1 == e2 && e1 in {Sym(SymYes), Sym(SymNo)} then
      Sym(Neutral(op))
    else if ExprEq(e1, e2) then
      e1
    else
      Sym(Neutral(op))
  }

  lemma Regroup(op: Op, s1: Tristate, a: Tristate, s2: Tristate, b: Tristate)
    ensures Combine(op, Combine(op, s1, a), Combine(op, s2, b)) == Combine(op, Combine(op, s1, s2), Combine(op, a, b))
    ensures Combine(op, s1, Combine(op, s2, b)) == Combine(op, Combine(op, s1, s2), b)
  {
  }

  /** e1 = S op e1' and e2 = S op e2', for one S, under every assignment. */
  lemma {:induction false} CancelSound(env: Env, op: Op, e1: Expr, e2: Expr)
    ensures Eval(env, e1) == Combine(op, Eval(env, Common(op, e1, e2)), Eval(env, Cancel(op, e1, e2).0))
    ensures Eval(env, e2) == Combine(op, Eval(env, Common(op, e1, e2)), Eval(env, Cancel(op, e1, e2).1))
    decreases Size(e1) + Size(e2), if IsBin(op, e1) || IsBin(op, e2) then 0 else 4
  {
    hide ExprEq, EliminateYn, Combine;
    if IsBin(op, e1) {
      var a := Cancel(op, e1.left, e2);
      var b := Cancel(op, e1.right, a.1);
      assert Cancel(op, e1, e2) == (Bin(op, a.0, b.0), b.1);
      CancelSound(env, op, e1.left, e2);
      CancelSound(env, op, e1.right, a.1);
      var s1, s2 := Eval(env, Common(op, e1.left, e2)), Eval(env, Common(op, e1.right, a.1));
      Regroup(op, s1, Eval(env, a.0), s2, Eval(env, b.0));
      Regroup(op, s1, NO, s2, Eval(env, b.1));
    } else if IsBin(op, e2) {
      var a := Cancel(op, e1, e2.left);
      var b := Cancel(op, a.0, e2.right);
      assert Cancel(op, e1, e2) == (b.0, Bin(op, a.1, b.1));
      CancelSound(env, op, e1, e2.left);
      CancelSound(env, op, a.0, e2.right);
      var s1, s2 := Eval(env, Common(op, e1, e2.left)), Eval(env, Common(op, a.0, e2.right));
      Regroup(op, s1, Eval(env, a.1), s2, Eval(env, b.1));
      Regroup(op, s1, NO, s2, Eval(env, b.0));
    } else {
      if ExprEq(e1, e2) { ExprEqSound(env, e1, e2); }
      CancelSingle(env, op, e1, e2);
    }
  }

  lemma CancelSingle(env: Env, op: Op, e1: Expr, e2: Expr)
    requires !IsBin(op, e1) && !IsBin(op, e2) && (ExprEq(e1, e2) ==> Eval(env, e1) == Eval(env, e2))
    ensures Eval(env, e1) == Combine(op, Eval(env, Common(op, e1, e2)), Eval(env, Cancel(op, e1, e2).0))
    ensures Eval(env, e2) == Combine(op, Eval(env, Common(op, e1, e2)), Eval(env, Cancel(op, e1, e2).1))
  {
    hide ExprEq;
  }

  lemma {:induction false} ExprEqSound(env: Env, e1: Expr, e2: Expr)
    requires ExprEq(e1, e2)
    ensures Eval(env, e1) == Eval(env, e2)
    decreases Size(e1) + Size(e2), 3
  {
    match e1
    case Not(a) => ExprEqSound(env, a, e2.arg);
    case Bin(op, _, _) =>
      var c := Cancel(op, e1, e2);
      assert CancelBoth(e1, e2) == c;
      assert EliminateEq(e1, e2) == (EliminateYn(c.0), EliminateYn(c.1));
      CancelSound(env, op, e1, e2);
      EliminateYnSound(env, c.0);
      EliminateYnSound(env, c.1);
    case _ =>
  }

  lemma CombineMonotone(op: Op, s: Tristate, a: Tristate, b: Tristate)
    requires a <= b
    ensures Combine(op, s, a) <= Combine(op, s, b)
  {
  }

  lemma CancelReflectsOrder(env: Env, op: Op, e1: Expr, e2: Expr)
    requires Eval(env, Cancel(op, e1, e2).0) <= Eval(env, Cancel(op, e1, e2).1)
    ensures Eval(env, e1) <= Eval(env, e2)
  {
    CancelSound(env, op, e1, e2);
    var c := Cancel(op, e1, e2);
    CombineMonotone(op, Eval(env, Common(op, e1, e2)), Eval(env, c.0), Eval(env, c.1));
  }

  /** The superset test of automatic submenus: when nothing is left of e2 but y, then e1 <= e2
      under every assignment, whatever the operators at the two tops. */
  lemma SupersetSound(env: Env, e1: Expr, e2: Expr)
    requires EliminateEq(e1, e2).1 == Sym(SymYes)
    ensures Eval(env, e1) <= Eval(env, e2)
  {
    var c := if e1.Bin? then Cancel(e1.op, e1, e2) else (e1, e2);
    var d := CancelBoth(e1, e2);
    EliminateYnSound(env, d.1);
    assert Eval(env, d.1) == YES;
    if c.1.Bin? && !IsBin(c.1.op, c.0) {
      assert d == Cancel(c.1.op, c.0, c.1);
      CancelReflectsOrder(env, c.1.op, c.0, c.1);
    }
    if e1.Bin? {
      CancelReflectsOrder(env, e1.op, e1, e2);
    }
  }
}
