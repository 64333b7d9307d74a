/** What expr_eq decides and what expr_eliminate_eq removes (scripts/config/expr.c), for trees
    without y and n among the operands of && and ||. */
module Equality {
  import opened Expressions

  /** An expression up to the order and grouping of the operands of each level. */
  datatype Key = Leaf(e: Expr) | NotKey(k: Key) | Level(op: Op, keys: multiset<Key>)

  function KeyOf(e: Expr): Key
    decreases e, 1
  {
    match e
    case Not(a) => NotKey(KeyOf(a))
    case Bin(op, l, r) => Level(op, Operands(op, l) + Operands(op, r))
    case _ => Leaf(e)
  }

  /** The operands of the level of 'op' at the top of e, each as often as it occurs. */
  function Operands(op: Op, e: Expr): multiset<Key>
    decreases e, 2
  {
    if IsBin(op, e) then Operands(op, e.left) + Operands(op, e.right) else multiset{KeyOf(e)}
  }

  predicate IsYn(e: Expr) { e == Sym(SymYes) || e == Sym(SymNo) }

  /** No operand of && or || is y or n, at any depth. */
  predicate NoYn(e: Expr) {
    match e
    case Not(a) => NoYn(a)
    case Bin(_, l, r) => NoYn(l) && NoYn(r) && !IsYn(l) && !IsYn(r)
    case _ => true
  }

  /** A level some of whose operands may have been replaced by the neutral constant. */
  predicate Partly(op: Op, e: Expr) {
    if IsBin(op, e) then Partly(op, e.left) && Partly(op, e.right)
    else e == Sym(Neutral(op)) || (NoYn(e) && !IsYn(e))
  }

  /** The operands that have not been replaced. */
  function Live(op: Op, e: Expr): multiset<Key> {
    if IsBin(op, e) then Live(op, e.left) + Live(op, e.right)
    else if e == Sym(Neutral(op)) then multiset{}
    else multiset{KeyOf(e)}
  }

  lemma {:induction false} AllLive(op: Op, e: Expr)
    requires NoYn(e) && !IsYn(e)
    ensures Partly(op, e) && Live(op, e) == Operands(op, e)
  {
    if IsBin(op, e) { AllLive(op, e.left); AllLive(op, e.right); }
  }

  lemma {:induction false} NoYnUnchanged(e: Expr)
    requires NoYn(e) && !IsYn(e)
    ensures EliminateYn(e) == e
  {
    if e.Bin? { NoYnUnchanged(e.left); NoYnUnchanged(e.right); }
  }

  lemma LiveBin(op: Op, e: Expr)
    requires IsBin(op, e)
    ensures Live(op, e) == Live(op, e.left) + Live(op, e.right)
    ensures Partly(op, e) <==> Partly(op, e.left) && Partly(op, e.right)
  {
  }

  lemma LiveOperand(op: Op, e: Expr)
    requires Partly(op, e) && !IsBin(op, e)
    ensures EliminateYn(e) == e
    ensures if e == Sym(Neutral(op)) then Live(op, e) == multiset{}
      else NoYn(e) && !IsYn(e) && Live(op, e) == multiset{KeyOf(e)}
  {
    if e != Sym(Neutral(op)) { NoYnUnchanged(e); }
  }

  /** expr_eliminate_yn on such a level: nothing left gives the neutral constant, and a symbol is
      what is left of one operand only. */
  lemma {:induction false} EliminateYnPartly(op: Op, e: Expr)
    requires Partly(op, e)
    ensures var r := EliminateYn(e);
      && (Live(op, e) == multiset{} <==> IsYn(r))
      && (IsYn(r) ==> r == Sym(Neutral(op)))
      && (r.Sym? && !IsYn(r) ==> Live(op, e) == multiset{KeyOf(r)})
  {
    hide Live, Partly, KeyOf, NoYn;
    if IsBin(op, e) {
      LiveBin(op, e);
      EliminateYnPartly(op, e.left);
      EliminateYnPartly(op, e.right);
    } else {
      LiveOperand(op, e);
      if e != Sym(Neutral(op)) { assert KeyOf(e) in Live(op, e); }
    }
  }

  /** __expr_eliminate_eq removes from each side exactly the operands it shares with the other,
      counted with their multiplicity. */
  lemma {:induction false} CancelExact(op: Op, e1: Expr, e2: Expr)
    requires Partly(op, e1) && Partly(op, e2)
    ensures var c := Cancel(op, e1, e2);
      && Partly(op, c.0) && Partly(op, c.1)
      && Live(op, c.0) == Live(op, e1) - Live(op, e2)
      && Live(op, c.1) == Live(op, e2) - Live(op, e1)
    decreases Size(e1) + Size(e2), if IsBin(op, e1) || IsBin(op, e2) then 0 else 4
  {
    hide Live, Partly, KeyOf, NoYn, ExprEq, Cancel;
    if IsBin(op, e1) {
      var a := Cancel(op, e1.left, e2);
      var b := Cancel(op, e1.right, a.1);
      CancelLeft(op, e1, e2);
      LiveBin(op, e1);
      CancelExact(op, e1.left, e2);
      CancelExact(op, e1.right, a.1);
      LiveBin(op, Bin(op, a.0, b.0));
      OneByOne(Live(op, e1.left), Live(op, e1.right), Live(op, e2));
    } else if IsBin(op, e2) {
      var a := Cancel(op, e1, e2.left);
      var b := Cancel(op, a.0, e2.right);
      CancelRight(op, e1, e2);
      LiveBin(op, e2);
      CancelExact(op, e1, e2.left);
      CancelExact(op, a.0, e2.right);
      LiveBin(op, Bin(op, a.1, b.1));
      OneByOne(Live(op, e2.left), Live(op, e2.right), Live(op, e1));
    } else {
      LiveOperand(op, e1);
      LiveOperand(op, e2);
      if e1 != Sym(Neutral(op)) && e2 != Sym(Neutral(op)) { ExprEqExact(e1, e2); }
      CancelOperands(op, e1, e2);
    }
  }

  lemma CancelLeft(op: Op, e1: Expr, e2: Expr)
    requires IsBin(op, e1)
    ensures var a := Cancel(op, e1.left, e2);
      var b := Cancel(op, e1.right, a.1);
      Cancel(op, e1, e2) == (Bin(op, a.0, b.0), b.1)
  {
  }

  lemma CancelRight(op: Op, e1: Expr, e2: Expr)
    requires !IsBin(op, e1) && IsBin(op, e2)
    ensures var a := Cancel(op, e1, e2.left);
      var b := Cancel(op, a.0, e2.right);
      Cancel(op, e1, e2) == (b.0, Bin(op, a.1, b.1))
  {
  }

  /** Two single operands: both go when they are equal and not yet replaced. */
  lemma CancelOperands(op: Op, e1: Expr, e2: Expr)
    requires Partly(op, e1) && Partly(op, e2) && !IsBin(op, e1) && !IsBin(op, e2)
    requires e1 != Sym(Neutral(op)) && e2 != Sym(Neutral(op)) ==> (ExprEq(e1, e2) <==> KeyOf(e1) == KeyOf(e2))
    ensures var c := Cancel(op, e1, e2);
      && Partly(op, c.0) && Partly(op, c.1)
      && Live(op, c.0) == Live(op, e1) - Live(op, e2)
      && Live(op, c.1) == Live(op, e2) - Live(op, e1)
  {
    hide KeyOf, Live, Partly, NoYn, Cancel, ExprEq;
    var u := Sym(Neutral(op));
    CancelLeaf(op, e1, e2);
    LiveOperand(op, e1);
    LiveOperand(op, e2);
    NothingLive(op);
  }

  lemma NothingLive(op: Op)
    ensures Partly(op, Sym(Neutral(op))) && Live(op, Sym(Neutral(op))) == multiset{}
  {
  }

  lemma CancelLeaf(op: Op, e1: Expr, e2: Expr)
    requires !IsBin(op, e1) && !IsBin(op, e2)
    ensures var u := Sym(Neutral(op));
      Cancel(op, e1, e2) == if e1 != u && e2 != u && !(e1 == e2 && IsYn(e1)) && ExprEq(e1, e2) then (u, u) else (e1, e2)
  {
    var u := Sym(Neutral(op));
    assert e1 == u || e2 == u ==> (ExprEq(e1, e2) <==> e1 == e2);
  }

  lemma OneByOne(l: multiset<Key>, r: multiset<Key>, c: multiset<Key>)
    ensures (l - c) + (r - (c - l)) == (l + r) - c
    ensures (c - l) - r == c - (l + r)
  {
  }

  /** expr_eq holds exactly when the two trees have the same operands on every level, equally
      often, in any order and grouping. */
  lemma {:induction false} ExprEqExact(e1: Expr, e2: Expr)
    requires NoYn(e1) && NoYn(e2)
    ensures ExprEq(e1, e2) <==> KeyOf(e1) == KeyOf(e2)
    decreases Size(e1) + Size(e2), 3
  {
    match e1
    case Not(a) => if e2.Not? { ExprEqExact(a, e2.arg); }
    case Bin(op, _, _) =>
      if IsBin(op, e2) {
        var c := Cancel(op, e1, e2);
        assert CancelBoth(e1, e2) == c;
        AllLive(op, e1);
        AllLive(op, e2);
        CancelExact(op, e1, e2);
        EliminateYnPartly(op, c.0);
        EliminateYnPartly(op, c.1);
        SameOperands(Operands(op, e1), Operands(op, e2));
      }
    case _ =>
  }

  lemma SameOperands(a: multiset<Key>, b: multiset<Key>)
    ensures a == b <==> a - b == multiset{} && b - a == multiset{}
    ensures a - b == b - a ==> a == b
  {
    if a - b == multiset{} && b - a == multiset{} {
      forall k ensures a[k] == b[k] { assert (a - b)[k] == 0 && (b - a)[k] == 0; }
    }
    if a - b == b - a {
      forall k ensures a[k] == b[k] { assert (a - b)[k] == (b - a)[k]; }
    }
  }

  /** So, unlike its description says, it is not enough that every operand of one expression
      equals some operand of the other: A && A && B and A && B && B have the same value under
      every assignment and are not found equal. */
  lemma RepeatedOperand(a: nat, b: nat)
    requires a != b
    ensures var x, y := Sym(Config(a)), Sym(Config(b));
      var e1, e2 := Bin(AndOp, Bin(AndOp, x, x), y), Bin(AndOp, Bin(AndOp, x, y), y);
      !ExprEq(e1, e2) && forall env :: Eval(env, e1) == Eval(env, e2)
  {
    var x, y := Sym(Config(a)), Sym(Config(b));
    var e1, e2 := Bin(AndOp, Bin(AndOp, x, x), y), Bin(AndOp, Bin(AndOp, x, y), y);
    hide ExprEq, Eval, KeyOf, NoYn;
    forall env ensures Eval(env, e1) == Eval(env, e2) { RepeatedValue(env, x, y); }
    RepeatedKeys(a, b);
    ExprEqExact(e1, e2);
  }

  lemma RepeatedKeys(a: nat, b: nat)
    requires a != b
    ensures var x, y := Sym(Config(a)), Sym(Config(b));
      var e1, e2 := Bin(AndOp, Bin(AndOp, x, x), y), Bin(AndOp, Bin(AndOp, x, y), y);
      NoYn(e1) && NoYn(e2) && KeyOf(e1) != KeyOf(e2)
  {
    var x, y := Sym(Config(a)), Sym(Config(b));
    var e1, e2 := Bin(AndOp, Bin(AndOp, x, x), y), Bin(AndOp, Bin(AndOp, x, y), y);
    assert KeyOf(x) == Leaf(x) && KeyOf(y) == Leaf(y);
    assert Operands(AndOp, x) == multiset{Leaf(x)};
    assert Operands(AndOp, y) == multiset{Leaf(y)};
    assert Operands(AndOp, Bin(AndOp, x, x)) == multiset{Leaf(x), Leaf(x)};
    assert Operands(AndOp, Bin(AndOp, x, y)) == multiset{Leaf(x), Leaf(y)};
    assert KeyOf(e1).keys[Leaf(x)] == 2 && KeyOf(e2).keys[Leaf(x)] == 1;
  }

  lemma RepeatedValue(env: Env, x: Expr, y: Expr)
    ensures Eval(env, Bin(AndOp, Bin(AndOp, x, x), y)) == Eval(env, Bin(AndOp, Bin(AndOp, x, y), y))
  {
  }

  /** A single operand goes entirely or not at all; if it stays, so does the other tree. */
  lemma {:induction false} SingleStays(op: Op, e1: Expr, e2: Expr)
    requires !IsBin(op, e2)
    ensures Cancel(op, e1, e2).1 in {e2, Sym(Neutral(op))}
    ensures Cancel(op, e1, e2).1 == e2 && e2 != Sym(Neutral(op)) ==> Cancel(op, e1, e2).0 == e1
    decreases e1
  {
    hide ExprEq;
    if IsBin(op, e1) {
      SingleStays(op, e1.left, e2);
      SingleStays(op, e1.right, Cancel(op, e1.left, e2).1);
    }
  }

  /** What the clean-up leaves of the second tree after one level has been cancelled. */
  lemma LevelCancelled(op: Op, e1: Expr, e2: Expr)
    requires NoYn(e1) && NoYn(e2) && !IsYn(e1) && !IsYn(e2)
    ensures EliminateYn(Cancel(op, e1, e2).1) == Sym(SymYes) <==>
      op == AndOp && Operands(op, e2) <= Operands(op, e1)
  {
    hide Live, Partly, KeyOf, NoYn, ExprEq, Cancel, Operands;
    AllLive(op, e1);
    AllLive(op, e2);
    CancelExact(op, e1, e2);
    EliminateYnPartly(op, Cancel(op, e1, e2).1);
    var x, y := Operands(op, e1), Operands(op, e2);
    if y - x == multiset{} {
      forall k ensures y[k] <= x[k] { assert (y - x)[k] == 0; }
    }
    if y <= x {
      forall k ensures (y - x)[k] == 0 {}
      assert y - x == multiset{};
    }
  }

  lemma {:induction false} SomeOperands(op: Op, e: Expr)
    ensures |Operands(op, e)| >= if IsBin(op, e) then 2 else 1
  {
    hide KeyOf;
    if IsBin(op, e) {
      SomeOperands(op, e.left);
      SomeOperands(op, e.right);
    }
  }

  lemma NotAmongOne(e1: Expr, e2: Expr)
    requires !IsBin(AndOp, e1) && IsBin(AndOp, e2)
    ensures !(Operands(AndOp, e2) <= Operands(AndOp, e1))
  {
    SomeOperands(AndOp, e2);
    var x, y := Operands(AndOp, e1), Operands(AndOp, e2);
    assert |x| == 1;
    hide Operands, KeyOf;
    assert y <= x ==> x - y + y == x;
  }

  /** The superset test finds y left of e2 exactly when e1 is an && tree and has all the operands of
      e2, each at least as often; any e2 but an && tree is one operand. */
  lemma SupersetExact(e1: Expr, e2: Expr)
    requires NoYn(e1) && NoYn(e2) && !IsYn(e1) && !IsYn(e2)
    ensures EliminateEq(e1, e2).1 == Sym(SymYes) <==>
      IsBin(AndOp, e1) && Operands(AndOp, e2) <= Operands(AndOp, e1)
  {
    hide NoYn, Cancel, Operands, KeyOf, ExprEq;
    NoYnUnchanged(e2);
    LevelCancelled(AndOp, e1, e2);
    LevelCancelled(OrOp, e1, e2);
    if e1.Bin? && !IsBin(e1.op, e2) { SingleStays(e1.op, e1, e2); }
    if !IsBin(AndOp, e1) && IsBin(AndOp, e2) { NotAmongOne(e1, e2); }
  }

  /** Nothing is asked for by y. */
  lemma {:induction false} YesStays(op: Op, e1: Expr)
    ensures Cancel(op, e1, Sym(SymYes)).1 == Sym(SymYes)
  {
    if IsBin(op, e1) {
      YesStays(op, e1.left);
      YesStays(op, e1.right);
    }
  }

  lemma YesIncluded(e1: Expr)
    ensures EliminateEq(e1, Sym(SymYes)).1 == Sym(SymYes)
  {
    if e1.Bin? { YesStays(e1.op, e1); }
  }
}
