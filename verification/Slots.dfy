/** Pointers to expression pointers. A variable of type struct expr * is a Slot holding the tree
    it owns; a struct expr ** into that tree is the slot together with the path to the child. */
module Slots {
  import opened Expressions

  /** true goes to the right child; a negation has only a left one. */
  type Path = seq<bool>

  predicate HasChild(e: Expr, right: bool) { e.Bin? || (e.Not? && !right) }

  function Child(e: Expr, right: bool): (c: Expr)
    requires HasChild(e, right)
    ensures c < e && Size(c) < Size(e)
  {
    if e.Not? then e.arg else if right then e.right else e.left
  }

  predicate ValidPath(e: Expr, p: Path) {
    p == [] || (HasChild(e, p[0]) && ValidPath(Child(e, p[0]), p[1..]))
  }

  /** The tree that the pointer at path p points to. */
  function At(e: Expr, p: Path): Expr
    requires ValidPath(e, p)
  {
    if p == [] then e else At(Child(e, p[0]), p[1..])
  }

  /** The tree after an assignment through the pointer at path p. */
  function Put(e: Expr, p: Path, x: Expr): Expr
    requires ValidPath(e, p)
  {
    if p == [] then x else
    var c := Put(Child(e, p[0]), p[1..], x);
    if e.Not? then Not(c) else if p[0] then e.(right := c) else e.(left := c)
  }

  class Slot {
    var e: Expr
    constructor (e: Expr)
      ensures this.e == e
    {
      this.e := e;
    }
  }

  lemma {:induction false} PutAt(e: Expr, p: Path, x: Expr)
    requires ValidPath(e, p)
    ensures ValidPath(Put(e, p, x), p) && At(Put(e, p, x), p) == x
    ensures Put(e, p, At(e, p)) == e
    ensures Size(Put(e, p, x)) + Size(At(e, p)) == Size(e) + Size(x)
  {
    if p != [] {
      PutAt(Child(e, p[0]), p[1..], x);
    }
  }

  lemma {:induction false} PutPut(e: Expr, p: Path, x: Expr, y: Expr)
    requires ValidPath(e, p)
    ensures ValidPath(Put(e, p, x), p) && Put(Put(e, p, x), p, y) == Put(e, p, y)
  {
    if p != [] {
      PutPut(Child(e, p[0]), p[1..], x, y);
    }
  }

  /** A path one step longer: the child of what p points to. */
  lemma {:induction false} AtStep(e: Expr, p: Path, d: bool, x: Expr)
    requires ValidPath(e, p) && HasChild(At(e, p), d)
    ensures ValidPath(e, p + [d]) && At(e, p + [d]) == Child(At(e, p), d)
    ensures Put(e, p + [d], x) == Put(e, p, Put(At(e, p), [d], x))
  {
    if p == [] {
      assert p + [d] == [d] && [d][1..] == [];
    } else {
      assert (p + [d])[1..] == p[1..] + [d];
      AtStep(Child(e, p[0]), p[1..], d, x);
    }
  }

  /** Replacing a subtree by one of equal value keeps the value of the tree. */
  lemma {:induction false} PutSameValue(env: Env, e: Expr, p: Path, x: Expr)
    requires ValidPath(e, p) && Eval(env, x) == Eval(env, At(e, p))
    ensures Eval(env, Put(e, p, x)) == Eval(env, e)
  {
    if p != [] {
      PutSameValue(env, Child(e, p[0]), p[1..], x);
    }
  }

  // ----- one level of && or || -----

  /** Every node strictly above the end of p is an 'op'. */
  predicate InLevel(op: Op, e: Expr, p: Path) {
    p == [] || (IsBin(op, e) && InLevel(op, Child(e, p[0]), p[1..]))
  }

  lemma {:induction false} InLevelValid(op: Op, e: Expr, p: Path)
    requires InLevel(op, e, p)
    ensures ValidPath(e, p)
    ensures p != [] ==> Size(At(e, p)) < Size(e)
  {
    if p != [] { InLevelValid(op, Child(e, p[0]), p[1..]); }
  }

  /** An operand of the level: not an 'op' itself. */
  predicate Operand(op: Op, e: Expr, p: Path) {
    InLevel(op, e, p) && (InLevelValid(op, e, p); !IsBin(op, At(e, p)))
  }

  function OperandAt(op: Op, e: Expr, p: Path): (x: Expr)
    requires InLevel(op, e, p)
    ensures p != [] ==> Size(x) < Size(e)
  {
    InLevelValid(op, e, p);
    At(e, p)
  }

  datatype Shape = Tip | Fork(l: Shape, r: Shape)

  function ShapeOf(op: Op, e: Expr): Shape {
    if IsBin(op, e) then Fork(ShapeOf(op, e.left), ShapeOf(op, e.right)) else Tip
  }

  function Nodes(s: Shape): nat {
    match s case Tip => 1 case Fork(l, r) => 1 + Nodes(l) + Nodes(r)
  }

  lemma {:induction false} SameShapeSamePaths(op: Op, e: Expr, f: Expr, p: Path)
    requires ShapeOf(op, e) == ShapeOf(op, f) && InLevel(op, e, p)
    ensures InLevel(op, f, p) && ShapeOf(op, OperandAt(op, e, p)) == ShapeOf(op, OperandAt(op, f, p))
    ensures IsBin(op, OperandAt(op, e, p)) == IsBin(op, OperandAt(op, f, p))
  {
    if p != [] { SameShapeSamePaths(op, Child(e, p[0]), Child(f, p[0]), p[1..]); }
  }

  lemma {:induction false} InLevelStep(op: Op, e: Expr, p: Path, d: bool)
    requires InLevel(op, e, p) && IsBin(op, OperandAt(op, e, p))
    ensures InLevel(op, e, p + [d]) && OperandAt(op, e, p + [d]) == Child(OperandAt(op, e, p), d)
  {
    if p == [] {
      assert p + [d] == [d] && [d][1..] == [];
      assert At(e, [d]) == At(Child(e, d), [d][1..]);
    } else {
      assert (p + [d])[1..] == p[1..] + [d];
      InLevelStep(op, Child(e, p[0]), p[1..], d);
    }
  }

  lemma {:induction false} PutOperandShape(op: Op, e: Expr, p: Path, x: Expr)
    requires Operand(op, e, p) && !IsBin(op, x)
    ensures ValidPath(e, p) && ShapeOf(op, Put(e, p, x)) == ShapeOf(op, e)
    ensures Operand(op, Put(e, p, x), p) && OperandAt(op, Put(e, p, x), p) == x
  {
    if p != [] { PutOperandShape(op, Child(e, p[0]), p[1..], x); }
  }

  /** Writing one operand leaves every other operand alone. */
  lemma {:induction false} PutOtherOperand(op: Op, e: Expr, p: Path, x: Expr, q: Path)
    requires Operand(op, e, p) && !IsBin(op, x) && Operand(op, e, q) && p != q
    ensures ValidPath(e, p) && Operand(op, Put(e, p, x), q)
    ensures OperandAt(op, Put(e, p, x), q) == OperandAt(op, e, q)
  {
    InLevelValid(op, e, p);
    if p != [] && q != [] {
      PutOperandShape(op, Child(e, p[0]), p[1..], x);
      if p[0] == q[0] {
        PutOtherOperand(op, Child(e, p[0]), p[1..], x, q[1..]);
      }
    }
  }

  /** The value of all operands except the one at p. */
  function Rest(env: Env, op: Op, e: Expr, p: Path): Tristate
    requires InLevel(op, e, p)
  {
    if p == [] then ValueOf(env, Neutral(op))
    else Combine(op, Rest(env, op, Child(e, p[0]), p[1..]), Eval(env, Child(e, !p[0])))
  }

  lemma {:induction false} SplitOperand(env: Env, op: Op, e: Expr, p: Path, x: Expr)
    requires InLevel(op, e, p)
    ensures ValidPath(e, p) && Eval(env, Put(e, p, x)) == Combine(op, Eval(env, x), Rest(env, op, e, p))
  {
    if p != [] {
      var c := Child(e, p[0]);
      SplitOperand(env, op, c, p[1..], x);
      InLevelValid(op, e, p);
      Shuffle(op, Eval(env, x), Rest(env, op, c, p[1..]), Eval(env, Child(e, !p[0])));
    }
  }

  lemma Shuffle(op: Op, a: Tristate, b: Tristate, c: Tristate)
    ensures Combine(op, Combine(op, a, b), c) == Combine(op, a, Combine(op, b, c))
    ensures Combine(op, c, Combine(op, a, b)) == Combine(op, a, Combine(op, b, c))
    ensures Combine(op, Combine(op, a, b), c) == Combine(op, b, Combine(op, a, c))
  {
  }

  lemma ReplaceAcross(op: Op, a: Tristate, ra: Tristate, b: Tristate, rb: Tristate, x: Tristate)
    requires x == Combine(op, a, b)
    ensures var u := if op == AndOp then YES else NO;
            && Combine(op, Combine(op, u, ra), Combine(op, x, rb)) ==
              Combine(op, Combine(op, a, ra), Combine(op, b, rb))
            && Combine(op, Combine(op, x, rb), Combine(op, u, ra)) ==
              Combine(op, Combine(op, b, rb), Combine(op, a, ra))
  {
  }

  /** Moving the joined value of two operands into one of them, and the neutral constant into
      the other, keeps the value of the level. */
  lemma {:induction false} ReplacePair(env: Env, op: Op, e: Expr, p: Path, q: Path, x: Expr)
    requires Operand(op, e, p) && Operand(op, e, q) && p != q
    requires Eval(env, x) == Combine(op, Eval(env, OperandAt(op, e, p)), Eval(env, OperandAt(op, e, q)))
    ensures ValidPath(e, p) && ValidPath(Put(e, p, Sym(Neutral(op))), q)
    ensures Eval(env, Put(Put(e, p, Sym(Neutral(op))), q, x)) == Eval(env, e)
  {
    var u := Sym(Neutral(op));
    InLevelValid(op, e, p);
    PutOtherOperand(op, e, p, u, q);
    InLevelValid(op, Put(e, p, u), q);
    var c, d := Child(e, p[0]), Child(e, q[0]);
    if p[0] == q[0] {
      ReplacePair(env, op, c, p[1..], q[1..], x);
    } else {
      var a, b := OperandAt(op, c, p[1..]), OperandAt(op, d, q[1..]);
      OperandValue(env, op, c, p[1..], u);
      OperandValue(env, op, d, q[1..], x);
      ReplaceAcross(op, Eval(env, a), Rest(env, op, c, p[1..]), Eval(env, b), Rest(env, op, d, q[1..]), Eval(env, x));
    }
  }

  lemma OperandValue(env: Env, op: Op, e: Expr, p: Path, x: Expr)
    requires InLevel(op, e, p)
    ensures ValidPath(e, p)
    ensures Eval(env, e) == Combine(op, Eval(env, OperandAt(op, e, p)), Rest(env, op, e, p))
    ensures Eval(env, Put(e, p, x)) == Combine(op, Eval(env, x), Rest(env, op, e, p))
  {
    InLevelValid(op, e, p);
    SplitOperand(env, op, e, p, x);
    SplitOperand(env, op, e, p, At(e, p));
    PutAt(e, p, x);
  }

  lemma {:induction false} NeutralBelow(op: Op, e: Expr, p: Path)
    requires InLevel(op, e, p) && HasNeutral(OperandAt(op, e, p))
    ensures HasNeutral(e)
  {
    if p != [] { NeutralBelow(op, Child(e, p[0]), p[1..]); }
  }
}
