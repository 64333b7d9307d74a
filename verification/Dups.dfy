/** expr_eliminate_dups (scripts/config/expr.c): joining every pair of operands of every level
    of && and ||, in place, until nothing can be joined. */
module Dups {
  import opened Expressions
  import opened Joins
  import opened Slots

  /** No constant that a tristate symbol is tested against is another spelling of y, m or n. */
  predicate PlainConstants(t: SymbolTable, e: Expr) {
    match e
    case Sym(_) => true
    case Compare(_, l, r) => TypeOf(t, l) == Tristates && r.Quoted? ==> LevelOf(t, r) == None
    case Not(a) => PlainConstants(t, a)
    case Bin(_, l, r) => PlainConstants(t, l) && PlainConstants(t, r)
  }

  /** Negations stand directly above symbols only, as expr_transform leaves them. */
  predicate NotsOverSymbols(e: Expr) {
    match e
    case Not(a) => a.Sym?
    case Bin(_, l, r) => NotsOverSymbols(l) && NotsOverSymbols(r)
    case _ => true
  }

  lemma {:induction false} NotsAt(op: Op, e: Expr, p: Path, x: Expr)
    requires InLevel(op, e, p) && NotsOverSymbols(e)
    ensures ValidPath(e, p) && NotsOverSymbols(At(e, p))
    ensures NotsOverSymbols(x) ==> NotsOverSymbols(Put(e, p, x))
  {
    InLevelValid(op, e, p);
    if p != [] { NotsAt(op, Child(e, p[0]), p[1..], x); }
  }

  lemma {:induction false} NotsYn(e: Expr)
    requires NotsOverSymbols(e)
    ensures NotsOverSymbols(EliminateYn(e))
  {
    if e.Bin? {
      NotsYn(e.left);
      NotsYn(e.right);
    }
  }

  lemma NotsJoin(t: SymbolTable, op: Op, e1: Expr, e2: Expr)
    requires NotsOverSymbols(e1) && NotsOverSymbols(e2) && Join(t, op, e1, e2).Some?
    ensures NotsOverSymbols(Join(t, op, e1, e2).value)
  {
  }

  /** No two operands of one level of e can be joined, and the same holds inside each operand. */
  ghost predicate Irreducible(t: SymbolTable, e: Expr)
    decreases Size(e)
  {
    e.Bin? ==>
      && (forall p, q :: Operand(e.op, e, p) && Operand(e.op, e, q) && p != q ==>
            Join(t, e.op, OperandAt(e.op, e, p), OperandAt(e.op, e, q)).None?)
      && (forall p :: Operand(e.op, e, p) ==> Irreducible(t, OperandAt(e.op, e, p)))
  }

  lemma {:induction false} PlainAt(t: SymbolTable, e: Expr, p: Path, x: Expr)
    requires PlainConstants(t, e) && ValidPath(e, p)
    ensures PlainConstants(t, At(e, p))
    ensures PlainConstants(t, x) ==> PlainConstants(t, Put(e, p, x))
  {
    if p != [] { PlainAt(t, Child(e, p[0]), p[1..], x); }
  }

  lemma {:induction false} PlainYn(t: SymbolTable, e: Expr)
    requires PlainConstants(t, e)
    ensures PlainConstants(t, EliminateYn(e))
  {
    if e.Bin? {
      PlainYn(t, e.left);
      PlainYn(t, e.right);
    }
  }

  lemma PlainJoin(t: SymbolTable, op: Op, e1: Expr, e2: Expr)
    requires PlainConstants(t, e1) && PlainConstants(t, e2)
    ensures !Aliased(t, op, e1, e2)
    ensures Join(t, op, e1, e2).Some? ==> PlainConstants(t, Join(t, op, e1, e2).value)
  {
  }

  lemma PlainPair(t: SymbolTable, op: Op, e: Expr, p: Path, q: Path)
    requires PlainConstants(t, e) && InLevel(op, e, p) && InLevel(op, e, q)
    ensures !Aliased(t, op, OperandAt(op, e, p), OperandAt(op, e, q))
  {
    InLevelValid(op, e, p);
    InLevelValid(op, e, q);
    PlainAt(t, e, p, e);
    PlainAt(t, e, q, e);
    PlainJoin(t, op, OperandAt(op, e, p), OperandAt(op, e, q));
  }

  /** One join: the first operand becomes the neutral constant, the second the joined one. The
      value is kept unless the join is one of those that are not exact. */
  lemma JoinStep(t: SymbolTable, op: Op, e: Expr, p: Path, q: Path)
    requires Operand(op, e, p) && Operand(op, e, q) && p != q
    requires Join(t, op, OperandAt(op, e, p), OperandAt(op, e, q)).Some?
    ensures ValidPath(e, p) && ValidPath(Put(e, p, Sym(Neutral(op))), q)
    ensures var x := Join(t, op, OperandAt(op, e, p), OperandAt(op, e, q)).value;
            var f := Put(Put(e, p, Sym(Neutral(op))), q, x);
            && (PlainConstants(t, e) ==> PlainConstants(t, f))
            && (!Aliased(t, op, OperandAt(op, e, p), OperandAt(op, e, q)) ==> SameValue(t, e, f))
            && Size(f) <= Size(e) && ShapeOf(op, f) == ShapeOf(op, e) && HasNeutral(f)
            && (NotsOverSymbols(e) ==> NotsOverSymbols(f))
  {
    var u := Sym(Neutral(op));
    var a, b := OperandAt(op, e, p), OperandAt(op, e, q);
    var x := Join(t, op, a, b).value;
    InLevelValid(op, e, p);
    InLevelValid(op, e, q);
    JoinExact(t, op, a, b);
    JoinSize(t, op, a, b);
    var g := Put(e, p, u);
    PutOperandShape(op, e, p, u);
    PutOtherOperand(op, e, p, u, q);
    InLevelValid(op, g, q);
    PutOperandShape(op, g, q, x);
    PutAt(e, p, u);
    PutAt(g, q, x);
    if PlainConstants(t, e) {
      PlainAt(t, e, p, u);
      PlainAt(t, e, q, u);
      PlainJoin(t, op, a, b);
      PlainAt(t, g, q, x);
    }
    var f := Put(g, q, x);
    PutOtherOperand(op, g, q, x, p);
    NeutralOperand(op, f, p);
    if NotsOverSymbols(e) {
      NotsAt(op, e, p, u);
      NotsAt(op, e, q, u);
      NotsJoin(t, op, a, b);
      NotsAt(op, g, q, x);
    }
    if !Aliased(t, op, a, b) {
      forall env | Consistent(t, env) ensures Eval(env, e) == Eval(env, f) {
        ReplacePair(env, op, e, p, q, x);
      }
    }
  }

  lemma {:induction false} NeutralOperand(op: Op, e: Expr, p: Path)
    requires Operand(op, e, p) && p != [] && OperandAt(op, e, p) == Sym(Neutral(op))
    ensures HasNeutral(e)
  {
    InLevelValid(op, e, p);
    if |p| > 1 { NeutralOperand(op, Child(e, p[0]), p[1..]); }
  }

  /** Writing the result of a nested pass back into its operand. */
  lemma NestedStep(t: SymbolTable, op: Op, e: Expr, p: Path, x: Expr)
    requires Operand(op, e, p)
    requires PlainConstants(t, OperandAt(op, e, p)) ==> SameValue(t, OperandAt(op, e, p), x) && PlainConstants(t, x)
    requires Size(x) <= Size(OperandAt(op, e, p)) && !IsBin(op, x)
    ensures ValidPath(e, p)
    ensures var f := Put(e, p, x);
            && (PlainConstants(t, e) ==> SameValue(t, e, f) && PlainConstants(t, f)) && Size(f) <= Size(e)
            && ShapeOf(op, f) == ShapeOf(op, e) && Operand(op, f, p) && OperandAt(op, f, p) == x
            && (HasNeutral(x) ==> HasNeutral(f))
            && ((NotsOverSymbols(OperandAt(op, e, p)) ==> NotsOverSymbols(x)) ==> NotsOverSymbols(e) ==>
              NotsOverSymbols(f))
            && (x == OperandAt(op, e, p) ==> f == e)
  {
    InLevelValid(op, e, p);
    PutOperandShape(op, e, p, x);
    PutAt(e, p, x);
    if HasNeutral(x) { NeutralBelow(op, Put(e, p, x), p); }
    if NotsOverSymbols(e) { NotsAt(op, e, p, x); }
    if PlainConstants(t, e) {
      PlainAt(t, e, p, x);
      forall env | Consistent(t, env) ensures Eval(env, e) == Eval(env, Put(e, p, x)) {
        PutSameValue(env, e, p, x);
      }
    }
  }

  /** Every operand below p has been compared with every other operand below q, in vain. */
  ghost predicate Compared(t: SymbolTable, op: Op, e: Expr, p: Path, q: Path) {
    forall a, b :: Operand(op, e, a) && Operand(op, e, b) && p <= a && q <= b && a != b ==>
      Join(t, op, OperandAt(op, e, a), OperandAt(op, e, b)).None? && Irreducible(t, OperandAt(op, e, a))
  }

  lemma Longer(p: Path, a: Path)
    requires p <= a
    ensures p == a || p + [false] <= a || p + [true] <= a
  {
    if p != a {
      if a[|p|] { assert p + [true] <= a; } else { assert p + [false] <= a; }
    }
  }

  lemma ComparedSplitLeft(t: SymbolTable, op: Op, e: Expr, p: Path, q: Path)
    requires InLevel(op, e, p) && IsBin(op, OperandAt(op, e, p))
    requires Compared(t, op, e, p + [false], q) && Compared(t, op, e, p + [true], q)
    ensures Compared(t, op, e, p, q)
  {
    forall a, b | Operand(op, e, a) && Operand(op, e, b) && p <= a && q <= b && a != b
      ensures Join(t, op, OperandAt(op, e, a), OperandAt(op, e, b)).None? && Irreducible(t, OperandAt(op, e, a))
    {
      assert p != a && (p + [false] <= a || p + [true] <= a) by { Longer(p, a); }
    }
  }

  lemma ComparedSplitRight(t: SymbolTable, op: Op, e: Expr, p: Path, q: Path)
    requires InLevel(op, e, q) && IsBin(op, OperandAt(op, e, q))
    requires Compared(t, op, e, p, q + [false]) && Compared(t, op, e, p, q + [true])
    ensures Compared(t, op, e, p, q)
  {
    forall a, b | Operand(op, e, a) && Operand(op, e, b) && p <= a && q <= b && a != b
      ensures Join(t, op, OperandAt(op, e, a), OperandAt(op, e, b)).None? && Irreducible(t, OperandAt(op, e, a))
    {
      assert q != b && (q + [false] <= b || q + [true] <= b) by { Longer(q, b); }
    }
  }

  lemma {:induction false} NothingBelowOperand(op: Op, e: Expr, p: Path, a: Path)
    requires Operand(op, e, p) && Operand(op, e, a) && p <= a
    ensures a == p
  {
    if p == [] {
    } else {
      NothingBelowOperand(op, Child(e, p[0]), p[1..], a[1..]);
    }
  }

  lemma ComparedOperands(t: SymbolTable, op: Op, e: Expr, p: Path, q: Path)
    requires Operand(op, e, p) && Operand(op, e, q)
    requires p != q ==>
      Join(t, op, OperandAt(op, e, p), OperandAt(op, e, q)).None? && Irreducible(t, OperandAt(op, e, p))
    ensures Compared(t, op, e, p, q)
  {
    forall a, b | Operand(op, e, a) && Operand(op, e, b) && p <= a && q <= b && a != b
      ensures Join(t, op, OperandAt(op, e, a), OperandAt(op, e, b)).None? && Irreducible(t, OperandAt(op, e, a))
    {
      NothingBelowOperand(op, e, p, a);
      NothingBelowOperand(op, e, q, b);
    }
  }

  lemma ComparedAll(t: SymbolTable, e: Expr)
    requires e.Bin? && Compared(t, e.op, e, [], [])
    ensures Irreducible(t, e)
  {
    forall p, q | Operand(e.op, e, p) && Operand(e.op, e, q) && p != q
      ensures Join(t, e.op, OperandAt(e.op, e, p), OperandAt(e.op, e, q)).None?
    {
      ComparedPair(t, e, p, q);
    }
    forall p | Operand(e.op, e, p) ensures Irreducible(t, OperandAt(e.op, e, p)) {
      var q := OtherOperand(e.op, e, p);
      ComparedPair(t, e, p, q);
    }
  }

  lemma ComparedPair(t: SymbolTable, e: Expr, p: Path, q: Path)
    requires e.Bin? && Compared(t, e.op, e, [], [])
    requires Operand(e.op, e, p) && Operand(e.op, e, q) && p != q
    ensures Join(t, e.op, OperandAt(e.op, e, p), OperandAt(e.op, e, q)).None? && Irreducible(t, OperandAt(e.op, e, p))
  {
    assert [] <= p && [] <= q;
  }

  lemma {:induction false} SomeOperand(op: Op, e: Expr) returns (p: Path)
    ensures Operand(op, e, p)
  {
    if IsBin(op, e) {
      var q := SomeOperand(op, e.left);
      p := [false] + q;
      assert p[1..] == q;
    } else {
      p := [];
    }
  }

  lemma OtherOperand(op: Op, e: Expr, p: Path) returns (q: Path)
    requires IsBin(op, e) && Operand(op, e, p)
    ensures Operand(op, e, q) && q != p
  {
    var r := SomeOperand(op, Child(e, !p[0]));
    q := [!p[0]] + r;
    assert q[1..] == r;
  }

  /** What a pass over (parts of) one level leaves behind: no growth, the same level structure, a
      neutral operand whenever something was joined, and for plain constants the same value. */
  ghost predicate PassResult(t: SymbolTable, op: Op, before: Expr, after: Expr, joined: bool) {
    && (PlainConstants(t, before) ==> SameValue(t, before, after) && PlainConstants(t, after))
    && Size(after) <= Size(before) && ShapeOf(op, after) == ShapeOf(op, before)
    && (joined ==> HasNeutral(after))
    && (!joined ==> after == before)
    && (NotsOverSymbols(before) ==> NotsOverSymbols(after))
  }

  /** A pass over one operand, written back, is a pass over the level. */
  lemma NestedPass(t: SymbolTable, op: Op, e: Expr, p: Path, x: Expr, joined: bool)
    requires Operand(op, e, p) && OperandAt(op, e, p).Bin?
    requires PassResult(t, OperandAt(op, e, p).op, OperandAt(op, e, p), x, joined)
    ensures ValidPath(e, p) && PassResult(t, op, e, Put(e, p, x), joined)
    ensures Operand(op, Put(e, p, x), p) && OperandAt(op, Put(e, p, x), p) == x
    ensures IsBin(op, e) ==> IsBin(op, Put(e, p, x))
    ensures forall q :: Operand(op, e, q) && p != q ==> Operand(op, Put(e, p, x), q)
  {
    InLevelValid(op, e, p);
    assert x.Bin? && x.op == OperandAt(op, e, p).op;
    if PlainConstants(t, e) { PlainAt(t, e, p, x); }
    NestedStep(t, op, e, p, x);
    if joined { NeutralBelow(op, Put(e, p, x), p); }
    forall q | Operand(op, e, q) && p != q ensures Operand(op, Put(e, p, x), q) { PutOtherOperand(op, e, p, x, q); }
  }

  /** So is one join. */
  lemma JoinPass(t: SymbolTable, op: Op, e: Expr, p: Path, q: Path)
    requires Operand(op, e, p) && Operand(op, e, q) && p != q
    requires Join(t, op, OperandAt(op, e, p), OperandAt(op, e, q)).Some?
    ensures ValidPath(e, p) && ValidPath(Put(e, p, Sym(Neutral(op))), q)
    ensures PassResult(t, op, e,
      Put(Put(e, p, Sym(Neutral(op))), q, Join(t, op, OperandAt(op, e, p), OperandAt(op, e, q)).value), true)
  {
    JoinStep(t, op, e, p, q);
    if PlainConstants(t, e) { PlainPair(t, op, e, p, q); }
  }

  lemma PassNothing(t: SymbolTable, op: Op, e: Expr)
    ensures PassResult(t, op, e, e, false)
  {
  }

  lemma OneOperand(t: SymbolTable, e: Expr)
    requires !e.Bin?
    ensures Irreducible(t, e)
  {
  }

  lemma IrreducibleOperands(t: SymbolTable, op: Op, e: Expr, p: Path, q: Path)
    requires Irreducible(t, e) && Operand(op, e, p) && Operand(op, e, q) && p != q && IsBin(op, e)
    ensures Irreducible(t, OperandAt(op, e, p))
    ensures Join(t, op, OperandAt(op, e, p), OperandAt(op, e, q)).None?
  {
  }

  lemma PassThenPass(t: SymbolTable, op: Op, e: Expr, f: Expr, g: Expr, j: bool, k: bool)
    requires PassResult(t, op, e, f, j) && PassResult(t, op, f, g, k)
    ensures PassResult(t, op, e, g, j || k)
  {
  }

  class Optimizer {
    const t: SymbolTable
    var transCount: nat

    constructor (t: SymbolTable)
      ensures this.t == t && transCount == 0
    {
      this.t, transCount := t, 0;
    }

    /** expr_eliminate_dups1(type, ep1, ep2), where both pointers lead into the level at the top
        of one tree; they may be the same pointer. */
    method EliminateDups1(op: Op, s: Slot, p: Path, q: Path)
      requires IsBin(op, s.e)
      requires InLevel(op, s.e, p) && InLevel(op, s.e, q)
      modifies s, `transCount
      ensures transCount >= old(transCount)
      ensures PassResult(t, op, old(s.e), s.e, transCount > old(transCount))
      ensures transCount == old(transCount) ==> Compared(t, op, s.e, p, q)
      ensures Irreducible(t, old(s.e)) ==> transCount == old(transCount)
      decreases Size(s.e), Nodes(ShapeOf(op, OperandAt(op, s.e, p))) + Nodes(ShapeOf(op, OperandAt(op, s.e, q)))
    {
      ghost var e0 := s.e;
      if IsBin(op, OperandAt(op, s.e, p)) {
        InLevelStep(op, s.e, p, false);
        InLevelStep(op, s.e, p, true);
        EliminateDups1(op, s, p + [false], q);
        ghost var c1, e1 := transCount, s.e;
        SameShapeSamePaths(op, e0, e1, p);
        SameShapeSamePaths(op, e0, e1, p + [true]);
        SameShapeSamePaths(op, e0, e1, q);
        EliminateDups1(op, s, p + [true], q);
        PassThenPass(t, op, e0, e1, s.e, c1 > old(transCount), transCount > c1);
        if transCount == old(transCount) { ComparedSplitLeft(t, op, s.e, p, q); }
      } else if IsBin(op, OperandAt(op, s.e, q)) {
        InLevelStep(op, s.e, q, false);
        InLevelStep(op, s.e, q, true);
        EliminateDups1(op, s, p, q + [false]);
        ghost var c1, e1 := transCount, s.e;
        SameShapeSamePaths(op, e0, e1, q);
        SameShapeSamePaths(op, e0, e1, q + [true]);
        SameShapeSamePaths(op, e0, e1, p);
        EliminateDups1(op, s, p, q + [true]);
        PassThenPass(t, op, e0, e1, s.e, c1 > old(transCount), transCount > c1);
        if transCount == old(transCount) { ComparedSplitRight(t, op, s.e, p, q); }
      } else if p == q {
        ComparedOperands(t, op, s.e, p, q);
      } else {
        CompareOperands(op, s, p, q);
      }
    }

    /** The part of expr_eliminate_dups1 for two different operands. */
    method CompareOperands(op: Op, s: Slot, p: Path, q: Path)
      requires IsBin(op, s.e)
      requires Operand(op, s.e, p) && Operand(op, s.e, q) && p != q
      modifies s, `transCount
      ensures transCount >= old(transCount)
      ensures PassResult(t, op, old(s.e), s.e, transCount > old(transCount))
      ensures transCount == old(transCount) ==> Compared(t, op, s.e, p, q)
      ensures Irreducible(t, old(s.e)) ==> transCount == old(transCount)
      decreases Size(s.e), 0
    {
      hide Join, PlainConstants, NotsOverSymbols, SameValue, HasNeutral, Compared, Irreducible;
      ghost var e0 := s.e;
      if Irreducible(t, e0) { IrreducibleOperands(t, op, e0, p, q); }
      var e1 := OperandAt(op, s.e, p);
      InLevelValid(op, s.e, p);
      assert p != [];
      PassNothing(t, op, e0);
      if e1.Bin? {
        var sub := new Slot(e1);
        EliminateDups1(e1.op, sub, [], []);
        NestedPass(t, op, s.e, p, sub.e, transCount > old(transCount));
        s.e := Put(s.e, p, sub.e);
        if transCount == old(transCount) { ComparedAll(t, sub.e); }
      } else {
        OneOperand(t, e1);
      }
      ghost var c1, f := transCount, s.e;
      var tmp := Join(t, op, OperandAt(op, s.e, p), OperandAt(op, s.e, q));
      if tmp.Some? {
        JoinPass(t, op, s.e, p, q);
        s.e := Put(s.e, p, Sym(Neutral(op)));
        s.e := Put(s.e, q, tmp.value);
        transCount := transCount + 1;
      } else {
        PassNothing(t, op, f);
        if transCount == old(transCount) { ComparedOperands(t, op, s.e, p, q); }
      }
      PassThenPass(t, op, e0, f, s.e, c1 > old(transCount), transCount > c1);
    }

    /** expr_eliminate_dups. */
    method EliminateDups(s: Slot)
      modifies s, `transCount
      ensures transCount == old(transCount)
      ensures PlainConstants(t, old(s.e)) ==> SameValue(t, old(s.e), s.e) && PlainConstants(t, s.e)
      ensures Size(s.e) <= Size(old(s.e))
      ensures NotsOverSymbols(old(s.e)) ==> NotsOverSymbols(s.e)
      ensures Irreducible(t, s.e)
      ensures Irreducible(t, old(s.e)) ==> s.e == old(s.e)
    {
      var oldcount := transCount;
      while true
        invariant PlainConstants(t, old(s.e)) ==> SameValue(t, old(s.e), s.e) && PlainConstants(t, s.e)
        invariant Size(s.e) <= Size(old(s.e))
        invariant NotsOverSymbols(old(s.e)) ==> NotsOverSymbols(s.e)
        invariant Irreducible(t, old(s.e)) ==> s.e == old(s.e)
        decreases Size(s.e)
      {
        transCount := 0;
        if s.e.Bin? {
          EliminateDups1(s.e.op, s, [], []);
        }
        if transCount == 0 {
          if s.e.Bin? { ComparedAll(t, s.e); }
          break;
        }
        if PlainConstants(t, s.e) { PlainYn(t, s.e); }
        if NotsOverSymbols(s.e) { NotsYn(s.e); }
        EliminateYnShrinks(s.e);
        forall env | Consistent(t, env) ensures Eval(env, EliminateYn(s.e)) == Eval(env, s.e) {
          EliminateYnSound(env, s.e);
        }
        s.e := EliminateYn(s.e);
      }
      transCount := oldcount;
    }
  }
}
