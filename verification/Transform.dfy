/** expr_transform, expr_trans_bool and expr_trans_compare (scripts/config/expr.c). */
module Transform {
  import opened Expressions
  import opened Slots
  import opened Dups
  import Joins

  function Dual(op: Op): Op { if op == AndOp then OrOp else AndOp }

  function Negated(rel: Rel): Rel {
    match rel
    case Eq => Ne case Ne => Eq
    case Lt => Ge case Ge => Lt
    case Le => Gt case Gt => Le
  }

  predicate Fixed(s: Symbol) { s in {SymYes, SymMod, SymNo} }

  /** A bool symbol tested with = or != against y, m or n. */
  predicate BoolTest(t: SymbolTable, e: Expr) {
    e.Compare? && (e.rel == Eq || e.rel == Ne) && TypeOf(t, e.lhs) == Boolean && Fixed(e.rhs)
  }

  /** bool A = y is A, A = n is !A, A = m is n; and the other way round for !=. */
  function SimplifyTest(t: SymbolTable, e: Expr): (r: Expr)
    requires e.Compare?
  {
    if !BoolTest(t, e) then e
    else if e.rhs == SymMod then Sym(if e.rel == Eq then SymNo else SymYes)
    else if (e.rel == Eq) == (e.rhs == SymNo) then Not(Sym(e.lhs))
    else Sym(e.lhs)
  }

  function NegatedSymbol(s: Symbol): Expr {
    match s
    case SymYes => Sym(SymNo)
    case SymMod => Sym(SymMod)
    case SymNo => Sym(SymYes)
    case _ => Not(Sym(s))
  }

  /** De Morgan steps keep the weight below that of the negation they start from. */
  function Weight(e: Expr): (w: nat)
    ensures w >= 1
  {
    match e
    case Sym(_) => 1
    case Compare(_, _, _) => 3
    case Not(a) => 2 * Weight(a)
    case Bin(_, l, r) => 1 + Weight(l) + Weight(r)
  }

  /** expr_transform: children first, then the node itself; !! and De Morgan start over. */
  function Transformed(t: SymbolTable, e: Expr): (r: Expr)
    ensures Weight(r) <= Weight(e)
    decreases Weight(e), 1
  {
    match e
    case Sym(_) => e
    case Compare(_, _, _) => SimplifyTest(t, e)
    case Not(a) => TransformedNot(t, Transformed(t, a))
    case Bin(op, l, r) => Bin(op, Transformed(t, l), Transformed(t, r))
  }

  /** The E_NOT case, for an operand that has been transformed. */
  function TransformedNot(t: SymbolTable, a: Expr): (r: Expr)
    ensures Weight(r) <= 2 * Weight(a)
    decreases 2 * Weight(a), 0
  {
    match a
    case Not(x) => Transformed(t, x)
    case Compare(rel, l, r) => Compare(Negated(rel), l, r)
    case Bin(op, l, r) =>
      assert Weight(Not(l)) == 2 * Weight(l) && Weight(Not(r)) == 2 * Weight(r);
      Transformed(t, Bin(Dual(op), Not(l), Not(r)))
    case Sym(s) => NegatedSymbol(s)
  }

  // ----- one-pass reference: negation normal form -----

  function Negative(leaf: Expr): Expr {
    match leaf
    case Sym(s) => NegatedSymbol(s)
    case Compare(rel, l, r) => Compare(Negated(rel), l, r)
    case Not(a) => a
    case Bin(_, _, _) => leaf
  }

  function Nnf(t: SymbolTable, neg: bool, e: Expr): Expr
    decreases e
  {
    match e
    case Sym(_) => if neg then Negative(e) else e
    case Compare(_, _, _) => if neg then Negative(SimplifyTest(t, e)) else SimplifyTest(t, e)
    case Not(a) => Nnf(t, !neg, a)
    case Bin(op, l, r) => Bin(if neg then Dual(op) else op, Nnf(t, neg, l), Nnf(t, neg, r))
  }

  lemma {:induction false} NnfNnf(t: SymbolTable, neg: bool, pos: bool, e: Expr)
    ensures Nnf(t, neg, Nnf(t, pos, e)) == Nnf(t, neg != pos, e)
    decreases e
  {
    match e
    case Not(a) => NnfNnf(t, neg, !pos, a);
    case Bin(_, l, r) => NnfNnf(t, neg, pos, l); NnfNnf(t, neg, pos, r);
    case _ =>
  }

  /** The rewriting that restarts itself computes the one-pass normal form. */
  lemma {:induction false} TransformedIsNnf(t: SymbolTable, e: Expr)
    ensures Transformed(t, e) == Nnf(t, false, e)
    decreases Weight(e), 1
  {
    match e
    case Not(a) =>
      TransformedIsNnf(t, a);
      NnfNormal(t, false, a);
      TransformedNotIsNnf(t, Transformed(t, a));
      NnfNnf(t, true, false, a);
    case Bin(_, l, r) => TransformedIsNnf(t, l); TransformedIsNnf(t, r);
    case _ =>
  }

  lemma {:induction false} TransformedNotIsNnf(t: SymbolTable, a: Expr)
    requires NormalForm(t, a)
    ensures TransformedNot(t, a) == Nnf(t, true, a)
    decreases 2 * Weight(a), 0
  {
    match a
    case Bin(op, l, r) =>
      assert Weight(Not(l)) == 2 * Weight(l) && Weight(Not(r)) == 2 * Weight(r);
      TransformedIsNnf(t, Bin(Dual(op), Not(l), Not(r)));
    case _ =>
  }

  /** Negations only directly above a symbol other than y, m and n, and no bool test left. */
  predicate NormalForm(t: SymbolTable, e: Expr) {
    match e
    case Sym(_) => true
    case Compare(_, _, _) => !BoolTest(t, e)
    case Not(a) => a.Sym? && !Fixed(a.sym)
    case Bin(_, l, r) => NormalForm(t, l) && NormalForm(t, r)
  }

  lemma {:induction false} NnfNormal(t: SymbolTable, neg: bool, e: Expr)
    ensures NormalForm(t, Nnf(t, neg, e))
    decreases e
  {
    match e
    case Not(a) => NnfNormal(t, !neg, a);
    case Bin(_, l, r) => NnfNormal(t, neg, l); NnfNormal(t, neg, r);
    case _ =>
  }

  lemma SimplifyTestSound(t: SymbolTable, env: Env, e: Expr)
    requires Consistent(t, env) && e.Compare?
    ensures Eval(env, SimplifyTest(t, e)) == Eval(env, e)
  {
    if BoolTest(t, e) {
      assert env.order(Config(e.lhs.id), e.rhs) == 0 <==> LevelOf(t, e.rhs) == Some(env.value(e.lhs.id));
    }
  }

  lemma {:induction false} NnfSound(t: SymbolTable, env: Env, neg: bool, e: Expr)
    requires Consistent(t, env)
    ensures Eval(env, Nnf(t, neg, e)) == if neg then 2 - Eval(env, e) else Eval(env, e)
    decreases e
  {
    match e
    case Not(a) => NnfSound(t, env, !neg, a);
    case Bin(_, l, r) => NnfSound(t, env, neg, l); NnfSound(t, env, neg, r);
    case Compare(_, _, _) => SimplifyTestSound(t, env, e);
    case _ =>
  }

  lemma TransformedSound(t: SymbolTable, e: Expr)
    ensures SameValue(t, e, Transformed(t, e))
  {
    TransformedIsNnf(t, e);
    forall env | Consistent(t, env) ensures Eval(env, e) == Eval(env, Transformed(t, e)) {
      NnfSound(t, env, false, e);
    }
  }

  lemma TransformedNormal(t: SymbolTable, e: Expr)
    ensures NormalForm(t, Transformed(t, e))
    ensures NotsOverSymbols(Transformed(t, e))
  {
    TransformedIsNnf(t, e);
    NnfNormal(t, false, e);
    NormalNots(t, Transformed(t, e));
  }

  lemma {:induction false} NormalNots(t: SymbolTable, e: Expr)
    requires NormalForm(t, e)
    ensures NotsOverSymbols(e)
  {
    if e.Bin? { NormalNots(t, e.left); NormalNots(t, e.right); }
  }

  /** A tree in normal form is left alone, so transforming twice changes nothing. */
  lemma {:induction false} NormalFormFixed(t: SymbolTable, e: Expr)
    requires NormalForm(t, e)
    ensures Transformed(t, e) == e
  {
    if e.Bin? { NormalFormFixed(t, e.left); NormalFormFixed(t, e.right); }
  }

  lemma TransformedIdempotent(t: SymbolTable, e: Expr)
    ensures Transformed(t, Transformed(t, e)) == Transformed(t, e)
  {
    TransformedNormal(t, e);
    NormalFormFixed(t, Transformed(t, e));
  }

  lemma {:induction false} PlainNnf(t: SymbolTable, neg: bool, e: Expr)
    requires PlainConstants(t, e)
    ensures PlainConstants(t, Nnf(t, neg, e))
    decreases e
  {
    match e
    case Not(a) => PlainNnf(t, !neg, a);
    case Bin(_, l, r) => PlainNnf(t, neg, l); PlainNnf(t, neg, r);
    case _ =>
  }

  /** expr_transform on the tree that the pointer (s, p) points to, in place. */
  method TransformAt(t: SymbolTable, s: Slot, p: Path)
    requires ValidPath(s.e, p)
    modifies s
    ensures s.e == Put(old(s.e), p, Transformed(t, At(old(s.e), p)))
    decreases Weight(At(s.e, p)), 1
  {
    ghost var e0 := s.e;
    match At(s.e, p)
    case Sym(_) =>
      PutAt(s.e, p, s.e);
    case Compare(_, _, _) =>
      s.e := Put(s.e, p, SimplifyTest(t, At(s.e, p)));
    case Not(a) =>
      AtStep(s.e, p, false, Transformed(t, a));
      TransformAt(t, s, p + [false]);
      assert s.e == Put(e0, p, Not(Transformed(t, a)));
      PutAt(e0, p, Not(Transformed(t, a)));
      TransformNot(t, s, p);
      PutPut(e0, p, Not(Transformed(t, a)), Transformed(t, Not(a)));
    case Bin(op, l, r) =>
      AtStep(s.e, p, false, Transformed(t, l));
      TransformAt(t, s, p + [false]);
      var half := Bin(op, Transformed(t, l), r);
      assert s.e == Put(e0, p, half);
      PutAt(e0, p, half);
      AtStep(s.e, p, true, Transformed(t, r));
      TransformAt(t, s, p + [true]);
      PutPut(e0, p, half, Bin(op, Transformed(t, l), Transformed(t, r)));
  }

  method TransformNot(t: SymbolTable, s: Slot, p: Path)
    requires ValidPath(s.e, p) && At(s.e, p).Not?
    modifies s
    ensures s.e == Put(old(s.e), p, TransformedNot(t, At(old(s.e), p).arg))
    decreases 2 * Weight(At(s.e, p).arg), 0
  {
    ghost var e0 := s.e;
    match At(s.e, p).arg
    case Not(x) =>
      PutAt(e0, p, x);
      PutPut(e0, p, x, Transformed(t, x));
      s.e := Put(s.e, p, x);
      TransformAt(t, s, p);
    case Compare(rel, l, r) =>
      s.e := Put(s.e, p, Compare(Negated(rel), l, r));
    case Bin(op, l, r) =>
      var pushed := Bin(Dual(op), Not(l), Not(r));
      PutAt(e0, p, pushed);
      PutPut(e0, p, pushed, Transformed(t, pushed));
      s.e := Put(s.e, p, pushed);
      TransformAt(t, s, p);
    case Sym(sym) =>
      s.e := Put(s.e, p, NegatedSymbol(sym));
  }

  // ----- expr_trans_bool -----

  /** A != n becomes A for a tristate A. */
  function TransBool(t: SymbolTable, e: Expr): Expr {
    match e
    case Sym(_) => e
    case Compare(rel, l, r) => if rel == Ne && TypeOf(t, l) == Tristates && r == SymNo then Sym(l) else e
    case Not(a) => Not(TransBool(t, a))
    case Bin(op, l, r) => Bin(op, TransBool(t, l), TransBool(t, r))
  }

  /** Below no negation, the rewriting never raises the value and keeps whether it is n. */
  lemma {:induction false} TransBoolBelow(t: SymbolTable, env: Env, e: Expr)
    requires Consistent(t, env) && NotsOverSymbols(e)
    ensures Eval(env, TransBool(t, e)) <= Eval(env, e)
    ensures Eval(env, TransBool(t, e)) == NO <==> Eval(env, e) == NO
  {
    match e
    case Bin(_, l, r) => TransBoolBelow(t, env, l); TransBoolBelow(t, env, r);
    case Compare(rel, l, r) =>
      if rel == Ne && TypeOf(t, l) == Tristates && r == SymNo {
        assert env.order(Config(l.id), SymNo) == 0 <==> LevelOf(t, SymNo) == Some(env.value(l.id));
      }
    case _ =>
  }

  predicate PresenceTest(t: SymbolTable, e: Expr) {
    e.Compare? && e.rel == Ne && e.rhs == SymNo && TypeOf(t, e.lhs) == Tristates
  }

  /** A condition whose tests have all been rewritten is left alone; nothing else becomes shorter
      or longer. */
  lemma {:induction false} TransBoolFixed(t: SymbolTable, e: Expr)
    ensures TransBool(t, TransBool(t, e)) == TransBool(t, e) && Size(TransBool(t, e)) == Size(e)
    ensures forall p :: ValidPath(e, p) ==> ValidPath(TransBool(t, e), p) && !PresenceTest(t, At(TransBool(t, e), p))
  {
    match e
    case Not(a) =>
      TransBoolFixed(t, a);
      forall p | ValidPath(e, p) ensures ValidPath(TransBool(t, e), p) && !PresenceTest(t, At(TransBool(t, e), p)) {
        if p != [] { assert ValidPath(a, p[1..]); }
      }
    case Bin(_, l, r) =>
      TransBoolFixed(t, l);
      TransBoolFixed(t, r);
      forall p | ValidPath(e, p) ensures ValidPath(TransBool(t, e), p) && !PresenceTest(t, At(TransBool(t, e), p)) {
        if p != [] { assert ValidPath(Child(e, p[0]), p[1..]); }
      }
    case _ =>
  }

  /** Under a negation it can raise the value: !(A != n) with A = m goes from n to m. */
  lemma TransBoolRaises(t: SymbolTable, env: Env, i: nat)
    requires Consistent(t, env) && t.kind(i) == Tristates && env.value(i) == MOD
    ensures Eval(env, Not(Compare(Ne, Config(i), SymNo))) == NO
    ensures Eval(env, TransBool(t, Not(Compare(Ne, Config(i), SymNo)))) == MOD
  {
    assert env.order(Config(i), SymNo) == 0 <==> LevelOf(t, SymNo) == Some(env.value(i));
  }

  /** expr_trans_bool in place. */
  method TransBoolInPlace(t: SymbolTable, s: Slot, p: Path)
    requires ValidPath(s.e, p)
    modifies s
    ensures s.e == Put(old(s.e), p, TransBool(t, At(old(s.e), p)))
    decreases Size(At(s.e, p))
  {
    ghost var e0 := s.e;
    match At(s.e, p)
    case Sym(_) =>
      PutAt(s.e, p, s.e);
    case Compare(rel, l, r) =>
      PutAt(s.e, p, At(s.e, p));
      if rel == Ne && TypeOf(t, l) == Tristates && r == SymNo {
        s.e := Put(s.e, p, Sym(l));
      }
    case Not(a) =>
      AtStep(s.e, p, false, TransBool(t, a));
      TransBoolInPlace(t, s, p + [false]);
    case Bin(op, l, r) =>
      AtStep(s.e, p, false, TransBool(t, l));
      TransBoolInPlace(t, s, p + [false]);
      var half := Bin(op, TransBool(t, l), r);
      assert s.e == Put(e0, p, half);
      PutAt(e0, p, half);
      AtStep(s.e, p, true, TransBool(t, r));
      TransBoolInPlace(t, s, p + [true]);
      PutPut(e0, p, half, TransBool(t, Bin(op, l, r)));
  }

  // ----- expr_trans_compare -----

  /** Comparisons of e with y, m or n pushed down to its symbols. With m, the && and || cases of
      the original build the two halves and then drop them. */
  function TransCompare(e: Expr, rel: Rel, sym: Symbol): Expr
    requires (rel == Eq || rel == Ne) && Fixed(sym)
  {
    match e
    case Bin(op, l, r) =>
      var e1 := TransCompare(l, Eq, sym);
      var e2 := TransCompare(r, Eq, sym);
      var both := if sym == SymYes then Bin(op, e1, e2) else if sym == SymNo then Bin(Dual(op), e1, e2) else e;
      if rel == Ne then Not(both) else both
    case Not(a) => TransCompare(a, Negated(rel), sym)
    case Compare(_, _, _) =>
      if sym == SymMod then Sym(if rel == Eq then SymNo else SymYes)
      else if (rel == Eq) == (sym == SymYes) then e
      else Not(e)
    case Sym(s) => Compare(rel, s, sym)
  }

  /** e read with two values only: a symbol counts as true when it is at least 'least'. */
  predicate Reads(env: Env, e: Expr, least: Tristate) {
    match e
    case Sym(s) => ValueOf(env, s) >= least
    case Compare(_, _, _) => Eval(env, e) == YES
    case Not(a) => !Reads(env, a, least)
    case Bin(op, l, r) =>
      if op == AndOp then Reads(env, l, least) && Reads(env, r, least) else Reads(env, l, least) || Reads(env, r, least)
  }

  /** Every symbol leaf is bool, tristate, or one of y, m and n. */
  predicate TypedLeaves(t: SymbolTable, e: Expr) {
    match e
    case Sym(s) => Fixed(s) || Switch(TypeOf(t, s))
    case Compare(_, _, _) => true
    case Not(a) => TypedLeaves(t, a)
    case Bin(_, l, r) => TypedLeaves(t, l) && TypedLeaves(t, r)
  }

  lemma LeafCompared(t: SymbolTable, env: Env, s: Symbol, c: Symbol)
    requires Consistent(t, env) && (Fixed(s) || Switch(TypeOf(t, s))) && Fixed(c)
    ensures env.order(s, c) == 0 <==> ValueOf(env, s) == ValueOf(env, c)
  {
    if s.Config? {
      assert env.order(Config(s.id), c) == 0 <==> LevelOf(t, c) == Some(env.value(s.id));
    }
  }

  /** What the comparison with n and the comparison with y compute, on every input: two two-valued
      readings of e. */
  lemma {:induction false} TransCompareReads(t: SymbolTable, env: Env, e: Expr, rel: Rel)
    requires Consistent(t, env) && TypedLeaves(t, e) && (rel == Eq || rel == Ne)
    ensures Eval(env, TransCompare(e, rel, SymNo)) == if Reads(env, e, MOD) == (rel == Ne) then YES else NO
    ensures Eval(env, TransCompare(e, rel, SymYes)) == if Reads(env, e, YES) == (rel == Eq) then YES else NO
  {
    match e
    case Bin(_, l, r) => TransCompareReads(t, env, l, Eq); TransCompareReads(t, env, r, Eq);
    case Not(a) => TransCompareReads(t, env, a, Negated(rel));
    case Sym(s) => LeafCompared(t, env, s, SymNo); LeafCompared(t, env, s, SymYes);
    case _ =>
  }

  /** Comparing with m leaves an && or || as it is, or negates it: right exactly when its value is m
      nowhere but where it should be, which e = y already shows it is not. */
  lemma TransCompareMod(env: Env, e: Expr)
    requires e.Bin?
    ensures TransCompare(e, Eq, SymMod) == e && TransCompare(e, Ne, SymMod) == Not(e)
    ensures Eval(env, TransCompare(e, Eq, SymMod)) == YES <==> Eval(env, e) == YES
    ensures (Eval(env, TransCompare(e, Eq, SymMod)) == YES <==> Eval(env, e) == MOD) <==> Eval(env, e) == NO
  {
  }

  /** 'polarity': every symbol that could be m stands under an even number of negations (odd when
      the reading starts below a negation). */
  predicate Positive(t: SymbolTable, e: Expr, positive: bool) {
    match e
    case Sym(s) => positive || (s != SymMod && (Fixed(s) || TypeOf(t, s) != Tristates))
    case Compare(_, _, _) => true
    case Not(a) => Positive(t, a, !positive)
    case Bin(_, l, r) => Positive(t, l, positive) && Positive(t, r, positive)
  }

  lemma {:induction false} PositiveReads(t: SymbolTable, env: Env, e: Expr, positive: bool)
    requires Consistent(t, env) && TypedLeaves(t, e) && Positive(t, e, positive)
    ensures Reads(env, e, MOD) <==> (if positive then Eval(env, e) != NO else Eval(env, e) == YES)
    ensures Reads(env, e, YES) <==> (if positive then Eval(env, e) == YES else Eval(env, e) != NO)
  {
    match e
    case Not(a) => PositiveReads(t, env, a, !positive);
    case Bin(_, l, r) => PositiveReads(t, env, l, positive); PositiveReads(t, env, r, positive);
    case _ =>
  }

  /** Where no symbol that can be m stands under an odd number of negations, the comparisons with n
      and with y are answered right under every assignment. */
  lemma TransCompareExact(t: SymbolTable, env: Env, e: Expr)
    requires Consistent(t, env) && TypedLeaves(t, e) && Positive(t, e, true)
    ensures Eval(env, TransCompare(e, Ne, SymNo)) == if Eval(env, e) != NO then YES else NO
    ensures Eval(env, TransCompare(e, Eq, SymNo)) == if Eval(env, e) == NO then YES else NO
    ensures Eval(env, TransCompare(e, Eq, SymYes)) == if Eval(env, e) == YES then YES else NO
    ensures Eval(env, TransCompare(e, Ne, SymYes)) == if Eval(env, e) != YES then YES else NO
  {
    TransCompareReads(t, env, e, Ne);
    TransCompareReads(t, env, e, Eq);
    PositiveReads(t, env, e, true);
  }

  /** A negated symbol is compared exactly under every assignment if and only if it cannot be m. */
  lemma NegatedSymbolExact(t: SymbolTable, s: Symbol)
    requires Switch(TypeOf(t, s))
    ensures (forall env :: Consistent(t, env) ==>
               (Eval(env, TransCompare(Not(Sym(s)), Ne, SymNo)) == YES <==> Eval(env, Not(Sym(s))) != NO))
            <==> TypeOf(t, s) == Boolean
  {
    if TypeOf(t, s) == Boolean {
      forall env | Consistent(t, env)
        ensures Eval(env, TransCompare(Not(Sym(s)), Ne, SymNo)) == YES <==> Eval(env, Not(Sym(s))) != NO
      {
        TransCompareExact(t, env, Not(Sym(s)));
      }
    } else {
      var env := Joins.Witness(t, s, MOD);
      assert Consistent(t, env);
      TransCompareReads(t, env, Not(Sym(s)), Ne);
    }
  }

  // ----- expr_contains_symbol and expr_depends_symbol -----

  predicate Contains(e: Expr, s: Symbol) {
    match e
    case Sym(x) => x == s
    case Compare(_, l, r) => l == s || r == s
    case Not(a) => Contains(a, s)
    case Bin(_, l, r) => Contains(l, s) || Contains(r, s)
  }

  predicate Depends(e: Expr, s: Symbol) {
    match e
    case Sym(x) => x == s
    case Compare(rel, l, r) => l == s && ((rel == Eq && (r == SymYes || r == SymMod)) || (rel == Ne && r == SymNo))
    case Not(_) => false
    case Bin(op, l, r) => op == AndOp && (Depends(l, s) || Depends(r, s))
  }

  /** A symbol an expression does not contain cannot influence its value. */
  lemma {:induction false} ContainsComplete(env: Env, env': Env, e: Expr, s: Symbol)
    requires !Contains(e, s)
    requires forall x: Symbol :: x != s ==> ValueOf(env, x) == ValueOf(env', x)
    requires forall x: Symbol, y: Symbol :: x != s && y != s ==> env.order(x, y) == env'.order(x, y)
    ensures Eval(env, e) == Eval(env', e)
  {
    match e
    case Not(a) => ContainsComplete(env, env', a, s);
    case Bin(_, l, r) => ContainsComplete(env, env', l, s); ContainsComplete(env, env', r, s);
    case _ =>
  }

  /** An expression that depends on s is n whenever s is. */
  lemma {:induction false} DependsSound(t: SymbolTable, env: Env, e: Expr, s: Symbol)
    requires Consistent(t, env) && Switch(TypeOf(t, s)) && Depends(e, s) && Eval(env, e) != NO
    ensures ValueOf(env, s) != NO
  {
    match e
    case Bin(_, l, r) => if Depends(l, s) { DependsSound(t, env, l, s); } else { DependsSound(t, env, r, s); }
    case Compare(_, l, r) =>
      assert env.order(Config(l.id), r) == 0 <==> LevelOf(t, r) == Some(env.value(l.id));
    case _ =>
  }

  /** What expr_depends_symbol accepts as an operand: s itself, or a test that fails when s is n. */
  predicate Needs(e: Expr, s: Symbol) {
    e in {Sym(s), Compare(Eq, s, SymYes), Compare(Eq, s, SymMod), Compare(Ne, s, SymNo)}
  }

  /** It accepts an expression exactly when some operand of its && level is of that kind. */
  lemma {:induction false} DependsExact(e: Expr, s: Symbol)
    ensures Depends(e, s) <==> exists p :: Operand(AndOp, e, p) && Needs(OperandAt(AndOp, e, p), s)
  {
    if IsBin(AndOp, e) {
      DependsExact(e.left, s);
      DependsExact(e.right, s);
      if Depends(e.left, s) {
        var p :| Operand(AndOp, e.left, p) && Needs(OperandAt(AndOp, e.left, p), s);
        BelowOperand(AndOp, e, false, p);
      }
      if Depends(e.right, s) {
        var p :| Operand(AndOp, e.right, p) && Needs(OperandAt(AndOp, e.right, p), s);
        BelowOperand(AndOp, e, true, p);
      }
      if p :| Operand(AndOp, e, p) && Needs(OperandAt(AndOp, e, p), s) {
        assert Operand(AndOp, Child(e, p[0]), p[1..]);
      }
    } else {
      assert Operand(AndOp, e, []) && OperandAt(AndOp, e, []) == e;
      forall p | Operand(AndOp, e, p) ensures p == [] { }
    }
  }

  lemma BelowOperand(op: Op, e: Expr, d: bool, p: Path)
    requires IsBin(op, e) && Operand(op, Child(e, d), p)
    ensures Operand(op, e, [d] + p) && OperandAt(op, e, [d] + p) == OperandAt(op, Child(e, d), p)
  {
    assert ([d] + p)[1..] == p;
    InLevelValid(op, e, [d] + p);
  }
}
