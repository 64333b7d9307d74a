/** expr_eliminate_yn and expr_eliminate_eq (scripts/config/expr.c) as the in-place rewritings they
    are. */
module InPlace {
  import opened Expressions
  import opened Slots

  /** expr_eliminate_yn on the tree that the pointer (s, p) points to. */
  method EliminateYnAt(s: Slot, p: Path)
    requires ValidPath(s.e, p)
    modifies s
    ensures s.e == Put(old(s.e), p, EliminateYn(At(old(s.e), p)))
    decreases Size(At(s.e, p))
  {
    ghost var e0 := s.e;
    PutAt(s.e, p, At(s.e, p));
    if At(s.e, p).Bin? {
      var op, l, r := At(s.e, p).op, At(s.e, p).left, At(s.e, p).right;
      AtStep(s.e, p, false, EliminateYn(l));
      EliminateYnAt(s, p + [false]);
      var half := Bin(op, EliminateYn(l), r);
      PutAt(e0, p, half);
      AtStep(s.e, p, true, EliminateYn(r));
      EliminateYnAt(s, p + [true]);
      var both := Bin(op, EliminateYn(l), EliminateYn(r));
      PutPut(e0, p, half, both);
      PutAt(e0, p, both);
      var e := At(s.e, p);
      var result := e;
      if e.left == Sym(Absorbing(op)) {
        result := Sym(Absorbing(op));
      } else if e.left == Sym(Neutral(op)) {
        result := e.right;
      } else if e.right == Sym(Absorbing(op)) {
        result := Sym(Absorbing(op));
      } else if e.right == Sym(Neutral(op)) {
        result := e.left;
      }
      s.e := Put(s.e, p, result);
      PutPut(e0, p, both, result);
    }
  }

  /** __expr_eliminate_eq(type, ep1, ep2) for pointers into two different trees. */
  method CancelAt(op: Op, s1: Slot, p1: Path, s2: Slot, p2: Path)
    requires s1 != s2 && ValidPath(s1.e, p1) && ValidPath(s2.e, p2)
    modifies s1, s2
    ensures s1.e == Put(old(s1.e), p1, Cancel(op, At(old(s1.e), p1), At(old(s2.e), p2)).0)
    ensures s2.e == Put(old(s2.e), p2, Cancel(op, At(old(s1.e), p1), At(old(s2.e), p2)).1)
    decreases Size(At(s1.e, p1)) + Size(At(s2.e, p2))
  {
    var e1, e2 := At(s1.e, p1), At(s2.e, p2);
    if IsBin(op, e1) {
      CancelChildren(op, s1, p1, s2, p2);
    } else if IsBin(op, e2) {
      CancelOperands(op, s1, p1, s2, p2);
    } else {
      PutAt(s1.e, p1, e1);
      PutAt(s2.e, p2, e2);
      if !(e1 == e2 && e1 in {Sym(SymYes), Sym(SymNo)}) && ExprEq(e1, e2) {
        s1.e := Put(s1.e, p1, Sym(Neutral(op)));
        s2.e := Put(s2.e, p2, Sym(Neutral(op)));
      }
    }
  }

  /** The recursion into the first tree. */
  method CancelChildren(op: Op, s1: Slot, p1: Path, s2: Slot, p2: Path)
    requires s1 != s2 && ValidPath(s1.e, p1) && ValidPath(s2.e, p2) && IsBin(op, At(s1.e, p1))
    modifies s1, s2
    ensures s1.e == Put(old(s1.e), p1, Cancel(op, At(old(s1.e), p1), At(old(s2.e), p2)).0)
    ensures s2.e == Put(old(s2.e), p2, Cancel(op, At(old(s1.e), p1), At(old(s2.e), p2)).1)
    decreases Size(At(s1.e, p1)) + Size(At(s2.e, p2)), 0
  {
    ghost var t1, t2 := s1.e, s2.e;
    ghost var e1, e2 := At(t1, p1), At(t2, p2);
    ghost var a := Cancel(op, e1.left, e2);
    AtStep(t1, p1, false, a.0);
    CancelAt(op, s1, p1 + [false], s2, p2);
    ghost var half := Bin(op, a.0, e1.right);
    PutAt(t1, p1, half);
    PutAt(t2, p2, a.1);
    ghost var b := Cancel(op, e1.right, a.1);
    AtStep(s1.e, p1, true, b.0);
    CancelAt(op, s1, p1 + [true], s2, p2);
    PutPut(t1, p1, half, Bin(op, a.0, b.0));
    PutPut(t2, p2, a.1, b.1);
  }

  /** The recursion into the second tree, below an operand of the first. */
  method CancelOperands(op: Op, s1: Slot, p1: Path, s2: Slot, p2: Path)
    requires s1 != s2 && ValidPath(s1.e, p1) && ValidPath(s2.e, p2)
    requires !IsBin(op, At(s1.e, p1)) && IsBin(op, At(s2.e, p2))
    modifies s1, s2
    ensures s1.e == Put(old(s1.e), p1, Cancel(op, At(old(s1.e), p1), At(old(s2.e), p2)).0)
    ensures s2.e == Put(old(s2.e), p2, Cancel(op, At(old(s1.e), p1), At(old(s2.e), p2)).1)
    decreases Size(At(s1.e, p1)) + Size(At(s2.e, p2)), 0
  {
    ghost var t1, t2 := s1.e, s2.e;
    ghost var e1, e2 := At(t1, p1), At(t2, p2);
    ghost var a := Cancel(op, e1, e2.left);
    AtStep(t2, p2, false, a.1);
    CancelAt(op, s1, p1, s2, p2 + [false]);
    ghost var half := Bin(op, a.1, e2.right);
    PutAt(t1, p1, a.0);
    PutAt(t2, p2, half);
    ghost var b := Cancel(op, a.0, e2.right);
    AtStep(s2.e, p2, true, b.1);
    CancelAt(op, s1, p1, s2, p2 + [true]);
    PutPut(t1, p1, a.0, b.0);
    PutPut(t2, p2, half, Bin(op, a.1, b.1));
  }

  /** expr_eliminate_eq(ep1, ep2). */
  method EliminateEqInPlace(s1: Slot, s2: Slot)
    requires s1 != s2
    modifies s1, s2
    ensures (s1.e, s2.e) == EliminateEq(old(s1.e), old(s2.e))
  {
    if s1.e.Bin? {
      CancelAt(s1.e.op, s1, [], s2, []);
    }
    if s2.e.Bin? && !IsBin(s2.e.op, s1.e) {
      CancelAt(s2.e.op, s1, [], s2, []);
    }
    EliminateYnAt(s1, []);
    EliminateYnAt(s2, []);
  }
}
