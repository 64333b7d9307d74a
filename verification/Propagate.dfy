/** How menu_finalize (scripts/config/menu.c) pushes the dependencies of menus into the entries
    below them, and decides what belongs into an automatic submenu. */
module Propagate {
  import opened Expressions
  import opened Slots
  import opened Dups
  import opened Transform
  import opened InPlace
  import opened Equality
  import opened Symbols
  import opened Choices

  /** expr_alloc_and and expr_alloc_or: a missing operand is dropped. */
  function Alloc(op: Op, a: Option<Expr>, b: Option<Expr>): Option<Expr> {
    if a.None? then b else if b.None? then a else Some(Bin(op, a.value, b.value))
  }

  /** For && a missing expression means y, and dropping it is right. */
  lemma AllocAndExact(env: Env, a: Option<Expr>, b: Option<Expr>)
    ensures EvalOpt(env, Alloc(AndOp, a, b)) == Combine(AndOp, EvalOpt(env, a), EvalOpt(env, b))
  {
  }

  /** For || it is right if and only if the operand that is left over is y as well: a symbol with
      one unconditional definition among several ends up with too strong a dependency. */
  lemma AllocOrExact(env: Env, a: Option<Expr>, b: Option<Expr>)
    ensures EvalOpt(env, Alloc(OrOp, a, b)) == Combine(OrOp, EvalOpt(env, a), EvalOpt(env, b))
            <==> (a.None? == b.None? || (EvalOpt(env, a) == YES && EvalOpt(env, b) == YES))
  {
  }

  /** The direct dependency of a symbol after its definitions, from the dependency of each. */
  function Merged(dir: Option<Expr>, deps: seq<Option<Expr>>): Option<Expr>
    decreases |deps|
  {
    if deps == [] then dir else Merged(Alloc(OrOp, dir, deps[0]), deps[1..])
  }

  function LargestOf(env: Env, deps: seq<Option<Expr>>): Tristate {
    if deps == [] then NO else Combine(OrOp, EvalOpt(env, deps[0]), LargestOf(env, deps[1..]))
  }

  /** What the definitions that have a dependency come to. */
  function LargestGiven(env: Env, deps: seq<Option<Expr>>): Tristate {
    if deps == [] then NO
    else Combine(OrOp, if deps[0].None? then NO else Eval(env, deps[0].value), LargestGiven(env, deps[1..]))
  }

  lemma {:induction false} MergedIsGiven(env: Env, dir: Option<Expr>, deps: seq<Option<Expr>>)
    ensures var r := Merged(dir, deps);
      && (r.None? <==> dir.None? && forall d :: d in deps ==> d.None?)
      && (r.Some? ==>
        Eval(env, r.value) == Combine(OrOp, if dir.None? then NO else Eval(env, dir.value), LargestGiven(env, deps)))
    decreases |deps|
  {
    if deps != [] {
      MergedIsGiven(env, Alloc(OrOp, dir, deps[0]), deps[1..]);
      assert deps == [deps[0]] + deps[1..];
    }
  }

  lemma {:induction false} LargestParts(env: Env, deps: seq<Option<Expr>>)
    ensures LargestOf(env, deps) == if exists d :: d in deps && d.None? then YES else LargestGiven(env, deps)
    ensures LargestGiven(env, deps) == YES <==> exists d :: d in deps && d.Some? && Eval(env, d.value) == YES
  {
    if deps != [] {
      LargestParts(env, deps[1..]);
      assert deps == [deps[0]] + deps[1..];
    }
  }

  /** A symbol should be present as soon as one of its definitions is. Its merged dependency says so
      exactly when every definition has a dependency, none has one, or some given one is y. */
  lemma MergedExact(env: Env, deps: seq<Option<Expr>>)
    requires deps != []
    ensures EvalOpt(env, Merged(None, deps)) == LargestOf(env, deps)
            <==> (forall d :: d in deps ==> d.Some?) || (forall d :: d in deps ==> d.None?)
                 || exists d :: d in deps && d.Some? && Eval(env, d.value) == YES
  {
    MergedIsGiven(env, None, deps);
    LargestParts(env, deps);
    assert deps[0] in deps;
  }

  // ----- rewrite_m -----

  function RewriteM(modules: Symbol, e: Expr): Expr {
    match e
    case Sym(s) => if s == SymMod then Bin(AndOp, e, Sym(modules)) else e
    case Compare(_, _, _) => e
    case Not(a) => Not(RewriteM(modules, a))
    case Bin(op, l, r) => Bin(op, RewriteM(modules, l), RewriteM(modules, r))
  }

  /** The value of e when a bare m counts as 'mod'. */
  function EvalM(env: Env, mod: Tristate, e: Expr): Tristate {
    match e
    case Sym(s) => if s == SymMod then mod else ValueOf(env, s)
    case Compare(_, _, _) => Eval(env, e)
    case Not(a) => 2 - EvalM(env, mod, a)
    case Bin(op, l, r) => Combine(op, EvalM(env, mod, l), EvalM(env, mod, r))
  }

  lemma BareM(env: Env, modules: Symbol)
    ensures Eval(env, RewriteM(modules, Sym(SymMod))) == if ValueOf(env, modules) == NO then NO else MOD
  {
  }

  /** After the rewriting every bare m is n exactly when modules are off, and m otherwise. */
  lemma {:induction false} RewriteMSound(env: Env, modules: Symbol, e: Expr)
    ensures Eval(env, RewriteM(modules, e)) == EvalM(env, if ValueOf(env, modules) == NO then NO else MOD, e)
  {
    match e
    case Not(a) => RewriteMSound(env, modules, a);
    case Bin(_, l, r) => RewriteMSound(env, modules, l); RewriteMSound(env, modules, r);
    case _ =>
  }

  lemma {:induction false} RewriteMPlain(t: SymbolTable, modules: Symbol, e: Expr)
    requires PlainConstants(t, e)
    ensures PlainConstants(t, RewriteM(modules, e))
  {
    match e
    case Not(a) => RewriteMPlain(t, modules, a);
    case Bin(_, l, r) => RewriteMPlain(t, modules, l); RewriteMPlain(t, modules, r);
    case _ =>
  }

  // ----- dependencies of entries and of their properties -----

  /** Fit for the optimiser: only plain constants. */
  predicate PlainOpt(t: SymbolTable, e: Option<Expr>) { e.Some? ==> PlainConstants(t, e.value) }

  predicate Simple(e: Option<Expr>) { e.Some? ==> NotsOverSymbols(e.value) }

  function RewriteOpt(modules: Symbol, e: Option<Expr>): Option<Expr> {
    if e.None? then None else Some(RewriteM(modules, e.value))
  }

  /** rewrite_m, expr_transform, conjunction with the outer dependency, expr_eliminate_dups. */
  method Narrow(opt: Optimizer, modules: Symbol, outer: Option<Expr>, e: Option<Expr>) returns (r: Option<Expr>)
    requires PlainOpt(opt.t, outer) && PlainOpt(opt.t, e)
    modifies opt`transCount
    ensures PlainOpt(opt.t, r) && (Simple(outer) ==> Simple(r))
    ensures forall env :: Consistent(opt.t, env) ==>
              EvalOpt(env, r) == Combine(AndOp, EvalOpt(env, outer), EvalOpt(env, RewriteOpt(modules, e)))
  {
    var inner := RewriteOpt(modules, e);
    if e.Some? {
      RewriteMPlain(opt.t, modules, e.value);
      TransformedIsNnf(opt.t, inner.value);
      PlainNnf(opt.t, false, inner.value);
      TransformedSound(opt.t, inner.value);
      TransformedNormal(opt.t, inner.value);
      var pointed := new Slot(inner.value);
      TransformAt(opt.t, pointed, []);
      inner := Some(pointed.e);
    }
    r := Alloc(AndOp, outer, inner);
    if r.Some? {
      var s := new Slot(r.value);
      opt.EliminateDups(s);
      r := Some(s.e);
    }
  }

  /** One property condition: narrowed by the dependency of its entry, and for a symbol that is
      not tristate stripped of != n tests. It never exceeds that dependency. */
  method NarrowProperty(opt: Optimizer, modules: Symbol, base: Option<Expr>, cond: Option<Expr>, kind: SymbolType)
    returns (r: Option<Expr>)
    requires PlainOpt(opt.t, base) && Simple(base) && PlainOpt(opt.t, cond)
    modifies opt`transCount
    ensures Guarded(opt.t, base, r) && Narrowed(opt.t, modules, base, cond, r, kind)
  {
    r := Narrow(opt, modules, base, cond);
    if kind != Tristates && r.Some? {
      var e := r.value;
      forall env | Consistent(opt.t, env)
        ensures Eval(env, TransBool(opt.t, e)) <= Eval(env, e)
        ensures Eval(env, TransBool(opt.t, e)) == NO <==> Eval(env, e) == NO
      {
        TransBoolBelow(opt.t, env, e);
      }
      var s := new Slot(e);
      TransBoolInPlace(opt.t, s, []);
      r := Some(s.e);
    }
  }

  /** 'r' is n exactly when 'base' or the rewritten condition is; for a tristate symbol it has the
      value of their conjunction. */
  ghost predicate Narrowed(t: SymbolTable, modules: Symbol, base: Option<Expr>, cond: Option<Expr>, r: Option<Expr>,
      kind: SymbolType) {
    forall env :: Consistent(t, env) ==>
      var both := Combine(AndOp, EvalOpt(env, base), EvalOpt(env, RewriteOpt(modules, cond)));
      (EvalOpt(env, r) == NO <==> both == NO) && (kind == Tristates ==> EvalOpt(env, r) == both)
  }

  /** 'cond' is at most 'dep' under every assignment. */
  ghost predicate Guarded(t: SymbolTable, dep: Option<Expr>, cond: Option<Expr>) {
    forall env :: Consistent(t, env) ==> EvalOpt(env, cond) <= EvalOpt(env, dep)
  }

  /** Every prompt and default of a symbol is guarded by its direct dependency. */
  ghost predicate GuardedDef(t: SymbolTable, d: SymbolDef) {
    forall p :: p in d.props && p.kind in {Prompt, Default, Preset} ==> Guarded(t, d.dirDep, p.cond)
  }

  /** The part of menu_finalize that concerns the only definition of a symbol that is neither a
      choice nor a choice value. */
  method FinalizeSymbol(opt: Optimizer, modules: Symbol, outer: Option<Expr>, dep: Option<Expr>, d: SymbolDef)
    returns (r: SymbolDef)
    requires PlainOpt(opt.t, outer) && Simple(outer) && PlainOpt(opt.t, dep)
    requires forall p :: p in d.props ==> PlainOpt(opt.t, p.cond)
    modifies opt`transCount
    ensures GuardedDef(opt.t, r)
    ensures forall env :: Consistent(opt.t, env) ==>
              EvalOpt(env, r.dirDep) == Combine(AndOp, EvalOpt(env, outer), EvalOpt(env, RewriteOpt(modules, dep)))
    ensures |r.props| == |d.props| && forall k :: 0 <= k < |d.props| ==>
              Narrowed(opt.t, modules, r.dirDep, d.props[k].cond, r.props[k].cond, d.kind)
    ensures r == d.(dirDep := r.dirDep, props := r.props)
    ensures |r.props| == |d.props|
    ensures forall k :: 0 <= k < |d.props| ==>
      r.props[k].kind == d.props[k].kind && r.props[k].value == d.props[k].value
  {
    var base := Narrow(opt, modules, outer, dep);
    var props: seq<Property> := [];
    var k := 0;
    while k < |d.props|
      invariant |props| == k <= |d.props|
      invariant forall j :: 0 <= j < k ==> Guarded(opt.t, base, props[j].cond)
      invariant forall j :: 0 <= j < k ==> Narrowed(opt.t, modules, base, d.props[j].cond, props[j].cond, d.kind)
      invariant forall j :: 0 <= j < k ==> props[j].kind == d.props[j].kind && props[j].value == d.props[j].value
    {
      var cond := NarrowProperty(opt, modules, base, d.props[k].cond, d.kind);
      props := props + [d.props[k].(cond := cond)];
      k := k + 1;
    }
    r := d.(dirDep := base, props := props);
  }

  // ----- what this is for: selects cannot break dependencies unnoticed -----

  /** The assignment made of the computed values is one the optimiser has been proved for. */
  function TableOf(db: Database, level: string -> Option<Tristate>): SymbolTable {
    SymbolTable((i: nat) => if i < |db.defs| then db.defs[i].kind else Unknown, level)
  }

  function NameOf(s: Symbol): string {
    match s
    case SymYes => "y"
    case SymMod => "m"
    case SymNo => "n"
    case Quoted(name) => name
    case Config(_) => ""
  }

  /** The string comparison tells y, m and n apart, and 'level' says which words it finds equal to
      the text of a bool or tristate value. */
  ghost predicate Compares(db: Database, level: string -> Option<Tristate>) {
    && (forall k: SymbolType, c: Symbol :: Switch(k) && IsConst(c) ==>
          && (db.cmp(k, "n", Unknown, NameOf(c)) == 0 <==> LevelOf(TableOf(db, level), c) == Some(NO))
          && (db.cmp(k, "m", Unknown, NameOf(c)) == 0 <==> LevelOf(TableOf(db, level), c) == Some(MOD))
          && (db.cmp(k, "y", Unknown, NameOf(c)) == 0 <==> LevelOf(TableOf(db, level), c) == Some(YES)))
    && (forall a, b :: a in {"y", "m", "n"} && b in {"y", "m", "n"} ==>
      (db.cmp(Unknown, a, Unknown, b) == 0 <==> a == b))
  }

  lemma OrderOfConstant(db: Database, v: nat -> Value, l: Symbol, c: Symbol)
    requires IsConst(c)
    ensures EnvOf(db, v).order(l, c) ==
              db.cmp(KindOf(db, l), StringOf(db, KindOf(db, l), ValueIn(v, l)), Unknown, NameOf(c))
    ensures IsConst(l) ==> StringOf(db, KindOf(db, l), ValueIn(v, l)) == NameOf(l)
  {
    assert EnvOf(db, v).order(l, c) == Outcome(db, l, ValueIn(v, l), c, ValueIn(v, c));
    assert ValueIn(v, c).str == NameOf(c);
  }

  lemma TypedConsistent(db: Database, level: string -> Option<Tristate>, v: nat -> Value)
    requires WellTyped(db, v) && Compares(db, level)
    ensures Consistent(TableOf(db, level), EnvOf(db, v))
  {
    var t, env := TableOf(db, level), EnvOf(db, v);
    forall i: nat, c: Symbol | Switch(t.kind(i)) && IsConst(c)
      ensures env.order(Config(i), c) == 0 <==> LevelOf(t, c) == Some(env.value(i))
    {
      OrderOfConstant(db, v, Config(i), c);
    }
    forall c, d | c in {SymYes, SymMod, SymNo} && d in {SymYes, SymMod, SymNo}
      ensures env.order(c, d) == 0 <==> c == d
    {
      OrderOfConstant(db, v, c, d);
    }
  }

  lemma SolutionConsistent(db: Database, level: string -> Option<Tristate>, v: nat -> Value)
    requires Solution(db, v) && Compares(db, level)
    ensures Consistent(TableOf(db, level), EnvOf(db, v))
  {
    SolutionTyped(db, v);
    TypedConsistent(db, level, v);
  }

  lemma {:induction false} GuardedProps(t: SymbolTable, env: Env, dep: Option<Expr>, ps: seq<Property>)
    requires Consistent(t, env) && EvalOpt(env, dep) == NO
    requires forall p :: p in ps && (p.kind == Prompt || p.kind == Default) ==> Guarded(t, dep, p.cond)
    ensures PromptLimit(env, ps, false) == NO && ActiveDefault(env, ps).None?
  {
    if ps != [] {
      assert ps[0] in ps;
      GuardedProps(t, env, dep, ps[1..]);
    }
  }

  /** For a bool or tristate symbol finalized as above: when its direct dependency is n its value
      is n, even if it is selected; otherwise it is at least what selects ask for; and a bool, or
      a tristate without modules, is never m. */
  lemma SelectRespectsDependencies(db: Database, level: string -> Option<Tristate>, v: nat -> Value, i: nat)
    requires Solution(db, v) && Compares(db, level)
    requires i < |db.defs| && db.defs[i].role.Ordinary? && Switch(db.defs[i].kind)
    requires GuardedDef(TableOf(db, level), db.defs[i])
    ensures EvalOpt(EnvOf(db, v), db.defs[i].dirDep) == NO ==> v(i).tri == NO
    ensures EvalOpt(EnvOf(db, v), db.defs[i].dirDep) != NO ==>
              v(i).tri >= LimitsOf(db, EnvOf(db, v), db.defs[i]).revDep
    ensures EffectiveKind(db, db.defs[i].kind) == Boolean ==> v(i).tri != MOD
  {
    SolutionConsistent(db, level, v);
    SolutionTyped(db, v);
    var d, env := db.defs[i], EnvOf(db, v);
    assert v(i) == Step(db, v, i);
    if EvalOpt(env, d.dirDep) == NO {
      GuardedProps(TableOf(db, level), env, d.dirDep, d.props);
    }
  }

  // ----- reverse dependencies -----

  /** What raises a symbol: a select (or imply) by another symbol under a condition, or, for a choice
      that is not optional, its own prompt, up to m. */
  datatype Selector = Selector(source: Symbol, cond: Option<Expr>) | OwnPrompt(cond: Option<Expr>)

  function DemandExpr(s: Selector): Option<Expr> {
    match s
    case Selector(source, cond) => Alloc(AndOp, Some(Sym(source)), cond)
    case OwnPrompt(cond) => Alloc(AndOp, cond, Some(Sym(SymMod)))
  }

  /** rev_dep (or implied) after the selects have been met one after the other. */
  function Collected(rev: Option<Expr>, ss: seq<Selector>): Option<Expr>
    decreases |ss|
  {
    if ss == [] then rev else Collected(Alloc(OrOp, rev, DemandExpr(ss[0])), ss[1..])
  }

  function Demand(env: Env, s: Selector): Tristate {
    Combine(AndOp, if s.OwnPrompt? then MOD else ValueOf(env, s.source), EvalOpt(env, s.cond))
  }

  /** Without selects nothing is asked for. */
  function Demanded(env: Env, rev: Option<Expr>): Tristate { if rev.None? then NO else Eval(env, rev.value) }

  lemma DemandSound(env: Env, s: Selector)
    ensures DemandExpr(s).Some? && Eval(env, DemandExpr(s).value) == Demand(env, s)
  {
    match s
    case Selector(source, cond) => AllocAndExact(env, Some(Sym(source)), cond);
    case OwnPrompt(cond) => AllocAndExact(env, cond, Some(Sym(SymMod)));
  }

  /** What is collected asks for the most that any select asks for, and for no more. */
  lemma {:induction false} CollectedIsStrongest(env: Env, rev: Option<Expr>, ss: seq<Selector>)
    ensures Demanded(env, Collected(rev, ss)) >= Demanded(env, rev)
    ensures forall s :: s in ss ==> Demanded(env, Collected(rev, ss)) >= Demand(env, s)
    ensures Demanded(env, Collected(rev, ss)) == Demanded(env, rev)
            || exists s :: s in ss && Demanded(env, Collected(rev, ss)) == Demand(env, s)
    decreases |ss|
  {
    if ss != [] {
      var next := Alloc(OrOp, rev, DemandExpr(ss[0]));
      DemandSound(env, ss[0]);
      assert Demanded(env, next) == Combine(OrOp, Demanded(env, rev), Demand(env, ss[0]));
      CollectedIsStrongest(env, next, ss[1..]);
      assert ss == [ss[0]] + ss[1..];
    }
  }

  /** A symbol whose direct dependency is not n is at least what each of its selects asks for. */
  lemma SelectIsHonoured(db: Database, level: string -> Option<Tristate>, v: nat -> Value, i: nat, ss: seq<Selector>,
      s: Selector)
    requires Solution(db, v) && Compares(db, level)
    requires i < |db.defs| && db.defs[i].role.Ordinary? && Switch(db.defs[i].kind)
    requires GuardedDef(TableOf(db, level), db.defs[i])
    requires db.defs[i].revDep == Collected(None, ss) && s in ss
    ensures EvalOpt(EnvOf(db, v), db.defs[i].dirDep) != NO ==> v(i).tri >= Demand(EnvOf(db, v), s)
  {
    SelectRespectsDependencies(db, level, v, i);
    CollectedIsStrongest(EnvOf(db, v), None, ss);
  }

  /** The members of a choice, whose conditions menu_finalize has narrowed with the choice itself as
      the outer dependency, are guarded by it. */
  lemma FinalizedMember(db: Database, level: string -> Option<Tristate>, k: nat)
    requires Compares(db, level) && k < |db.defs| && db.defs[k].role.Member?
    requires forall p :: p in db.defs[k].props && p.kind == Prompt ==>
      Guarded(TableOf(db, level), Some(Sym(Config(db.defs[k].role.choice))), p.cond)
    ensures GuardedMember(db, k)
  {
    forall v: nat -> Value | WellTyped(db, v) ensures PromptsBelow(db, v, k) { TypedConsistent(db, level, v); }
  }

  // ----- automatic submenus -----

  lemma {:induction false} TransComparePlain(t: SymbolTable, e: Expr, rel: Rel)
    requires PlainConstants(t, e) && (rel == Eq || rel == Ne)
    ensures PlainConstants(t, TransCompare(e, rel, SymNo))
  {
    match e
    case Bin(_, l, r) => TransComparePlain(t, l, Eq); TransComparePlain(t, r, Eq);
    case Not(a) => TransComparePlain(t, a, Negated(rel));
    case _ =>
  }

  /** Only a symbol of the table that an expression mentions is found in it. */
  lemma {:induction false} ContainsExact(e: Expr, i: nat)
    ensures Contains(e, Config(i)) <==> i in Ids(e)
  {
    match e
    case Not(a) => ContainsExact(a, i);
    case Bin(_, l, r) => ContainsExact(l, i); ContainsExact(r, i);
    case _ =>
  }

  /** The test that a condition is not n, before duplicates are eliminated; a missing condition gives
      !n. */
  function Test(t: SymbolTable, cond: Option<Expr>): Expr {
    Transformed(t, if cond.None? then Not(Sym(SymNo)) else TransCompare(cond.value, Ne, SymNo))
  }

  /** e is that test with nothing left to join. */
  ghost predicate TestOf(t: SymbolTable, cond: Option<Expr>, e: Expr) {
    && SameValue(t, e, if cond.None? then Not(Sym(SymNo)) else TransCompare(cond.value, Ne, SymNo))
    && Irreducible(t, e) && (Irreducible(t, Test(t, cond)) ==> e == Test(t, cond))
  }

  /** A condition compared with n and simplified. */
  method Presence(opt: Optimizer, cond: Option<Expr>) returns (s: Slot)
    requires PlainOpt(opt.t, cond)
    modifies opt`transCount
    ensures fresh(s) && TestOf(opt.t, cond, s.e)
  {
    var e := if cond.None? then Not(Sym(SymNo)) else TransCompare(cond.value, Ne, SymNo);
    if cond.Some? { TransComparePlain(opt.t, cond.value, Ne); }
    TransformedIsNnf(opt.t, e);
    PlainNnf(opt.t, false, e);
    TransformedSound(opt.t, e);
    s := new Slot(e);
    TransformAt(opt.t, s, []);
    opt.EliminateDups(s);
  }

  /** A symbol without a condition is always present. */
  lemma AlwaysPresent(t: SymbolTable, e: Expr)
    requires TestOf(t, None, e)
    ensures e == Sym(SymYes)
  {
    TransformedIsNnf(t, Not(Sym(SymNo)));
    assert Irreducible(t, Sym(SymYes));
  }

  /** menu_finalize's test whether an entry with condition 'dep' goes into the submenu of symbol
      'sym' whose prompt has condition 'cond': it does when it mentions sym, and depends on sym
      outright or has all operands of the test for the prompt among the operands of its own. Then it
      is n when sym is, or can be present only while the prompt is. */
  method BelongsInSubmenu(opt: Optimizer, dep: Option<Expr>, sym: Symbol, cond: Option<Expr>)
      returns (belongs: bool, ghost own: Expr, ghost base: Expr)
    requires PlainOpt(opt.t, dep) && PlainOpt(opt.t, cond)
    modifies opt`transCount
    ensures belongs ==> dep.Some? && Contains(dep.value, sym)
    ensures dep.Some? && Contains(dep.value, sym) && (Depends(dep.value, sym) || cond.None?) ==> belongs
    ensures dep.Some? && Contains(dep.value, sym) && !Depends(dep.value, sym) ==>
              TestOf(opt.t, dep, own) && TestOf(opt.t, cond, base) && (belongs <==> Includes(own, base))
    ensures belongs && Switch(TypeOf(opt.t, sym)) ==>
              (forall env :: Consistent(opt.t, env) && Eval(env, dep.value) != NO ==> ValueOf(env, sym) != NO)
              || (forall env :: PresentTogether(opt.t, env, dep.value, cond))
  {
    hide TestOf, Includes, Irreducible, Transformed, PlainConstants;
    belongs, own, base := false, Sym(SymNo), Sym(SymNo);
    if dep.None? || !Contains(dep.value, sym) {
      return;
    }
    if Depends(dep.value, sym) {
      if Switch(TypeOf(opt.t, sym)) {
        forall env | Consistent(opt.t, env) && Eval(env, dep.value) != NO ensures ValueOf(env, sym) != NO {
          DependsSound(opt.t, env, dep.value, sym);
        }
      }
      belongs := true;
      return;
    }
    var s2 := Presence(opt, cond);
    var s1 := Presence(opt, dep);
    own, base := s1.e, s2.e;
    EliminateEqInPlace(s1, s2);
    belongs := s2.e == Sym(SymYes);
    IncludesMeans(own, base);
    if cond.None? {
      AlwaysPresent(opt.t, base);
      YesIncluded(own);
    }
    if belongs { IncludedTogether(opt.t, dep.value, cond, own, base); }
  }

  /** The superset test of two presence tests. */
  ghost predicate Includes(e1: Expr, e2: Expr) {
    if NoYn(e1) && NoYn(e2) && !IsYn(e1) && !IsYn(e2) then
      IsBin(AndOp, e1) && Operands(AndOp, e2) <= Operands(AndOp, e1)
    else EliminateEq(e1, e2).1 == Sym(SymYes)
  }

  lemma IncludesMeans(e1: Expr, e2: Expr)
    ensures Includes(e1, e2) <==> EliminateEq(e1, e2).1 == Sym(SymYes)
  {
    hide EliminateEq, Operands, NoYn;
    if NoYn(e1) && NoYn(e2) && !IsYn(e1) && !IsYn(e2) { SupersetExact(e1, e2); }
  }

  lemma IncludedTogether(t: SymbolTable, dep: Expr, cond: Option<Expr>, own: Expr, base: Expr)
    requires TestOf(t, Some(dep), own) && TestOf(t, cond, base) && EliminateEq(own, base).1 == Sym(SymYes)
    ensures forall env :: PresentTogether(t, env, dep, cond)
  {
    hide Irreducible, Transformed, EliminateEq;
    forall env ensures PresentTogether(t, env, dep, cond) {
      if Consistent(t, env) && TypedLeaves(t, dep) && (cond.Some? ==> TypedLeaves(t, cond.value)) {
        SupersetSound(env, own, base);
        TransCompareReads(t, env, dep, Ne);
        if cond.Some? { TransCompareReads(t, env, cond.value, Ne); }
      }
    }
  }

  ghost predicate PresentTogether(t: SymbolTable, env: Env, dep: Expr, cond: Option<Expr>) {
    Consistent(t, env) && TypedLeaves(t, dep) && (cond.Some? ==> TypedLeaves(t, cond.value)) ==>
      Reads(env, dep, MOD) ==> cond.None? || Reads(env, cond.value, MOD)
  }
}
