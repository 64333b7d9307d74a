/** The memoised evaluator: sym_calc_value, sym_calc_visibility, sym_calc_choice and
    expr_calc_value of scripts/config/symbol.c and expr.c, with SYMBOL_VALID as the cache flag. */
module Evaluator {
  import opened Expressions
  import opened Symbols
  import opened Choices
  import opened Forgotten
  import DepCheck

  /** The cache: SYMBOL_VALID, the current values, visible, dir_dep.tri, rev_dep.tri and implied.tri
      of every symbol, and the choices that have lost SYMBOL_DEF_USER. */
  datatype Memo = Memo(valid: set<nat>, curr: map<nat, Value>, limits: map<nat, Limits>, cleared: set<nat>)

  /** Acyclic dependencies, and a valuation that satisfies the equations. */
  ghost predicate Theory(db: Database, rank: nat -> nat, v: nat -> Value) {
    && Closed(db.defs) && Ranked(db.defs, rank) && Solution(db, v)
    && (forall k :: 0 <= k < |db.defs| && db.defs[k].role.Member? ==> Attached(db, v, k))
  }

  ghost predicate Computed(db: Database, v: nat -> Value, m: Memo, i: nat) {
    && i < |db.defs| && i in m.curr && m.curr[i] == v(i)
    && (db.defs[i].kind != Unknown && !db.defs[i].role.Member? ==>
          i in m.limits && m.limits[i] == LimitsOf(db, EnvOf(db, v), db.defs[i]))
    && (i in m.cleared <==> Clears(db, v, i))
  }

  /** Every valid symbol is computed, except those in 'busy', whose ranks start at 'bound'. */
  ghost predicate Good(db: Database, rank: nat -> nat, v: nat -> Value, m: Memo, busy: set<nat>, bound: nat) {
    && Theory(db, rank, v)
    && busy <= m.valid && m.cleared <= m.valid
    && (forall b :: b in busy ==> bound <= rank(b))
    && (forall i :: i in m.valid && i !in busy ==> Computed(db, v, m, i))
  }

  /** Nothing that was valid before has been touched. */
  ghost predicate Keeps(m: Memo, m': Memo) {
    && m.valid <= m'.valid
    && (forall i :: i in m.valid && i in m.curr ==> i in m'.curr && m'.curr[i] == m.curr[i])
    && (forall i :: i in m.valid && i in m.limits ==> i in m'.limits && m'.limits[i] == m.limits[i])
    && (forall i :: i in m.valid ==> (i in m'.cleared <==> i in m.cleared))
  }

  /** What is asked for while the values are taken to be u: symbols of lower rank, whose values are
      those of v, and symbols that have the value u says already. */
  ghost predicate Known(db: Database, rank: nat -> nat, v: nat -> Value, u: nat -> Value, m: Memo, ids: seq<nat>,
      bound: nat) {
    forall j :: j in ids ==> j < |db.defs| && ((rank(j) < bound && u(j) == v(j)) || Settled(m, u, j))
  }

  ghost predicate Settled(m: Memo, u: nat -> Value, j: nat) { j in m.valid && j in m.curr && m.curr[j] == u(j) }

  ghost predicate AllSettled(m: Memo, u: nat -> Value, ids: seq<nat>) { forall j :: j in ids ==> Settled(m, u, j) }

  lemma KnownParts(db: Database, rank: nat -> nat, v: nat -> Value, u: nat -> Value, m: Memo, a: seq<nat>,
      b: seq<nat>, bound: nat)
    requires Known(db, rank, v, u, m, a + b, bound)
    ensures Known(db, rank, v, u, m, a, bound) && Known(db, rank, v, u, m, b, bound)
  {
    forall j | j in a ensures j in a + b { }
    forall j | j in b ensures j in a + b { }
  }

  lemma KnownKept(db: Database, rank: nat -> nat, v: nat -> Value, u: nat -> Value, m: Memo, m': Memo, ids: seq<nat>,
      bound: nat)
    requires Known(db, rank, v, u, m, ids, bound) && Keeps(m, m')
    ensures Known(db, rank, v, u, m', ids, bound)
  {
  }

  lemma BelowKnown(db: Database, rank: nat -> nat, v: nat -> Value, m: Memo, ids: seq<nat>, bound: nat)
    requires Below(db, rank, ids, bound)
    ensures Known(db, rank, v, v, m, ids, bound)
  {
  }

  /** All dependencies of an expression are in the table and rank below 'bound'. */
  ghost predicate Below(db: Database, rank: nat -> nat, ids: seq<nat>, bound: nat) {
    forall j :: j in ids ==> j < |db.defs| && rank(j) < bound
  }

  lemma BelowParts(db: Database, rank: nat -> nat, a: seq<nat>, b: seq<nat>, bound: nat)
    requires Below(db, rank, a + b, bound)
    ensures Below(db, rank, a, bound) && Below(db, rank, b, bound)
  {
    forall j | j in a ensures j in a + b { }
    forall j | j in b ensures j in a + b { }
  }

  lemma KeepsTrans(m0: Memo, m1: Memo, m2: Memo)
    requires Keeps(m0, m1) && Keeps(m1, m2)
    ensures Keeps(m0, m2)
  {
  }

  /** Like Keeps, but symbol i, which is being computed, may have been written. */
  ghost predicate KeepsExcept(m: Memo, m': Memo, i: nat) {
    && m.valid <= m'.valid
    && (forall j :: j != i && j in m.valid && j in m.curr ==> j in m'.curr && m'.curr[j] == m.curr[j])
    && (forall j :: j != i && j in m.valid && j in m.limits ==> j in m'.limits && m'.limits[j] == m.limits[j])
    && (forall j :: j != i && j in m.valid ==> (j in m'.cleared <==> j in m.cleared))
  }

  lemma KeepsExceptTrans(m0: Memo, m1: Memo, m2: Memo, i: nat)
    requires KeepsExcept(m0, m1, i) && (Keeps(m1, m2) || KeepsExcept(m1, m2, i))
    ensures KeepsExcept(m0, m2, i)
  {
  }

  lemma KeepsNew(m0: Memo, m1: Memo, i: nat)
    requires KeepsExcept(m0, m1, i) && i !in m0.valid
    ensures Keeps(m0, m1)
  {
  }

  lemma KeepsSelf(m: Memo)
    ensures Keeps(m, m) && forall i :: KeepsExcept(m, m, i)
  {
  }

  /** A computed symbol stays computed. */
  lemma KeepsComputed(db: Database, v: nat -> Value, m: Memo, m': Memo, i: nat)
    requires Keeps(m, m') && i in m.valid && Computed(db, v, m, i)
    ensures i in m'.valid && Computed(db, v, m', i) && i in m'.curr && m'.curr[i] == v(i)
  {
  }

  /** The shapes the value of a symbol can take. */
  lemma FinishedValue(db: Database, rank: nat -> nat, v: nat -> Value, m: Memo, busy: set<nat>, bound: nat, i: nat)
    requires Good(db, rank, v, m, busy, bound) && i < |db.defs|
    ensures var d, env := db.defs[i], EnvOf(db, v);
            var lim := LimitsOf(db, env, d);
            v(i) == if d.kind == Unknown then Value(d.name, NO, None)
                    else if !Switch(d.kind) then Value(TextValue(env, v, d, lim), NO, None)
                    else if d.role.Member? && lim.visible == YES then
                      Value("n", if v(d.role.choice).pick == Some(i) then YES else NO, None)
                    else if d.role.Choice? then ChoiceValue(db, v, i, SwitchValue(db, env, d, lim))
                    else Value("n", SwitchValue(db, env, d, lim), None)
    ensures db.defs[i].role.Choice? ==> Switch(db.defs[i].kind)
    ensures db.defs[i].role.Member? ==>
      Switch(db.defs[i].kind) && db.defs[i].role.choice < |db.defs| && Attached(db, v, i)
  {
    hide LimitsOf, SwitchValue, TextValue, ChoiceValue, Edges, Attached;
    assert v(i) == Step(db, v, i);
    if db.defs[i].role.Choice? { assert WellFormedChoice(db.defs, i); }
    if db.defs[i].role.Member? { assert WellFormedChoice(db.defs, db.defs[i].role.choice); }
  }

  function Start(m: Memo, i: nat): Memo { m.(valid := m.valid + {i}) }

  lemma StartGood(db: Database, rank: nat -> nat, v: nat -> Value, m: Memo, busy: set<nat>, bound: nat, i: nat)
    requires Good(db, rank, v, m, busy, bound) && i < |db.defs| && rank(i) < bound && i !in m.valid
    ensures Good(db, rank, v, Start(m, i), busy + {i}, rank(i))
    ensures Below(db, rank, Edges(db.defs, i), rank(i)) && i !in busy
    ensures KeepsExcept(m, Start(m, i), i) && i !in m.cleared
    ensures db.defs[i].role.Member? ==> rank(db.defs[i].role.choice) < rank(i)
  {
    hide Edges, Step, LimitsOf, Clears;
    forall j | j in Edges(db.defs, i)
      ensures j < |db.defs| && rank(j) < rank(i)
    {
      assert Mentions(db.defs, i, j) && Links(db.defs, i, j);
    }
    if db.defs[i].role.Member? { assert Links(db.defs, i, db.defs[i].role.choice); }
  }

  /** Writing the fields of a busy symbol. */
  lemma WriteCurr(db: Database, rank: nat -> nat, v: nat -> Value, m: Memo, busy: set<nat>, bound: nat, i: nat,
      x: Value)
    requires Good(db, rank, v, m, busy, bound) && i in busy
    ensures var m' := m.(curr := m.curr[i := x]); Good(db, rank, v, m', busy, bound) && KeepsExcept(m, m', i)
    ensures i in m.valid
  {
    hide Theory, LimitsOf;
  }

  lemma WriteCleared(db: Database, rank: nat -> nat, v: nat -> Value, m: Memo, busy: set<nat>, bound: nat, i: nat)
    requires Good(db, rank, v, m, busy, bound) && i in busy
    ensures var m' := m.(cleared := m.cleared + {i}); Good(db, rank, v, m', busy, bound) && KeepsExcept(m, m', i)
  {
    hide Theory, LimitsOf, Clears;
  }

  lemma WriteLimits(db: Database, rank: nat -> nat, v: nat -> Value, m: Memo, busy: set<nat>, bound: nat, i: nat,
      l: Limits)
    requires Good(db, rank, v, m, busy, bound) && i in busy
    ensures var m' := m.(limits := m.limits[i := l]); Good(db, rank, v, m', busy, bound) && KeepsExcept(m, m', i)
  {
    hide Theory, LimitsOf;
  }

  lemma BelowEdges(db: Database, rank: nat -> nat, i: nat, bound: nat)
    requires i < |db.defs| && Below(db, rank, Edges(db.defs, i), bound)
    ensures var d := db.defs[i];
            && Below(db, rank, OptIds(d.dirDep), bound) && Below(db, rank, OptIds(d.revDep), bound)
            && Below(db, rank, OptIds(d.implied), bound) && Below(db, rank, PropsIds(d.props), bound)
  {
    var d := db.defs[i];
    BelowParts(db, rank, OptIds(d.dirDep) + OptIds(d.revDep) + OptIds(d.implied), PropsIds(d.props), bound);
    BelowParts(db, rank, OptIds(d.dirDep) + OptIds(d.revDep), OptIds(d.implied), bound);
    BelowParts(db, rank, OptIds(d.dirDep), OptIds(d.revDep), bound);
  }

  lemma NotBusy(db: Database, rank: nat -> nat, v: nat -> Value, m: Memo, busy: set<nat>, bound: nat, i: nat)
    requires Good(db, rank, v, m, busy, bound) && rank(i) < bound && i in m.valid
    ensures i !in busy && Computed(db, v, m, i)
  {
  }

  lemma FinishGood(db: Database, rank: nat -> nat, v: nat -> Value, m0: Memo, m: Memo, busy: set<nat>, bound: nat,
      i: nat)
    requires Good(db, rank, v, m0, busy, bound) && i !in m0.valid
    requires Good(db, rank, v, m, busy + {i}, rank(i)) && Computed(db, v, m, i) && i in m.valid
    requires m0.valid <= m.valid
    ensures Good(db, rank, v, m, busy, bound)
  {
    hide Theory, Computed;
  }

  lemma NotBusyValue(db: Database, rank: nat -> nat, v: nat -> Value, m: Memo, busy: set<nat>, bound: nat, i: nat)
    requires Good(db, rank, v, m, busy, bound) && rank(i) < bound && i in m.valid
    ensures Settled(m, v, i)
  {
    hide Theory;
  }

  lemma BusyValid(db: Database, rank: nat -> nat, v: nat -> Value, m: Memo, busy: set<nat>, bound: nat, i: nat)
    requires Good(db, rank, v, m, busy, bound) && i in busy
    ensures i in m.valid
  {
    hide Theory, Computed;
  }

  lemma CompareValue(db: Database, u: nat -> Value, rel: Rel, l: Symbol, r: Symbol)
    ensures Eval(EnvOf(db, u), Compare(rel, l, r)) ==
      if Holds(rel, Outcome(db, l, ValueIn(u, l), r, ValueIn(u, r))) then YES else NO
  {
  }

  lemma SettledBoth(u: nat -> Value, m1: Memo, m2: Memo, a: seq<nat>, b: seq<nat>)
    requires AllSettled(m1, u, a) && Keeps(m1, m2) && AllSettled(m2, u, b)
    ensures AllSettled(m2, u, a + b)
  {
  }

  lemma SettledSymbol(u: nat -> Value, m: Memo, s: Symbol, rest: seq<nat>)
    requires AllSettled(m, u, IdOf(s) + rest)
    ensures s.Config? ==> s.id in m.curr && m.curr[s.id] == u(s.id)
  {
    if s.Config? { assert s.id in IdOf(s) + rest; }
  }

  /** After a prompt of a member has been evaluated, its choice has a value unless the prompt is n. */
  lemma ChoiceSettled(db: Database, u: nat -> Value, m0: Memo, m1: Memo, m2: Memo, i: nat, p: Property)
    requires i < |db.defs| && db.defs[i].role.Member? && p in db.defs[i].props && p.kind == Prompt
    requires Settled(m0, u, db.defs[i].role.choice) || Attached(db, u, i)
    requires Keeps(m0, m1) && Keeps(m1, m2) && AllSettled(m2, u, OptIds(p.cond))
    ensures var c := db.defs[i].role.choice;
      && (EvalOpt(EnvOf(db, u), p.cond) != NO ==> Settled(m2, u, c))
      && (Settled(m0, u, c) ==> Settled(m2, u, c)) && (Settled(m1, u, c) ==> Settled(m2, u, c))
  {
    hide EnvOf, Eval;
  }

  lemma ClearedKept(db: Database, rank: nat -> nat, v: nat -> Value, m0: Memo, m1: Memo, m2: Memo, m3: Memo, m4: Memo,
      busy: set<nat>, bound: nat, i: nat)
    requires Good(db, rank, v, m0, busy, bound) && i in busy
    requires Keeps(m0, m1) && Keeps(m1, m2) && Keeps(m2, m3) && Keeps(m3, m4)
    ensures i in m4.cleared <==> i in m0.cleared
  {
    hide Theory, Computed;
  }

  lemma PromptEnds(env: Env, ps: seq<Property>, squash: bool)
    ensures ps[0..] == ps && PromptLimit(env, ps[|ps|..], squash) == NO
  {
  }

  /** One property of the loop over the prompts. */
  lemma PromptAt(env: Env, ps: seq<Property>, squash: bool, k: nat, tri: Tristate)
    requires k < |ps|
    ensures PropsIds(ps[k..]) == PropertyIds(ps[k]) + PropsIds(ps[k + 1..])
    ensures Combine(OrOp, tri, PromptLimit(env, ps[k..], squash)) ==
      Combine(OrOp,
              if ps[k].kind == Prompt then Combine(OrOp, tri, Squashed(EvalOpt(env, ps[k].cond), squash)) else tri,
              PromptLimit(env, ps[k + 1..], squash))
  {
    hide Eval;
    assert ps[k..][0] == ps[k] && ps[k..][1..] == ps[k + 1..];
  }

  lemma ForgetsNext(db: Database, env: Env, ms: seq<nat>, m: nat)
    requires m < |db.defs|
    ensures Forgets(db, env, ms + [m]) <==>
      Forgets(db, env, ms) || (VisibleIn(db, env, m) != NO && db.defs[m].user.None?)
  {
    hide VisibleIn;
    if Forgets(db, env, ms) {
      var k :| k in ms && k < |db.defs| && VisibleIn(db, env, k) != NO && db.defs[k].user.None?;
      assert k in ms + [m];
    }
    assert m in ms + [m];
  }

  lemma StaysSettled(u: nat -> Value, m: Memo, m': Memo, c: nat)
    requires Settled(m, u, c) && Keeps(m, m')
    ensures Settled(m', u, c)
  {
  }

  lemma ClearedSettled(u: nat -> Value, m: Memo, c: nat)
    requires Settled(m, u, c)
    ensures Settled(m.(cleared := m.cleared + {c}), u, c)
  {
  }

  /** What the members of an open choice mention ranks below the choice, or is the choice. */
  lemma MemberKnown(db: Database, rank: nat -> nat, v: nat -> Value, m: Memo, busy: set<nat>, bound: nat, c: nat,
      k: nat)
    requires Good(db, rank, v, m, busy, bound) && c < |db.defs| && db.defs[c].role.Choice? &&
      k in db.defs[c].role.members
    requires Settled(m, Assume(v, c), c)
    ensures k < |db.defs| && db.defs[k].role == Member(c)
    ensures Known(db, rank, v, Assume(v, c), m, PropsIds(db.defs[k].props), rank(c))
  {
    hide Edges, Links, Solution, Attached, Computed;
    assert WellFormedChoice(db.defs, c);
    forall j | j in PropsIds(db.defs[k].props) && j != c ensures j < |db.defs| && rank(j) < rank(c) {
      PropsAreEdges(db.defs, k, j);
      assert Mentions(db.defs, k, j) && Inner(db.defs, c, j);
      InnerLinks(db.defs, c, j);
      ClosedLinks(db.defs, c, j);
    }
  }

  lemma InnerLinks(defs: seq<SymbolDef>, c: nat, j: nat)
    requires Inner(defs, c, j)
    ensures Links(defs, c, j)
  {
  }

  lemma PropsAreEdges(defs: seq<SymbolDef>, i: nat, j: nat)
    requires i < |defs| && j in PropsIds(defs[i].props)
    ensures j in Edges(defs, i) && Mentions(defs, i, j) && Links(defs, i, j)
  {
  }

  lemma ChoiceKnown(db: Database, rank: nat -> nat, v: nat -> Value, m: Memo, busy: set<nat>, bound: nat, c: nat)
    requires Good(db, rank, v, m, busy, bound) && c < |db.defs|
    ensures Known(db, rank, v, Assume(v, c), m, PropsIds(db.defs[c].props), rank(c))
  {
    hide Edges, Links, Solution, Attached, Computed;
    NotOwnEdge(db.defs, rank, c);
    forall j | j in PropsIds(db.defs[c].props) ensures j < |db.defs| && rank(j) < rank(c) && j != c {
      PropsAreEdges(db.defs, c, j);
      ClosedLinks(db.defs, c, j);
    }
  }

  lemma MembersShielded(db: Database, rank: nat -> nat, v: nat -> Value, m: Memo, busy: set<nat>, bound: nat, c: nat)
    requires Good(db, rank, v, m, busy, bound) && c < |db.defs| && db.defs[c].role.Choice?
    ensures Closed(db.defs)
    ensures forall k :: k in db.defs[c].role.members ==> k < |db.defs| && db.defs[k].role == Member(c)
  {
    hide Edges, Solution, Attached, Computed;
    assert WellFormedChoice(db.defs, c);
  }

  lemma UserPickMember(db: Database, rank: nat -> nat, v: nat -> Value, m: Memo, busy: set<nat>, bound: nat, c: nat)
    requires Good(db, rank, v, m, busy, bound) && c < |db.defs| && db.defs[c].role.Choice? &&
      db.defs[c].role.userPick.Some?
    ensures db.defs[c].role.userPick.value in db.defs[c].role.members
  {
    hide Edges, Solution, Attached, Computed;
    assert WellFormedChoice(db.defs, c);
  }

  /** The fields of a symbol being computed are not touched by what it asks for. */
  lemma BusyKept(db: Database, rank: nat -> nat, v: nat -> Value, m: Memo, m': Memo, busy: set<nat>, bound: nat, i: nat)
    requires Good(db, rank, v, m, busy, bound) && i in busy && Keeps(m, m')
    ensures i in m'.cleared <==> i in m.cleared
    ensures i in m.limits ==> i in m'.limits && m'.limits[i] == m.limits[i]
    ensures i in m.curr ==> i in m'.curr && m'.curr[i] == m.curr[i]
  {
    hide Theory, Computed;
  }

  lemma AssumedNow(db: Database, rank: nat -> nat, v: nat -> Value, m: Memo, busy: set<nat>, bound: nat, i: nat)
    requires Good(db, rank, v, m, busy, bound) && i in busy && i in m.curr && m.curr[i] == Value("n", YES, None)
    ensures Settled(m, Assume(v, i), i)
  {
    hide Theory, Computed;
  }

  /** What the fields of a bool or tristate symbol must hold in the end. */
  lemma SwitchComputed(db: Database, rank: nat -> nat, v: nat -> Value, m: Memo, busy: set<nat>, i: nat)
    requires Good(db, rank, v, m, busy, rank(i)) && i < |db.defs| && !db.defs[i].role.Member? && Switch(db.defs[i].kind)
    requires var env := EnvOf(db, v);
      var tri := SwitchValue(db, env, db.defs[i], LimitsOf(db, env, db.defs[i]));
      && i in m.limits && m.limits[i] == LimitsOf(db, env, db.defs[i]) && i in m.curr
      && if db.defs[i].role.Choice? && tri == YES then
           var env' := EnvOf(db, Assume(v, i));
           var pick := PickIn(db, env', db.defs[i]);
           && m.curr[i] == Value("n", if pick.None? then NO else YES, pick)
           && (i in m.cleared <==> Forgets(db, env', db.defs[i].role.members))
         else m.curr[i] == Value("n", tri, None) && i !in m.cleared
    ensures Computed(db, v, m, i)
  {
    hide LimitsOf, SwitchValue, PickIn, Forgets, EnvOf, Good;
    FinishedValue(db, rank, v, m, busy, rank(i), i);
  }

  lemma TextComputed(db: Database, rank: nat -> nat, v: nat -> Value, m: Memo, busy: set<nat>, i: nat)
    requires Good(db, rank, v, m, busy, rank(i)) && i < |db.defs|
    requires !Switch(db.defs[i].kind) && db.defs[i].kind != Unknown && i !in m.cleared
    requires var lim := LimitsOf(db, EnvOf(db, v), db.defs[i]);
      && i in m.limits && m.limits[i] == lim
      && i in m.curr && m.curr[i] == Value(TextValue(EnvOf(db, v), v, db.defs[i], lim), NO, None)
    ensures Computed(db, v, m, i)
  {
    hide LimitsOf, SwitchValue, TextValue, EnvOf, Good;
    FinishedValue(db, rank, v, m, busy, rank(i), i);
  }

  lemma MemberComputed(db: Database, rank: nat -> nat, v: nat -> Value, m: Memo, busy: set<nat>, i: nat, vis: Tristate)
    requires Good(db, rank, v, m, busy, rank(i)) && i < |db.defs| && db.defs[i].role.Member? &&
      db.defs[i].kind != Unknown
    requires vis == VisibleIn(db, EnvOf(db, v), i) && i !in m.cleared
    requires i in m.curr && m.curr[i] ==
      if vis == YES then Value("n", if v(db.defs[i].role.choice).pick == Some(i) then YES else NO, None)
      else Value("n", SwitchValue(db, EnvOf(db, v), db.defs[i], Limits(vis, NO, NO, NO)), None)
    ensures Computed(db, v, m, i)
  {
    hide SwitchValue, TextValue, EnvOf, Good, PromptLimit, Eval;
    FinishedValue(db, rank, v, m, busy, rank(i), i);
  }

  /** What a member needs is below it, and what its prompts need for a value as well. */
  lemma MemberReady(db: Database, rank: nat -> nat, v: nat -> Value, m: Memo, busy: set<nat>, i: nat)
    requires Good(db, rank, v, m, busy, rank(i)) && i < |db.defs| && db.defs[i].role.Member?
    requires Below(db, rank, Edges(db.defs, i), rank(i))
    ensures Below(db, rank, PropsIds(db.defs[i].props), rank(i)) &&
      Known(db, rank, v, v, m, PropsIds(db.defs[i].props), rank(i))
    ensures Attached(db, v, i)
  {
    hide Good, Below, Known, Attached, Edges, Step, Computed;
    BelowEdges(db, rank, i, rank(i));
    BelowKnown(db, rank, v, m, PropsIds(db.defs[i].props), rank(i));
    FinishedValue(db, rank, v, m, busy, rank(i), i);
  }

  lemma UnknownComputed(db: Database, rank: nat -> nat, v: nat -> Value, m0: Memo, m: Memo, busy: set<nat>,
      bound: nat, i: nat)
    requires Good(db, rank, v, m0, busy, bound) && i < |db.defs| && db.defs[i].kind == Unknown && i !in m0.valid
    requires m == Start(m0, i).(curr := m0.curr[i := Value(db.defs[i].name, NO, None)])
    ensures Computed(db, v, m, i)
  {
    hide LimitsOf, SwitchValue, Edges, Attached;
    FinishedValue(db, rank, v, m0, busy, bound, i);
  }

  /** All of 'ids' have been computed. */
  ghost predicate Answered(db: Database, v: nat -> Value, m: Memo, ids: seq<nat>) {
    forall i :: i in ids ==> i in m.valid && Computed(db, v, m, i)
  }

  lemma AnsweredNone(db: Database, v: nat -> Value, m: Memo)
    ensures Answered(db, v, m, [])
  {
  }

  lemma AnsweredNext(db: Database, v: nat -> Value, m: Memo, m': Memo, ids: seq<nat>, i: nat)
    requires Answered(db, v, m, ids) && Keeps(m, m') && i in m'.valid && Computed(db, v, m', i)
    ensures Answered(db, v, m', ids + [i])
  {
    hide Keeps, Computed;
    forall j | j in ids ensures j in m'.valid && Computed(db, v, m', j) { KeepsComputed(db, v, m, m', j); }
  }

  lemma AnsweredValues(db: Database, v: nat -> Value, m: Memo, ids: seq<nat>)
    requires Answered(db, v, m, ids)
    ensures forall i :: i in ids ==> i in m.valid && i < |db.defs| && i in m.curr && m.curr[i] == v(i)
    ensures forall i :: i in ids ==> (i in m.cleared <==> Clears(db, v, i))
  {
    hide LimitsOf, Clears;
  }

  class Cache {
    var db: Database
    var valid: set<nat>
    var curr: map<nat, Value>
    var limits: map<nat, Limits>
    /** The field 'visible' of members. */
    var seen: map<nat, Tristate>
    var cleared: set<nat>
    ghost const rank: nat -> nat
    ghost var v: nat -> Value

    constructor (db: Database, ghost rank: nat -> nat, ghost v: nat -> Value)
      requires Theory(db, rank, v)
      ensures this.db == db && this.rank == rank && this.v == v
      ensures Now() == Memo({}, map[], map[], {})
    {
      this.db, this.rank, this.v := db, rank, v;
      valid, curr, limits, seen, cleared := {}, map[], map[], map[], {};
    }

    ghost function Now(): Memo
      reads `valid, `curr, `limits, `cleared
    {
      Memo(valid, curr, limits, cleared)
    }

    /** Evaluations below 'bound' do not touch members of choices that are not below it. */
    ghost predicate SeenKept(a: map<nat, Tristate>, b: map<nat, Tristate>, bound: nat)
      reads `db
    {
      forall k :: k in a && k < |db.defs| && db.defs[k].role.Member? && bound <= rank(db.defs[k].role.choice) ==>
        k in b && b[k] == a[k]
    }

    lemma SeenTrans(a: map<nat, Tristate>, b: map<nat, Tristate>, c: map<nat, Tristate>, bound: nat)
      ensures SeenKept(a, a, bound)
      ensures SeenKept(a, b, bound) && SeenKept(b, c, bound) ==> SeenKept(a, c, bound)
    {
    }

    lemma SeenWider(a: map<nat, Tristate>, b: map<nat, Tristate>, bound: nat)
      requires SeenKept(a, b, bound)
      ensures SeenKept(a, b, bound + 1)
    {
    }

    /** The value of a symbol that has been computed or needs no computation. */
    function Current(s: Symbol): Value
      reads `curr
      requires s.Config? ==> s.id in curr
    {
      match s
      case SymYes => Value("y", YES, None)
      case SymMod => Value("m", MOD, None)
      case SymNo => Value("n", NO, None)
      case Quoted(name) => Value(name, NO, None)
      case Config(i) => curr[i]
    }

    /** sym_calc_value for any symbol; the constants, and symbols that are valid, are left alone. */
    method CalcSymbol(s: Symbol, ghost u: nat -> Value, ghost busy: set<nat>, ghost bound: nat)
      requires Good(db, rank, v, Now(), busy, bound) && Known(db, rank, v, u, Now(), IdOf(s), bound)
      modifies `valid, `curr, `limits, `seen, `cleared
      ensures Good(db, rank, v, Now(), busy, bound) && Keeps(old(Now()), Now()) && SeenKept(old(seen), seen, bound)
      ensures AllSettled(Now(), u, IdOf(s))
      ensures (s.Config? ==> s.id in curr) && Current(s) == ValueIn(u, s)
      decreases bound, 0
    {
      hide Good, Computed, Theory;
      if s.Config? {
        assert s.id in IdOf(s);
        if s.id !in valid {
          CalcValue(s.id, busy, bound);
        } else {
          KeepsSelf(Now());
        }
        if rank(s.id) < bound { NotBusyValue(db, rank, v, Now(), busy, bound, s.id); }
      } else {
        KeepsSelf(Now());
      }
    }

    /** expr_calc_value. */
    method EvalExpr(e: Expr, ghost u: nat -> Value, ghost busy: set<nat>, ghost bound: nat) returns (r: Tristate)
      requires Good(db, rank, v, Now(), busy, bound) && Known(db, rank, v, u, Now(), Ids(e), bound)
      modifies `valid, `curr, `limits, `seen, `cleared
      ensures Good(db, rank, v, Now(), busy, bound) && Keeps(old(Now()), Now()) && SeenKept(old(seen), seen, bound)
      ensures AllSettled(Now(), u, Ids(e))
      ensures r == Eval(EnvOf(db, u), e)
      decreases bound, 2, e
    {
      hide Good, Keeps, Known, Computed, AllSettled;
      ghost var m0 := Now();
      match e
      case Sym(s) =>
        CalcSymbol(s, u, busy, bound);
        r := Current(s).tri;
      case Not(a) =>
        r := EvalExpr(a, u, busy, bound);
        r := 2 - r;
      case Bin(op, left, right) =>
        KnownParts(db, rank, v, u, m0, Ids(left), Ids(right), bound);
        var a := EvalExpr(left, u, busy, bound);
        ghost var m1 := Now();
        KnownKept(db, rank, v, u, m0, m1, Ids(right), bound);
        var b := EvalExpr(right, u, busy, bound);
        KeepsTrans(m0, m1, Now());
        SettledBoth(u, m1, Now(), Ids(left), Ids(right));
        r := Combine(op, a, b);
      case Compare(rel, lhs, rhs) =>
        r := EvalCompare(rel, lhs, rhs, u, busy, bound);
    }

    method EvalCompare(rel: Rel, lhs: Symbol, rhs: Symbol, ghost u: nat -> Value, ghost busy: set<nat>,
        ghost bound: nat)
      returns (r: Tristate)
      requires Good(db, rank, v, Now(), busy, bound) && Known(db, rank, v, u, Now(), IdOf(lhs) + IdOf(rhs), bound)
      modifies `valid, `curr, `limits, `seen, `cleared
      ensures Good(db, rank, v, Now(), busy, bound) && Keeps(old(Now()), Now()) && SeenKept(old(seen), seen, bound)
      ensures AllSettled(Now(), u, IdOf(lhs) + IdOf(rhs))
      ensures r == Eval(EnvOf(db, u), Compare(rel, lhs, rhs))
      decreases bound, 1
    {
      hide Good, Keeps, Known, Computed, AllSettled, Eval, EnvOf, StringOf, KindOf;
      ghost var m0 := Now();
      KnownParts(db, rank, v, u, m0, IdOf(lhs), IdOf(rhs), bound);
      CalcSymbol(lhs, u, busy, bound);
      ghost var m1 := Now();
      KnownKept(db, rank, v, u, m0, m1, IdOf(rhs), bound);
      CalcSymbol(rhs, u, busy, bound);
      KeepsTrans(m0, m1, Now());
      SettledBoth(u, m1, Now(), IdOf(lhs), IdOf(rhs));
      SettledSymbol(u, Now(), lhs, IdOf(rhs));
      CompareValue(db, u, rel, lhs, rhs);
      var kl, kr := KindOf(db, lhs), KindOf(db, rhs);
      var outcome := db.cmp(kl, StringOf(db, kl, Current(lhs)), kr, StringOf(db, kr, Current(rhs)));
      r := if Holds(rel, outcome) then YES else NO;
    }

    /** Expressions may be missing: then the result is 'absent'. */
    method EvalOr(e: Option<Expr>, absent: Tristate, ghost u: nat -> Value, ghost busy: set<nat>, ghost bound: nat)
      returns (r: Tristate)
      requires Good(db, rank, v, Now(), busy, bound) && Known(db, rank, v, u, Now(), OptIds(e), bound)
      modifies `valid, `curr, `limits, `seen, `cleared
      ensures Good(db, rank, v, Now(), busy, bound) && Keeps(old(Now()), Now()) && SeenKept(old(seen), seen, bound)
      ensures AllSettled(Now(), u, OptIds(e))
      ensures r == if e.None? then absent else Eval(EnvOf(db, u), e.value)
      decreases bound, 3
    {
      hide Good;
      if e.None? {
        KeepsSelf(Now());
        r := absent;
      } else {
        r := EvalExpr(e.value, u, busy, bound);
      }
    }

    /** One prompt in sym_calc_visibility. If the prompt of a member is not n, the choice has a value
        by then. */
    method CalcPrompt(i: nat, p: Property, ghost u: nat -> Value, ghost busy: set<nat>, ghost bound: nat)
        returns (c: Tristate)
      requires i < |db.defs| && Good(db, rank, v, Now(), busy, bound) && p in db.defs[i].props && p.kind == Prompt
      requires Known(db, rank, v, u, Now(), OptIds(p.cond), bound)
      requires db.defs[i].role.Member? ==> Settled(Now(), u, db.defs[i].role.choice) || Attached(db, u, i)
      modifies `valid, `curr, `limits, `seen, `cleared
      ensures Good(db, rank, v, Now(), busy, bound) && Keeps(old(Now()), Now()) && SeenKept(old(seen), seen, bound)
      ensures c == Squashed(EvalOpt(EnvOf(db, u), p.cond), Squashes(EnvOf(db, u), db.defs[i]))
      ensures db.defs[i].role.Member? && (c != NO || Settled(old(Now()), u, db.defs[i].role.choice)) ==>
        Settled(Now(), u, db.defs[i].role.choice)
      decreases bound, 4
    {
      hide Good, Keeps, Known, AllSettled, Attached, Settled, Eval, EnvOf, Squashes;
      var d := db.defs[i];
      ghost var m0 := Now();
      KeepsSelf(m0);
      c := EvalOr(p.cond, YES, u, busy, bound);
      if d.role.Member? { ChoiceSettled(db, u, m0, m0, Now(), i, p); }
      SquashedRight(u, i, c);
      if d.role.Member? && d.kind == Tristates && c == MOD && ChoiceIsY(d.role.choice) {
        c := NO;
      }
    }

    /** The loop over the prompts in sym_calc_visibility. */
    method CalcPrompts(i: nat, ghost u: nat -> Value, ghost busy: set<nat>, ghost bound: nat) returns (tri: Tristate)
      requires i < |db.defs| && Good(db, rank, v, Now(), busy, bound)
      requires Known(db, rank, v, u, Now(), PropsIds(db.defs[i].props), bound)
      requires db.defs[i].role.Member? ==> Settled(Now(), u, db.defs[i].role.choice) || Attached(db, u, i)
      modifies `valid, `curr, `limits, `seen, `cleared
      ensures Good(db, rank, v, Now(), busy, bound) && Keeps(old(Now()), Now()) && SeenKept(old(seen), seen, bound)
      ensures tri == PromptLimit(EnvOf(db, u), db.defs[i].props, Squashes(EnvOf(db, u), db.defs[i]))
      ensures tri != NO && db.defs[i].role.Member? ==> Settled(Now(), u, db.defs[i].role.choice)
      decreases bound, 5
    {
      hide Good, Keeps, Known, AllSettled, Attached, Settled, Eval, EnvOf, Squashes, Squashed, EvalOpt, SeenKept,
        PromptLimit, PropsIds;
      var d := db.defs[i];
      ghost var env, m0, squash := EnvOf(db, u), Now(), Squashes(EnvOf(db, u), d);
      KeepsSelf(m0);
      SeenTrans(seen, seen, seen, bound);
      PromptEnds(env, d.props, squash);
      tri := NO;
      var k := 0;
      while k < |d.props|
        invariant k <= |d.props|
        invariant Good(db, rank, v, Now(), busy, bound) && Keeps(m0, Now()) && SeenKept(old(seen), seen, bound)
        invariant Known(db, rank, v, u, Now(), PropsIds(d.props[k..]), bound)
        invariant PromptLimit(env, d.props, squash) == Combine(OrOp, tri, PromptLimit(env, d.props[k..], squash))
        invariant d.role.Member? ==> Settled(Now(), u, d.role.choice) || Attached(db, u, i)
        invariant d.role.Member? && tri != NO ==> Settled(Now(), u, d.role.choice)
      {
        ghost var m1, s1 := Now(), seen;
        var p := d.props[k];
        PromptAt(env, d.props, squash, k, tri);
        KnownParts(db, rank, v, u, m1, PropertyIds(p), PropsIds(d.props[k + 1..]), bound);
        if p.kind == Prompt {
          var c := CalcPrompt(i, p, u, busy, bound);
          SeenTrans(old(seen), s1, seen, bound);
          KeepsTrans(m0, m1, Now());
          KnownKept(db, rank, v, u, m1, Now(), PropsIds(d.props[k + 1..]), bound);
          tri := Combine(OrOp, tri, c);
        }
        k := k + 1;
      }
    }

    predicate ChoiceIsY(c: nat)
      reads `curr
    {
      c in curr && curr[c].tri == YES
    }

    lemma SquashedRight(u: nat -> Value, i: nat, c: Tristate)
      requires i < |db.defs| && (db.defs[i].role.Member? && c != NO ==> Settled(Now(), u, db.defs[i].role.choice))
      ensures var d := db.defs[i];
        (if d.role.Member? && d.kind == Tristates && c == MOD && ChoiceIsY(d.role.choice) then NO else c)
        == Squashed(c, Squashes(EnvOf(db, u), d))
    {
    }

    /** sym_get_default_prop. */
    method DefaultProperty(ps: seq<Property>, ghost busy: set<nat>, ghost bound: nat) returns (p: Option<Property>)
      requires Good(db, rank, v, Now(), busy, bound) && Below(db, rank, PropsIds(ps), bound)
      modifies `valid, `curr, `limits, `seen, `cleared
      ensures Good(db, rank, v, Now(), busy, bound) && Keeps(old(Now()), Now()) && SeenKept(old(seen), seen, bound)
      ensures p == ActiveDefault(EnvOf(db, v), ps)
      ensures p.Some? ==> p.value.kind == Default && Below(db, rank, OptIds(p.value.value), bound)
      ensures p.Some? ==> Below(db, rank, OptIds(p.value.cond), bound)
      decreases bound, 4
    {
      hide Good, Keeps, Below, Known, AllSettled;
      ghost var env, m0 := EnvOf(db, v), Now();
      KeepsSelf(m0);
      p := None;
      var k := 0;
      while k < |ps|
        invariant k <= |ps|
        invariant Good(db, rank, v, Now(), busy, bound) && Keeps(m0, Now()) && SeenKept(old(seen), seen, bound)
        invariant Below(db, rank, PropsIds(ps[k..]), bound)
        invariant p.None? && ActiveDefault(env, ps) == ActiveDefault(env, ps[k..])
      {
        assert ps[k..][0] == ps[k] && ps[k..][1..] == ps[k + 1..];
        BelowParts(db, rank, PropertyIds(ps[k]), PropsIds(ps[k + 1..]), bound);
        if ps[k].kind == Default {
          BelowParts(db, rank, OptIds(ps[k].cond), OptIds(ps[k].value), bound);
          ghost var m1 := Now();
          BelowKnown(db, rank, v, m1, OptIds(ps[k].cond), bound);
          var c := EvalOr(ps[k].cond, YES, v, busy, bound);
          KeepsTrans(m0, m1, Now());
          if c != NO {
            return Some(ps[k]);
          }
        }
        k := k + 1;
      }
    }

    /** sym_calc_visibility, for a symbol being computed that is no member. */
    method CalcVisibility(i: nat, ghost busy: set<nat>)
      requires i < |db.defs| && i in busy && Good(db, rank, v, Now(), busy, rank(i)) && !db.defs[i].role.Member?
      requires Below(db, rank, Edges(db.defs, i), rank(i))
      modifies `valid, `curr, `limits, `seen, `cleared
      ensures Good(db, rank, v, Now(), busy, rank(i)) && KeepsExcept(old(Now()), Now(), i) &&
        SeenKept(old(seen), seen, rank(i))
      ensures i in limits && limits[i] == LimitsOf(db, EnvOf(db, v), db.defs[i])
      ensures i in cleared <==> i in old(cleared)
      decreases rank(i), 6
    {
      hide Good, Keeps, KeepsExcept, Below, Edges, Known, Eval, EnvOf, PromptLimit, SeenKept;
      ghost var m0, s0, bound := Now(), seen, rank(i);
      KeepsSelf(m0);
      BelowEdges(db, rank, i, bound);
      var d := db.defs[i];
      BelowKnown(db, rank, v, m0, PropsIds(d.props), bound);
      var tri := CalcPrompts(i, v, busy, bound);
      ghost var m1, s1 := Now(), seen;
      KeepsExceptTrans(m0, m0, m1, i);
      if tri == MOD && (d.kind != Tristates || db.modules == NO) {
        tri := YES;
      }
      var dirTri := EvalPromoted(d.kind, d.dirDep, YES, busy, bound);
      ghost var m2, s2 := Now(), seen;
      SeenTrans(s0, s1, s2, bound);
      KeepsExceptTrans(m0, m1, m2, i);
      var revTri := EvalPromoted(d.kind, d.revDep, NO, busy, bound);
      ghost var m3, s3 := Now(), seen;
      SeenTrans(s0, s2, s3, bound);
      KeepsExceptTrans(m0, m2, m3, i);
      var impTri := EvalPromoted(d.kind, d.implied, NO, busy, bound);
      ghost var m4 := Now();
      SeenTrans(s0, s3, seen, bound);
      KeepsExceptTrans(m0, m3, m4, i);
      ClearedKept(db, rank, v, m0, m1, m2, m3, m4, busy, bound, i);
      limits := limits[i := Limits(tri, dirTri, revTri, impTri)];
      assert Now() == m4.(limits := m4.limits[i := Limits(tri, dirTri, revTri, impTri)]);
      WriteLimits(db, rank, v, m4, busy, bound, i, Limits(tri, dirTri, revTri, impTri));
      KeepsExceptTrans(m0, m4, Now(), i);
    }

    /** sym_calc_visibility of a member, for its own value or for that of its choice. */
    method CalcMemberVisibility(k: nat, ghost u: nat -> Value, ghost busy: set<nat>, ghost bound: nat)
      requires k < |db.defs| && db.defs[k].role.Member? && Good(db, rank, v, Now(), busy, bound)
      requires Known(db, rank, v, u, Now(), PropsIds(db.defs[k].props), bound)
      requires Settled(Now(), u, db.defs[k].role.choice) || Attached(db, u, k)
      modifies `valid, `curr, `limits, `seen, `cleared
      ensures Good(db, rank, v, Now(), busy, bound) && Keeps(old(Now()), Now())
      ensures k in seen && seen[k] == VisibleIn(db, EnvOf(db, u), k)
      ensures SeenKept(old(seen)[k := seen[k]], seen, bound)
      ensures seen[k] != NO ==> Settled(Now(), u, db.defs[k].role.choice)
      decreases bound, 6
    {
      hide Good, Keeps, Known, Attached, Settled, EnvOf, Eval, PromptLimit, PropsIds;
      var tri := CalcPrompts(k, u, busy, bound);
      if tri == MOD && (db.defs[k].kind != Tristates || db.modules == NO) {
        tri := YES;
      }
      seen := seen[k := tri];
    }

    /** One of dir_dep, rev_dep and implied: m counts as y for what is effectively a bool. */
    method EvalPromoted(k: SymbolType, e: Option<Expr>, absent: Tristate, ghost busy: set<nat>, ghost bound: nat)
      returns (tri: Tristate)
      requires Good(db, rank, v, Now(), busy, bound) && Below(db, rank, OptIds(e), bound)
      modifies `valid, `curr, `limits, `seen, `cleared
      ensures Good(db, rank, v, Now(), busy, bound) && Keeps(old(Now()), Now()) && SeenKept(old(seen), seen, bound)
      ensures tri == Promoted(db, k, if e.None? then absent else Eval(EnvOf(db, v), e.value))
      decreases bound, 4
    {
      hide Good, Keeps, Below, Known, AllSettled;
      BelowKnown(db, rank, v, Now(), OptIds(e), bound);
      tri := EvalOr(e, absent, v, busy, bound);
      if tri == MOD && EffectiveKind(db, k) == Boolean {
        tri := YES;
      }
    }

    /** The bool and tristate case of sym_calc_value, but for picked members. */
    method CalcSwitch(i: nat, lim: Limits, ghost busy: set<nat>) returns (tri: Tristate)
      requires i < |db.defs| && i in busy && Good(db, rank, v, Now(), busy, rank(i))
      requires Below(db, rank, PropsIds(db.defs[i].props), rank(i))
      modifies `valid, `curr, `limits, `seen, `cleared
      ensures Good(db, rank, v, Now(), busy, rank(i)) && Keeps(old(Now()), Now()) && SeenKept(old(seen), seen, rank(i))
      ensures tri == SwitchValue(db, EnvOf(db, v), db.defs[i], lim)
      decreases rank(i), 5
    {
      hide Good, Below, Known, AllSettled, Keeps, ActiveDefault, Eval, EnvOf, Settled;
      ghost var m0, bound := Now(), rank(i);
      KeepsSelf(m0);
      var d := db.defs[i];
      tri := NO;
      if lim.visible != NO && d.user.Some? {
        tri := Combine(AndOp, d.user.value.tri, lim.visible);
      } else if !d.role.Choice? {
        var p := DefaultProperty(d.props, busy, bound);
        if p.Some? {
          ghost var m1 := Now();
          BelowKnown(db, rank, v, m1, OptIds(p.value.value), bound);
          var x := EvalOr(p.value.value, YES, v, busy, bound);
          ghost var m2 := Now();
          KeepsTrans(m0, m1, m2);
          BelowKnown(db, rank, v, m2, OptIds(p.value.cond), bound);
          var c := EvalOr(p.value.cond, YES, v, busy, bound);
          KeepsTrans(m0, m2, Now());
          tri := Combine(AndOp, x, c);
        }
        if lim.implied != NO {
          tri := Combine(OrOp, tri, lim.implied);
          tri := Combine(AndOp, tri, lim.dirDep);
        }
      }
      if lim.dirDep == NO && lim.revDep != NO {
        tri := NO;
      } else {
        tri := Combine(OrOp, tri, lim.revDep);
      }
      if tri == MOD && EffectiveKind(db, d.kind) == Boolean {
        tri := YES;
      }
    }

    /** The string, int and hex case of sym_calc_value. */
    method CalcText(i: nat, lim: Limits, ghost busy: set<nat>) returns (str: string)
      requires i < |db.defs| && i in busy && Good(db, rank, v, Now(), busy, rank(i))
      requires Below(db, rank, PropsIds(db.defs[i].props), rank(i))
      modifies `valid, `curr, `limits, `seen, `cleared
      ensures Good(db, rank, v, Now(), busy, rank(i)) && Keeps(old(Now()), Now()) && SeenKept(old(seen), seen, rank(i))
      ensures str == TextValue(EnvOf(db, v), v, db.defs[i], lim)
      decreases rank(i), 5
    {
      hide Good, Below, Known, Keeps, AllSettled;
      ghost var m0, bound := Now(), rank(i);
      KeepsSelf(m0);
      var d := db.defs[i];
      if lim.visible != NO && d.user.Some? {
        return d.user.value.str;
      }
      var p := DefaultProperty(d.props, busy, bound);
      str := "";
      if p.Some? && DefaultSource(p.value).Some? {
        ghost var m1 := Now();
        var ds := DefaultSource(p.value).value;
        BelowKnown(db, rank, v, m1, IdOf(ds), bound);
        CalcSymbol(ds, v, busy, bound);
        KeepsTrans(m0, m1, Now());
        str := Current(ds).str;
      }
    }

    // ----- choices -----

    /** The loop over the members in sym_calc_choice: their visibility while the choice is y, and
        whether each visible one has a value from the user. */
    method CalcMembers(c: nat, ghost busy: set<nat>) returns (keep: bool)
      requires c < |db.defs| && db.defs[c].role.Choice? && c in busy && Good(db, rank, v, Now(), busy, rank(c))
      requires Settled(Now(), Assume(v, c), c)
      modifies `valid, `curr, `limits, `seen, `cleared
      ensures Good(db, rank, v, Now(), busy, rank(c)) && Keeps(old(Now()), Now()) &&
        SeenKept(old(seen), seen, rank(c) + 1)
      ensures SeenMembers(c)
      ensures keep <==> !Forgets(db, EnvOf(db, Assume(v, c)), db.defs[c].role.members)
      decreases rank(c), 7
    {
      hide Good, Keeps, Known, Attached, Settled, LimitsOf, EnvOf, VisibleIn, SeenKept, SeenAs, Forgets;
      ghost var m0, s0, u, bound := Now(), seen, Assume(v, c), rank(c);
      ghost var env := EnvOf(db, u);
      var members := db.defs[c].role.members;
      KeepsSelf(m0);
      SeenNothing(db, env, s0, bound + 1);
      keep := true;
      var k := 0;
      while k < |members|
        invariant k <= |members|
        invariant Good(db, rank, v, Now(), busy, bound) && Keeps(m0, Now()) && SeenKept(s0, seen, bound + 1)
        invariant Settled(Now(), u, c)
        invariant SeenAs(seen, env, members[..k])
        invariant keep <==> !Forgets(db, env, members[..k])
      {
        var m: nat := members[k];
        assert m in members;
        ghost var m1, s1 := Now(), seen;
        MembersShielded(db, rank, v, m1, busy, bound, c);
        MemberKnown(db, rank, v, m1, busy, bound, c, m);
        CalcMemberVisibility(m, u, busy, bound);
        KeepsTrans(m0, m1, Now());
        StaysSettled(u, m1, Now(), c);
        SeenNext(env, s0, s1, seen, c, members, k);
        if seen[m] != NO {
          keep := keep && db.defs[m].user.Some?;
        }
        k := k + 1;
      }
      assert members[..k] == members;
      AllSeen(c);
    }

    ghost predicate SeenAs(s: map<nat, Tristate>, env: Env, ks: seq<nat>)
      reads `db
    {
      forall k :: k in ks ==> k in s && s[k] == VisibleIn(db, env, k)
    }

    lemma AllSeen(c: nat)
      requires c < |db.defs| && db.defs[c].role.Choice?
      requires SeenAs(seen, EnvOf(db, Assume(v, c)), db.defs[c].role.members)
      ensures SeenMembers(c)
    {
    }

    lemma SeenNothing(d: Database, env: Env, s: map<nat, Tristate>, bound: nat)
      ensures SeenKept(s, s, bound) && SeenAs(s, env, []) && !Forgets(d, env, [])
    {
    }

    /** One more member of choice c has been looked at. */
    lemma SeenNext(env: Env, s0: map<nat, Tristate>, s1: map<nat, Tristate>, s2: map<nat, Tristate>, c: nat,
        ms: seq<nat>, k: nat)
      requires k < |ms| && (forall m :: m in ms ==> m < |db.defs| && db.defs[m].role == Member(c))
      requires SeenKept(s0, s1, rank(c) + 1) && SeenAs(s1, env, ms[..k])
      requires ms[k] in s2 && s2[ms[k]] == VisibleIn(db, env, ms[k]) && SeenKept(s1[ms[k] := s2[ms[k]]], s2, rank(c))
      ensures SeenKept(s0, s2, rank(c) + 1) && SeenAs(s2, env, ms[..k + 1])
      ensures ms[k] < |db.defs|
      ensures Forgets(db, env, ms[..k + 1]) <==>
        Forgets(db, env, ms[..k]) || (s2[ms[k]] != NO && db.defs[ms[k]].user.None?)
    {
      hide VisibleIn, Forgets;
      assert ms[k] in ms && ms[..k + 1] == ms[..k] + [ms[k]];
      forall m | m in ms[..k] ensures m in s2 && s2[m] == VisibleIn(db, env, m) { assert m in ms; }
      ForgetsNext(db, env, ms[..k], ms[k]);
    }

    /** The field 'visible' of the members of c is what it is while c is y. */
    ghost predicate SeenMembers(c: nat)
      reads `seen, `db, `v
      requires c < |db.defs| && db.defs[c].role.Choice?
    {
      forall k :: k in db.defs[c].role.members ==> k in seen && seen[k] == VisibleIn(db, EnvOf(db, Assume(v, c)), k)
    }

    lemma StillSeen(c: nat, s: map<nat, Tristate>)
      requires c < |db.defs| && db.defs[c].role.Choice? && SeenKept(s, seen, rank(c))
      requires forall k :: k in db.defs[c].role.members ==> k < |db.defs| && db.defs[k].role == Member(c)
      requires forall k :: k in db.defs[c].role.members ==> k in s && s[k] == VisibleIn(db, EnvOf(db, Assume(v, c)), k)
      ensures SeenMembers(c)
    {
      hide VisibleIn;
    }

    /** sym_choice_default. */
    method ChoiceDefault(c: nat, ghost busy: set<nat>) returns (pick: Option<nat>)
      requires c < |db.defs| && db.defs[c].role.Choice? && c in busy && Good(db, rank, v, Now(), busy, rank(c))
      requires Settled(Now(), Assume(v, c), c) && SeenMembers(c)
      modifies `valid, `curr, `limits, `seen, `cleared
      ensures Good(db, rank, v, Now(), busy, rank(c)) && Keeps(old(Now()), Now()) && SeenKept(old(seen), seen, rank(c))
      ensures var env, d := EnvOf(db, Assume(v, c)), db.defs[c];
        pick == if FirstPreset(db, env, d.props).Some? then FirstPreset(db, env, d.props)
          else FirstVisible(db, env, d.role.members)
      decreases rank(c), 7
    {
      hide Good, Keeps, Known, Settled, LimitsOf, EnvOf, VisibleIn, SeenKept, Eval, AllSettled, Attached, Closed;
      SeenTrans(seen, seen, seen, rank(c));
      ghost var m0, u, bound := Now(), Assume(v, c), rank(c);
      ghost var env := EnvOf(db, u);
      var ps, members := db.defs[c].props, db.defs[c].role.members;
      KeepsSelf(m0);
      ChoiceKnown(db, rank, v, m0, busy, bound, c);
      MembersShielded(db, rank, v, m0, busy, bound, c);
      PresetMembers(db, c);
      var k := 0;
      while k < |ps|
        invariant k <= |ps|
        invariant Good(db, rank, v, Now(), busy, bound) && Keeps(m0, Now()) && SeenKept(old(seen), seen, bound)
        invariant Known(db, rank, v, u, Now(), PropsIds(ps[k..]), bound) && SeenMembers(c)
        invariant FirstPreset(db, env, ps) == FirstPreset(db, env, ps[k..])
      {
        ghost var m1, s1 := Now(), seen;
        assert ps[k..][0] == ps[k] && ps[k..][1..] == ps[k + 1..] && ps[k] in ps;
        KnownParts(db, rank, v, u, m1, PropertyIds(ps[k]), PropsIds(ps[k + 1..]), bound);
        var m := PresetOf(ps[k]);
        if m.Some? {
          var x := EvalOr(ps[k].cond, YES, u, busy, bound);
          SeenTrans(old(seen), s1, seen, bound);
          StillSeen(c, s1);
          KeepsTrans(m0, m1, Now());
          KnownKept(db, rank, v, u, m1, Now(), PropsIds(ps[k + 1..]), bound);
          if x != NO && seen[m.value] != NO {
            return m;
          }
        }
        k := k + 1;
      }
      k := 0;
      while k < |members|
        invariant k <= |members|
        invariant FirstVisible(db, env, members) == FirstVisible(db, env, members[k..])
      {
        assert members[k..][0] == members[k] && members[k..][1..] == members[k + 1..] && members[k] in members;
        var m: nat := members[k];
        if seen[m] != NO {
          return Some(m);
        }
        k := k + 1;
      }
      return None;
    }

    /** sym_calc_choice, entered when the choice is y so far. */
    method CalcChoice(c: nat, ghost busy: set<nat>) returns (pick: Option<nat>)
      requires c < |db.defs| && db.defs[c].role.Choice? && c in busy && Good(db, rank, v, Now(), busy, rank(c))
      requires Settled(Now(), Assume(v, c), c) && c !in cleared && c in limits
      modifies `valid, `curr, `limits, `seen, `cleared
      ensures Good(db, rank, v, Now(), busy, rank(c)) && KeepsExcept(old(Now()), Now(), c) &&
        SeenKept(old(seen), seen, rank(c) + 1)
      ensures pick == PickIn(db, EnvOf(db, Assume(v, c)), db.defs[c])
      ensures c in cleared <==> Forgets(db, EnvOf(db, Assume(v, c)), db.defs[c].role.members)
      ensures c in limits && limits[c] == old(limits)[c]
      decreases rank(c), 8
    {
      hide Good, Keeps, KeepsExcept, Settled, LimitsOf, EnvOf, VisibleIn, FirstPreset, FirstVisible, Forgets;
      ghost var m0, u := Now(), Assume(v, c);
      KeepsSelf(m0);
      var keep := CalcMembers(c, busy);
      ghost var m1 := Now();
      StaysSettled(u, m0, m1, c);
      BusyKept(db, rank, v, m0, m1, busy, rank(c), c);
      KeepsExceptTrans(m0, m0, m1, c);
      if !keep {
        WriteCleared(db, rank, v, m1, busy, rank(c), c);
        cleared := cleared + {c};
        assert Now() == m1.(cleared := m1.cleared + {c});
        KeepsExceptTrans(m0, m1, Now(), c);
        ClearedSettled(u, m1, c);
      }
      var user := db.defs[c].role.userPick;
      if user.Some? {
        UserPickMember(db, rank, v, Now(), busy, rank(c), c);
        if seen[user.value] != NO { return user; }
      }
      ghost var m2 := Now();
      pick := ChoiceDefault(c, busy);
      BusyKept(db, rank, v, m2, Now(), busy, rank(c), c);
      KeepsExceptTrans(m0, m2, Now(), c);
    }

    // ----- the value of a symbol -----

    /** A choice that is y so far: it is n if nothing is picked. */
    method SettleChoice(c: nat, ghost m0: Memo, ghost busy: set<nat>)
      requires c < |db.defs| && db.defs[c].role.Choice? && c in busy && Good(db, rank, v, Now(), busy, rank(c))
      requires KeepsExcept(m0, Now(), c) && c in curr && curr[c] == Value("n", YES, None) && c !in cleared &&
        c in limits
      modifies `valid, `curr, `limits, `seen, `cleared
      ensures Good(db, rank, v, Now(), busy, rank(c)) && KeepsExcept(m0, Now(), c) &&
        SeenKept(old(seen), seen, rank(c) + 1)
      ensures var pick := PickIn(db, EnvOf(db, Assume(v, c)), db.defs[c]);
        c in curr && curr[c] == Value("n", if pick.None? then NO else YES, pick)
      ensures c in cleared <==> Forgets(db, EnvOf(db, Assume(v, c)), db.defs[c].role.members)
      ensures c in limits && limits[c] == old(limits)[c]
      decreases rank(c), 9
    {
      hide Good, Keeps, KeepsExcept, Settled, LimitsOf, EnvOf, PickIn, Forgets, SeenKept;
      ghost var m2 := Now();
      AssumedNow(db, rank, v, m2, busy, rank(c), c);
      var pick := CalcChoice(c, busy);
      KeepsExceptTrans(m0, m2, Now(), c);
      SetCurr(c, Value("n", if pick.None? then NO else YES, pick), m0, busy);
    }

    /** sym_calc_value, once the symbol is marked valid, for one that is no member. */
    method CalcOther(i: nat, ghost busy: set<nat>)
      requires i < |db.defs| && !db.defs[i].role.Member? && db.defs[i].kind != Unknown
      requires i in busy && i !in cleared && Good(db, rank, v, Now(), busy, rank(i)) &&
        Below(db, rank, Edges(db.defs, i), rank(i))
      modifies `valid, `curr, `limits, `seen, `cleared
      ensures Good(db, rank, v, Now(), busy, rank(i)) && KeepsExcept(old(Now()), Now(), i) &&
        SeenKept(old(seen), seen, rank(i) + 1)
      ensures Computed(db, v, Now(), i)
      decreases rank(i), 10
    {
      hide Good, Keeps, KeepsExcept, Below, Edges, LimitsOf, SwitchValue, TextValue, Step, Eval, PickIn, Forgets,
        EnvOf, Computed, ChoiceValue, Clears, Settled, SeenKept;
      ghost var m0, s0 := Now(), seen;
      var d := db.defs[i];
      CalcVisibility(i, busy);
      // the value seen if the symbol were reached again
      SetCurr(i, if Switch(d.kind) then Value("n", NO, None) else Value("", NO, None), m0, busy);
      BelowEdges(db, rank, i, rank(i));
      FinishedValue(db, rank, v, m0, busy, rank(i), i);
      ghost var m1, s1 := Now(), seen;
      SeenWider(s0, s1, rank(i));
      if Switch(d.kind) {
        var tri := CalcSwitch(i, limits[i], busy);
        ghost var s2 := seen;
        SeenWider(s1, s2, rank(i));
        SeenTrans(s0, s1, s2, rank(i) + 1);
        BusyKept(db, rank, v, m1, Now(), busy, rank(i), i);
        KeepsExceptTrans(m0, m1, Now(), i);
        SetCurr(i, Value("n", tri, None), m0, busy);
        if d.role.Choice? && tri == YES {
          SettleChoice(i, m0, busy);
          SeenTrans(s0, s2, seen, rank(i) + 1);
        }
        SwitchComputed(db, rank, v, Now(), busy, i);
      } else {
        var str := CalcText(i, limits[i], busy);
        SeenWider(s1, seen, rank(i));
        SeenTrans(s0, s1, seen, rank(i) + 1);
        BusyKept(db, rank, v, m1, Now(), busy, rank(i), i);
        KeepsExceptTrans(m0, m1, Now(), i);
        SetCurr(i, Value(str, NO, None), m0, busy);
        TextComputed(db, rank, v, Now(), busy, i);
      }
    }

    /** An assignment to the value of a symbol being computed. */
    method SetCurr(i: nat, x: Value, ghost m0: Memo, ghost busy: set<nat>)
      requires i in busy && Good(db, rank, v, Now(), busy, rank(i)) && KeepsExcept(m0, Now(), i)
      modifies `curr
      ensures Good(db, rank, v, Now(), busy, rank(i)) && KeepsExcept(m0, Now(), i)
      ensures curr == old(curr)[i := x]
    {
      hide Good, KeepsExcept;
      ghost var m := Now();
      WriteCurr(db, rank, v, m, busy, rank(i), i, x);
      curr := curr[i := x];
      assert Now() == m.(curr := m.curr[i := x]);
      KeepsExceptTrans(m0, m, Now(), i);
    }

    lemma SeenOwn(i: nat, a: map<nat, Tristate>, b: map<nat, Tristate>)
      requires i < |db.defs| && db.defs[i].role.Member? && rank(db.defs[i].role.choice) < rank(i)
      requires i in b && SeenKept(a[i := b[i]], b, rank(i))
      ensures SeenKept(a, b, rank(i))
    {
    }

    /** The same for a member of a choice. */
    method CalcMember(i: nat, ghost busy: set<nat>)
      requires i < |db.defs| && db.defs[i].role.Member? && db.defs[i].kind != Unknown
      requires i in busy && i !in cleared && Good(db, rank, v, Now(), busy, rank(i)) &&
        Below(db, rank, Edges(db.defs, i), rank(i))
      requires rank(db.defs[i].role.choice) < rank(i)
      modifies `valid, `curr, `limits, `seen, `cleared
      ensures Good(db, rank, v, Now(), busy, rank(i)) && KeepsExcept(old(Now()), Now(), i) &&
        SeenKept(old(seen), seen, rank(i))
      ensures Computed(db, v, Now(), i)
      decreases rank(i), 10
    {
      hide Good, Keeps, KeepsExcept, Below, Edges, SwitchValue, TextValue, Step, EnvOf, LimitsOf, VisibleIn, Computed,
        Known, Attached, SeenKept;
      ghost var m0 := Now();
      var d := db.defs[i];
      KeepsSelf(m0);
      MemberReady(db, rank, v, m0, busy, i);
      ghost var s0 := seen;
      CalcMemberVisibility(i, v, busy, rank(i));
      ghost var s1 := seen;
      SeenOwn(i, s0, s1);
      BusyKept(db, rank, v, m0, Now(), busy, rank(i), i);
      KeepsExceptTrans(m0, m0, Now(), i);
      // the value seen if the symbol were reached again
      SetCurr(i, Value("n", NO, None), m0, busy);
      ghost var m1, vis := Now(), seen[i];
      var tri;
      if seen[i] == YES {
        tri := if curr[d.role.choice].pick == Some(i) then YES else NO;
      } else {
        tri := CalcSwitch(i, Limits(seen[i], NO, NO, NO), busy);
        BusyKept(db, rank, v, m1, Now(), busy, rank(i), i);
        KeepsExceptTrans(m0, m1, Now(), i);
        SeenTrans(s0, s1, seen, rank(i));
      }
      SetCurr(i, Value("n", tri, None), m0, busy);
      MemberComputed(db, rank, v, Now(), busy, i, vis);
    }

    /** sym_calc_value. 'busy' are the symbols being computed right now; their ranks are at least
        'bound', so none of them is ever asked for again, but for a choice by its members. */
    method CalcValue(i: nat, ghost busy: set<nat>, ghost bound: nat)
      requires Good(db, rank, v, Now(), busy, bound) && i < |db.defs| && rank(i) < bound
      modifies `valid, `curr, `limits, `seen, `cleared
      ensures Good(db, rank, v, Now(), busy, bound) && Keeps(old(Now()), Now()) && SeenKept(old(seen), seen, bound)
      ensures i in valid && i !in busy && Computed(db, v, Now(), i)
      decreases rank(i), 11
    {
      hide Good, Keeps, KeepsExcept, Below, Edges, Computed;
      ghost var m0 := Now();
      if i in valid {
        NotBusy(db, rank, v, m0, busy, bound, i);
        KeepsSelf(m0);
        return;
      }
      StartGood(db, rank, v, m0, busy, bound, i);
      valid := valid + {i};
      assert Now() == Start(m0, i);
      ghost var busy' := busy + {i};
      KeepsSelf(Now());
      var d := db.defs[i];
      if d.kind == Unknown {
        SetCurr(i, Value(d.name, NO, None), Start(m0, i), busy');
        UnknownComputed(db, rank, v, m0, Now(), busy, bound, i);
      } else if d.role.Member? {
        CalcMember(i, busy');
      } else {
        CalcOther(i, busy');
      }
      KeepsExceptTrans(m0, Start(m0, i), Now(), i);
      KeepsNew(m0, Now(), i);
      BusyValid(db, rank, v, Now(), busy', rank(i), i);
      FinishGood(db, rank, v, m0, Now(), busy, bound, i);
    }

    /** sym_clear_all_valid followed by asking for any symbols, in any order. Where a choice has lost
        the user's mark before, this is an evaluation of the database without it, whose values are w. */
    method Recalculate(order: seq<nat>, ghost w: nat -> Value)
      requires Theory(Forget(db, cleared), rank, w) && forall i: nat :: i in order ==> i < |db.defs|
      modifies this
      ensures db == Forget(old(db), old(cleared)) && v == w
      ensures Good(db, rank, v, Now(), {}, 0)
      ensures forall i :: i in order ==>
        i in valid && i in curr && curr[i] == v(i) && (i in cleared <==> Clears(db, v, i))
    {
      hide Good, Theory, Keeps, Clears, Forget, Answered;
      db, v, cleared := Forget(db, cleared), w, {};
      valid := {};
      EmptyGood();
      AnsweredNone(db, v, Now());
      var k := 0;
      while k < |order|
        invariant k <= |order| && Good(db, rank, v, Now(), {}, 0) && db == Forget(old(db), old(cleared)) && v == w
        invariant Answered(db, v, Now(), order[..k])
      {
        assert order[k] in order;
        ghost var m := Now();
        IdleGood(0);
        CalcValue(order[k], {}, rank(order[k]) + 1);
        IdleGood(rank(order[k]) + 1);
        AnsweredNext(db, v, m, Now(), order[..k], order[k]);
        k := k + 1;
        assert order[..k] == order[..k - 1] + [order[k - 1]];
      }
      assert order[..k] == order;
      AnsweredValues(db, v, Now(), order);
    }

    lemma EmptyGood()
      requires Theory(db, rank, v) && valid == {} && cleared == {}
      ensures Good(db, rank, v, Now(), {}, 0)
    {
    }

    lemma IdleGood(bound: nat)
      requires Good(db, rank, v, Now(), {}, bound)
      ensures forall b: nat :: Good(db, rank, v, Now(), {}, b)
    {
    }
  }

  /** conf_parse followed by an evaluation, where no member depends on its choice through other
      symbols: when the search for recursive dependencies counts no error, every symbol asked for
      gets the value of the uncached recursive valuation, that is the only valuation satisfying the
      equations, and the choices that forget the user are those that should. */
  method CheckThenCalculate(db: Database, order: seq<nat>)
      returns (errors: nat, values: map<nat, Value>, forgotten: set<nat>)
    requires Closed(db.defs) && GuardedMembers(db) && forall i :: i in order ==> i < |db.defs|
    requires !Detour(db.defs)
    ensures errors == 0 <==> !Cyclic(db.defs)
    ensures errors == 0 ==> forall i :: i in order ==> i in values
    ensures errors == 0 ==> forall v: nat -> Value, i :: Solution(db, v) && i in order ==>
              values[i] == v(i) && (i in forgotten <==> Clears(db, v, i))
    ensures errors == 0 ==> exists rank: nat -> nat ::
              Ranked(db.defs, rank) && (forall i :: i in order ==> values[i] == Plain(db, rank, i))
  {
    hide Cyclic, Detour, Links, Edges, Clears, Solution, Ranked;
    var checker := new DepCheck.Checker(db.defs, true);
    errors := checker.CheckAll();
    values, forgotten := map[], {};
    if errors > 0 {
      return;
    }
    ghost var done := checker.done;
    ghost var rank := (i: nat) => DepCheck.Position(done, i);
    ghost var w := (i: nat) => Plain(db, rank, i);
    PlainTheory(db, rank);
    var cache := new Cache(db, rank, w);
    ForgetNothing(db);
    cache.Recalculate(order, w);
    values, forgotten := cache.curr, cache.cleared;
    forall v: nat -> Value, i | Solution(db, v) && i in order
      ensures values[i] == v(i) && (i in forgotten <==> Clears(db, v, i))
    {
      SolutionUnique(db, rank, v, w, i);
      ClearsUnique(db, rank, v, w, i);
    }
  }

  /** An evaluation of all symbols, and another one. Each gives the values of the only solution of
      the equations, the second without the user's value of the choices that have forgotten it; and
      the two agree if and only if each of those choices is kept at y by its reverse dependency. */
  method EvaluateTwice(db: Database, ghost rank: nat -> nat, order: seq<nat>)
    returns (first: map<nat, Value>, lost: set<nat>, second: map<nat, Value>)
    requires Closed(db.defs) && Ranked(db.defs, rank) && GuardedMembers(db)
    requires forall i: nat :: i in order <==> i < |db.defs|
    ensures forall v: nat -> Value :: Solution(db, v) ==> Agrees(db, first, v) && LostExactly(db, v, lost)
    ensures forall w: nat -> Value :: Solution(Forget(db, lost), w) ==> Agrees(db, second, w)
    ensures forall v: nat -> Value :: Solution(db, v) ==>
              (SameValues(db, first, second) <==> KeptByOthers(db, v, lost))
  {
    hide Theory, Closed, Ranked, GuardedMembers, Solution, Clears, Forget, Plain, KeptByOthers, LostExactly, Good;
    ghost var v := (i: nat) => Plain(db, rank, i);
    PlainTheory(db, rank);
    ForgetNothing(db);
    var cache := new Cache(db, rank, v);
    cache.Recalculate(order, v);
    first, lost := cache.curr, cache.cleared;
    AllComputed(db, rank, v, cache.Now());
    ForgetTheory(db, rank, lost);
    ghost var w := (i: nat) => Plain(Forget(db, lost), rank, i);
    cache.Recalculate(order, w);
    second := cache.curr;
    AllComputed(Forget(db, lost), rank, w, cache.Now());
    AgreesForget(db, lost, second, w);
    TwiceExact(db, rank, v, w, first, lost, second);
  }

  /** The values are there and those of v. */
  ghost predicate Agrees(db: Database, values: map<nat, Value>, v: nat -> Value) {
    forall i: nat :: i < |db.defs| ==> i in values && values[i] == v(i)
  }

  ghost predicate SameValues(db: Database, a: map<nat, Value>, b: map<nat, Value>) {
    forall i: nat :: i < |db.defs| ==> i in a && i in b && a[i] == b[i]
  }

  ghost predicate LostExactly(db: Database, v: nat -> Value, lost: set<nat>) {
    LostBy(db, v, lost) && forall i: nat :: i < |db.defs| && Clears(db, v, i) ==> i in lost
  }

  lemma AllComputed(db: Database, rank: nat -> nat, v: nat -> Value, m: Memo)
    requires Good(db, rank, v, m, {}, 0) && forall i: nat :: i < |db.defs| ==> i in m.valid
    ensures Closed(db.defs) && Solution(db, v) && Agrees(db, m.curr, v) && LostExactly(db, v, m.cleared)
  {
    hide Clears, Closed, Ranked, Solution, LimitsOf;
    forall i: nat | i in m.valid
      ensures i < |db.defs| && i in m.curr && m.curr[i] == v(i) && (i in m.cleared <==> Clears(db, v, i))
    {
      assert Computed(db, v, m, i);
    }
  }

  lemma AgreesForget(db: Database, lost: set<nat>, values: map<nat, Value>, w: nat -> Value)
    ensures |Forget(db, lost).defs| == |db.defs|
    ensures Agrees(Forget(db, lost), values, w) ==> Agrees(db, values, w)
  {
  }

  /** Two valuations of which one is the only solution. */
  lemma AllUnique(db: Database, rank: nat -> nat, v: nat -> Value, w: nat -> Value)
    requires Closed(db.defs) && Ranked(db.defs, rank) && Solution(db, v)
    ensures Solution(db, w) <==> forall i: nat :: i < |db.defs| ==> w(i) == v(i)
  {
    hide Step, Links, Edges;
    if Solution(db, w) {
      forall i: nat | i < |db.defs| ensures w(i) == v(i) { SolutionUnique(db, rank, w, v, i); }
    } else if forall i: nat :: i < |db.defs| ==> w(i) == v(i) {
      forall i: nat | i < |db.defs| ensures w(i) == Step(db, w, i) { SameLinked(db, rank, v, w, i); }
    }
  }

  lemma SameLinked(db: Database, rank: nat -> nat, v: nat -> Value, w: nat -> Value, i: nat)
    requires Closed(db.defs) && Ranked(db.defs, rank) && i < |db.defs| &&
      forall j: nat :: j < |db.defs| ==> w(j) == v(j)
    ensures Step(db, w, i) == Step(db, v, i)
  {
    hide Step, Links, Edges;
    NotOwnEdge(db.defs, rank, i);
    forall j | Links(db.defs, i, j) ensures v(j) == w(j) { ClosedLinks(db.defs, i, j); }
    StepLocal(db, v, w, i);
  }

  /** Which choices forget, and which of those are kept, is the same for every solution. */
  lemma LostUnique(db: Database, rank: nat -> nat, v: nat -> Value, u: nat -> Value, lost: set<nat>)
    requires Closed(db.defs) && Ranked(db.defs, rank) && Solution(db, v) && Solution(db, u) && LostExactly(db, v, lost)
    ensures LostExactly(db, u, lost)
  {
    hide Clears, Closed, Ranked, Solution;
    forall i: nat | i < |db.defs| ensures Clears(db, u, i) <==> Clears(db, v, i) { ClearsUnique(db, rank, u, v, i); }
  }

  lemma TwiceExact(db: Database, rank: nat -> nat, v: nat -> Value, w: nat -> Value,
                   first: map<nat, Value>, lost: set<nat>, second: map<nat, Value>)
    requires Closed(db.defs) && Ranked(db.defs, rank) && Solution(db, v) && Solution(Forget(db, lost), w)
    requires LostExactly(db, v, lost) && Agrees(db, first, v) && Agrees(db, second, w)
    ensures forall u: nat -> Value :: Solution(db, u) ==> Agrees(db, first, u) && LostExactly(db, u, lost)
    ensures forall u: nat -> Value :: Solution(Forget(db, lost), u) ==> Agrees(db, second, u)
    ensures forall u: nat -> Value :: Solution(db, u) ==>
              (SameValues(db, first, second) <==> KeptByOthers(db, u, lost))
  {
    hide Closed, Ranked, Solution, Clears, KeptByOthers, LostBy;
    SameClosed(db, lost);
    SameRanked(db, lost, rank);
    forall u: nat -> Value | Solution(Forget(db, lost), u) ensures Agrees(db, second, u) {
      AllUnique(Forget(db, lost), rank, w, u);
    }
    forall u: nat -> Value | Solution(db, u)
      ensures Agrees(db, first, u) && LostExactly(db, u, lost)
      ensures SameValues(db, first, second) <==> KeptByOthers(db, u, lost)
    {
      AllUnique(db, rank, v, u);
      LostUnique(db, rank, v, u, lost);
      StableExactly(db, u, lost);
      AllUnique(Forget(db, lost), rank, w, u);
    }
  }

  lemma ForgetTheory(db: Database, rank: nat -> nat, lost: set<nat>)
    requires Closed(db.defs) && Ranked(db.defs, rank) && GuardedMembers(db)
    ensures Theory(Forget(db, lost), rank, (i: nat) => Plain(Forget(db, lost), rank, i))
    ensures Closed(Forget(db, lost).defs) && Ranked(Forget(db, lost).defs, rank)
  {
    hide Closed, Ranked, GuardedMembers, Theory, Forget;
    SameClosed(db, lost);
    SameRanked(db, lost, rank);
    SameGuarded(db, lost);
    PlainTheory(Forget(db, lost), rank);
  }

  lemma ClearsUnique(db: Database, rank: nat -> nat, v: nat -> Value, w: nat -> Value, i: nat)
    requires Closed(db.defs) && Ranked(db.defs, rank) && Solution(db, v) && Solution(db, w) && i < |db.defs|
    ensures Clears(db, v, i) <==> Clears(db, w, i)
  {
    hide Step, Links, Edges, LimitsOf, SwitchValue, VisibleIn, EnvOf, Assume;
    forall j | Links(db.defs, i, j) ensures v(j) == w(j) {
      ClosedLinks(db.defs, i, j);
      SolutionUnique(db, rank, v, w, j);
    }
    NotOwnEdge(db.defs, rank, i);
    var d := db.defs[i];
    EdgesAgree(db, v, w, i);
    LimitsLocal(db, v, w, d);
    SwitchLocal(db, v, w, d, LimitsOf(db, EnvOf(db, v), d));
    if d.role.Choice? { PickLocal(db, v, w, i); }
  }

  lemma PlainTheory(db: Database, rank: nat -> nat)
    requires Closed(db.defs) && Ranked(db.defs, rank) && GuardedMembers(db)
    ensures Theory(db, rank, (i: nat) => Plain(db, rank, i))
  {
    hide Edges, Links, Step, Attached, GuardedMember;
    var v := (i: nat) => Plain(db, rank, i);
    PlainIsSolution(db, rank);
    SolutionTyped(db, v);
    forall k | 0 <= k < |db.defs| && db.defs[k].role.Member? ensures Attached(db, v, k) { GuardAttached(db, v, k); }
  }

  /** The check passes on a cyclic table: choice 0, whose member needs symbol 2, which depends on the
      choice. Both valuations of that table satisfy the equations. */
  method RoundaboutPasses(cmp: (SymbolType, string, SymbolType, string) -> int) returns (errors: nat)
    ensures errors == 0
    ensures var db := Roundabout(cmp);
      && Cyclic(db.defs) && Closed(db.defs) && GuardedMembers(db)
      && Solution(db, AllY) && Solution(db, AllN) && AllY(0) != AllN(0)
  {
    hide Cyclic, Detour, Closed, GuardedMembers, Solution, Roundabout, Excusable, NoDefaults;
    TwoOutcomes(cmp);
    DetourCyclic(Roundabout(cmp).defs);
    RoundaboutExcused(cmp);
    var checker := new DepCheck.Checker(Roundabout(cmp).defs, true);
    errors := checker.CheckAll();
  }
}
