/** Evaluating again after choices have forgotten that the user has set them (sym_calc_choice and
    sym_clear_all_valid in scripts/config/symbol.c). */
module Forgotten {
  import opened Expressions
  import opened Symbols
  import opened Choices

  /** The database once the user's value of some symbols is gone. */
  function Forget(db: Database, lost: set<nat>): (r: Database)
    ensures |r.defs| == |db.defs| && r.modules == db.modules && r.cmp == db.cmp
    ensures forall i :: 0 <= i < |db.defs| ==> r.defs[i] == if i in lost then db.defs[i].(user := None) else db.defs[i]
  {
    db.(defs := seq(|db.defs|, i requires 0 <= i < |db.defs| =>
      if i in lost then db.defs[i].(user := None) else db.defs[i]))
  }

  // ----- the graph and the conditions are the same -----

  lemma SameEdges(db: Database, lost: set<nat>, i: nat)
    ensures Edges(Forget(db, lost).defs, i) == Edges(db.defs, i)
  {
  }

  lemma SameLinks(db: Database, lost: set<nat>, i: nat, j: nat)
    ensures Links(Forget(db, lost).defs, i, j) <==> Links(db.defs, i, j)
  {
    hide Edges;
    forall k: nat ensures Edges(Forget(db, lost).defs, k) == Edges(db.defs, k) { SameEdges(db, lost, k); }
    forall k: nat
      ensures Mentions(Forget(db, lost).defs, k, j) <==> Mentions(db.defs, k, j)
    {
      SameMentions(db, lost, k, j);
    }
    hide Mentions;
  }

  lemma SameMentions(db: Database, lost: set<nat>, i: nat, j: nat)
    ensures Mentions(Forget(db, lost).defs, i, j) <==> Mentions(db.defs, i, j)
  {
    hide Edges;
    SameEdges(db, lost, i);
  }

  lemma SameClosed(db: Database, lost: set<nat>)
    requires Closed(db.defs)
    ensures Closed(Forget(db, lost).defs)
  {
    hide Edges;
    var defs := Forget(db, lost).defs;
    forall i: nat ensures Edges(defs, i) == Edges(db.defs, i) { SameEdges(db, lost, i); }
    forall c | 0 <= c < |defs| && defs[c].role.Choice?
      ensures WellFormedChoice(defs, c)
    {
      assert WellFormedChoice(db.defs, c);
    }
  }

  lemma SameRanked(db: Database, lost: set<nat>, rank: nat -> nat)
    requires Ranked(db.defs, rank)
    ensures Ranked(Forget(db, lost).defs, rank)
  {
    hide Links;
    forall i, j | 0 <= i < |db.defs| && Links(Forget(db, lost).defs, i, j)
      ensures rank(j) < rank(i)
    {
      SameLinks(db, lost, i, j);
    }
  }

  lemma {:induction false} SameEval(db: Database, lost: set<nat>, v: nat -> Value, e: Expr)
    ensures Eval(EnvOf(Forget(db, lost), v), e) == Eval(EnvOf(db, v), e)
  {
    match e
    case Not(a) => SameEval(db, lost, v, a);
    case Bin(_, l, r) => SameEval(db, lost, v, l); SameEval(db, lost, v, r);
    case _ =>
  }

  lemma SameOptEval(db: Database, lost: set<nat>, v: nat -> Value, e: Option<Expr>)
    ensures EvalOpt(EnvOf(Forget(db, lost), v), e) == EvalOpt(EnvOf(db, v), e)
  {
    if e.Some? { SameEval(db, lost, v, e.value); }
  }

  lemma {:induction false} SameProps(db: Database, lost: set<nat>, v: nat -> Value, ps: seq<Property>)
    ensures forall squash ::
      PromptLimit(EnvOf(Forget(db, lost), v), ps, squash) == PromptLimit(EnvOf(db, v), ps, squash)
    ensures ActiveDefault(EnvOf(Forget(db, lost), v), ps) == ActiveDefault(EnvOf(db, v), ps)
  {
    if ps != [] {
      SameOptEval(db, lost, v, ps[0].cond);
      SameProps(db, lost, v, ps[1..]);
      hide Eval, EnvOf;
    }
  }

  /** Limits do not depend on what the user has set. */
  lemma SameLimits(db: Database, lost: set<nat>, v: nat -> Value, d: SymbolDef, d': SymbolDef)
    requires d' == d.(user := d'.user)
    ensures LimitsOf(Forget(db, lost), EnvOf(Forget(db, lost), v), d') == LimitsOf(db, EnvOf(db, v), d)
  {
    SameOptEval(db, lost, v, d.dirDep);
    SameOptEval(db, lost, v, d.revDep);
    SameOptEval(db, lost, v, d.implied);
    SameProps(db, lost, v, d.props);
    hide Eval, PromptLimit;
  }

  lemma SameVisible(db: Database, lost: set<nat>, v: nat -> Value, k: nat)
    ensures VisibleIn(Forget(db, lost), EnvOf(Forget(db, lost), v), k) == VisibleIn(db, EnvOf(db, v), k)
  {
    if k < |db.defs| { SameLimits(db, lost, v, db.defs[k], Forget(db, lost).defs[k]); }
    hide LimitsOf, EnvOf;
  }

  lemma {:induction false} SamePresets(db: Database, lost: set<nat>, v: nat -> Value, ps: seq<Property>)
    ensures FirstPreset(Forget(db, lost), EnvOf(Forget(db, lost), v), ps) == FirstPreset(db, EnvOf(db, v), ps)
  {
    if ps != [] {
      SameOptEval(db, lost, v, ps[0].cond);
      if PresetOf(ps[0]).Some? { SameVisible(db, lost, v, PresetOf(ps[0]).value); }
      SamePresets(db, lost, v, ps[1..]);
      hide Eval, EnvOf, VisibleIn;
    }
  }

  lemma {:induction false} SameFirstVisible(db: Database, lost: set<nat>, v: nat -> Value, ms: seq<nat>)
    ensures FirstVisible(Forget(db, lost), EnvOf(Forget(db, lost), v), ms) == FirstVisible(db, EnvOf(db, v), ms)
  {
    if ms != [] {
      SameVisible(db, lost, v, ms[0]);
      SameFirstVisible(db, lost, v, ms[1..]);
      hide EnvOf, VisibleIn;
    }
  }

  lemma SamePick(db: Database, lost: set<nat>, v: nat -> Value, d: SymbolDef, d': SymbolDef)
    requires d.role.Choice? && d' == d.(user := d'.user)
    ensures PickIn(Forget(db, lost), EnvOf(Forget(db, lost), v), d') == PickIn(db, EnvOf(db, v), d)
  {
    if d.role.userPick.Some? { SameVisible(db, lost, v, d.role.userPick.value); }
    SamePresets(db, lost, v, d.props);
    SameFirstVisible(db, lost, v, d.role.members);
    hide EnvOf, VisibleIn, FirstPreset, FirstVisible;
  }

  /** What the limits of a symbol come to, with the value of the user and without. */
  lemma SameSwitch(db: Database, lost: set<nat>, v: nat -> Value, d: SymbolDef, lim: Limits)
    ensures SwitchValue(Forget(db, lost), EnvOf(Forget(db, lost), v), d, lim) == SwitchValue(db, EnvOf(db, v), d, lim)
    ensures TextValue(EnvOf(Forget(db, lost), v), v, d, lim) == TextValue(EnvOf(db, v), v, d, lim)
  {
    SameProps(db, lost, v, d.props);
    var p := ActiveDefault(EnvOf(db, v), d.props);
    if p.Some? {
      SameOptEval(db, lost, v, p.value.value);
      SameOptEval(db, lost, v, p.value.cond);
    }
    hide Eval, EnvOf, ActiveDefault;
  }

  /** Whoever keeps the user's value keeps the equation. */
  lemma SameStep(db: Database, lost: set<nat>, v: nat -> Value, i: nat)
    requires i < |db.defs| && i !in lost
    ensures Step(Forget(db, lost), v, i) == Step(db, v, i)
  {
    var d := db.defs[i];
    SameLimits(db, lost, v, d, d);
    SameSwitch(db, lost, v, d, LimitsOf(db, EnvOf(db, v), d));
    if d.role.Choice? { SamePick(db, lost, Assume(v, i), d, d); }
    hide LimitsOf, EnvOf, SwitchValue, TextValue, PickIn, Assume;
  }

  /** A choice without the user's value comes to what its reverse dependency asks for. */
  lemma ForgottenValue(db: Database, env: Env, d: SymbolDef, lim: Limits)
    requires d.role.Choice? && SwitchValue(db, env, d, lim) == YES && lim.revDep == Promoted(db, d.kind, lim.revDep)
    ensures SwitchValue(db, env, d.(user := None), lim) == lim.revDep
  {
    hide ActiveDefault, Eval;
  }

  lemma LimitsPromoted(db: Database, env: Env, d: SymbolDef)
    ensures var lim := LimitsOf(db, env, d); lim.revDep == Promoted(db, d.kind, lim.revDep)
  {
    hide PromptLimit, Eval;
  }

  /** A choice that has come to y and forgets the user keeps its equation exactly when its reverse
      dependency is y. */
  lemma ForgottenStep(db: Database, lost: set<nat>, v: nat -> Value, c: nat)
    requires Closed(db.defs) && c < |db.defs| && Clears(db, v, c) && c in lost
    ensures Step(Forget(db, lost), v, c) == Step(db, v, c) <==> LimitsOf(db, EnvOf(db, v), db.defs[c]).revDep == YES
  {
    var db', d, d' := Forget(db, lost), db.defs[c], Forget(db, lost).defs[c];
    var env := EnvOf(db, v);
    var lim := LimitsOf(db, env, d);
    assert WellFormedChoice(db.defs, c);
    SameLimits(db, lost, v, d, d');
    SameSwitch(db, lost, v, d', lim);
    LimitsPromoted(db, env, d);
    ForgottenValue(db, env, d, lim);
    SamePick(db, lost, Assume(v, c), d, d');
    ForgetsPicks(db, v, c);
    hide LimitsOf, EnvOf, SwitchValue, TextValue, PickIn, Assume, Forgets, Closed;
  }

  /** A choice that forgets the user has a visible member, so it picks one. */
  lemma ForgetsPicks(db: Database, v: nat -> Value, c: nat)
    requires Closed(db.defs) && c < |db.defs| && Clears(db, v, c)
    ensures PickIn(db, EnvOf(db, Assume(v, c)), db.defs[c]).Some?
  {
    hide LimitsOf, EnvOf, SwitchValue, VisibleIn, PickIn, Edges;
    PickSpec(db, EnvOf(db, Assume(v, c)), c);
  }

  /** Choices that forget the user. */
  ghost predicate LostBy(db: Database, v: nat -> Value, lost: set<nat>) {
    forall i: nat :: i in lost ==> i < |db.defs| && Clears(db, v, i)
  }

  /** The values computed once are still right after some choices have forgotten the user if and only
      if each of those is kept at y by its reverse dependency. */
  lemma StableExactly(db: Database, v: nat -> Value, lost: set<nat>)
    requires Closed(db.defs) && Solution(db, v) && LostBy(db, v, lost)
    ensures Solution(Forget(db, lost), v) <==> KeptByOthers(db, v, lost)
  {
    hide LimitsOf, EnvOf, Step, Clears, Closed;
    forall i: nat | i < |db.defs|
      ensures v(i) == Step(Forget(db, lost), v, i) <==>
        (i in lost ==> LimitsOf(db, EnvOf(db, v), db.defs[i]).revDep == YES)
    {
      if i in lost { ForgottenStep(db, lost, v, i); } else { SameStep(db, lost, v, i); }
    }
  }

  ghost predicate KeptByOthers(db: Database, v: nat -> Value, lost: set<nat>) {
    forall c: nat :: c in lost && c < |db.defs| ==> LimitsOf(db, EnvOf(db, v), db.defs[c]).revDep == YES
  }

  lemma ForgetNothing(db: Database)
    ensures Forget(db, {}) == db
  {
    assert Forget(db, {}).defs == db.defs;
  }

  lemma SameGuarded(db: Database, lost: set<nat>)
    requires GuardedMembers(db)
    ensures GuardedMembers(Forget(db, lost))
  {
    var db' := Forget(db, lost);
    forall k | 0 <= k < |db'.defs| && db'.defs[k].role.Member? ensures GuardedMember(db', k) {
      forall v: nat -> Value | WellTyped(db', v) ensures PromptsBelow(db', v, k) {
        StillTyped(db, lost, v);
        assert GuardedMember(db, k) && PromptsBelow(db, v, k);
        forall p | p in db'.defs[k].props && p.kind == Prompt
          ensures EvalOpt(EnvOf(db', v), p.cond) <= v(db'.defs[k].role.choice).tri
        {
          SameOptEval(db, lost, v, p.cond);
        }
      }
    }
  }

  lemma StillTyped(db: Database, lost: set<nat>, v: nat -> Value)
    requires WellTyped(Forget(db, lost), v)
    ensures WellTyped(db, v)
  {
    forall i | 0 <= i < |db.defs| && EffectiveKind(db, db.defs[i].kind) == Boolean ensures v(i).tri != MOD {
      assert EffectiveKind(Forget(db, lost), Forget(db, lost).defs[i].kind) == Boolean;
    }
  }

  // ----- a choice that does not stay y -----

  /** A tristate choice set to y by the user, with a tristate member that has no value. As in every
      choice that is not optional, the reverse dependency is its prompt && m. */
  function LoneMember(cmp: (SymbolType, string, SymbolType, string) -> int): Database {
    var prompt := Property(Prompt, None, None);
    var choice := SymbolDef("", Tristates, Choice([1], None), None, Some(Sym(SymMod)), None, [prompt],
      Some(Value("", YES, None)));
    var member := SymbolDef("A", Tristates, Member(0), None, None, None,
      [Property(Prompt, Some(Sym(Config(0))), None)], None);
    Database([choice, member], YES, cmp)
  }

  function Picked(i: nat): Value { Value("n", YES, if i == 0 then Some(1) else None) }
  function Dropped(i: nat): Value { Value("n", if i == 0 then MOD else NO, None) }

  /** The first evaluation picks the member; the second finds the choice at m and the member n. */
  lemma PickLost(cmp: (SymbolType, string, SymbolType, string) -> int)
    ensures var db := LoneMember(cmp);
      && Closed(db.defs) && GuardedMembers(db) && Ranked(db.defs, (i: nat) => i)
      && Solution(db, Picked) && LostBy(db, Picked, {0}) && Solution(Forget(db, {0}), Dropped)
      && Picked(1).tri == YES && Dropped(1).tri == NO
  {
    LoneTable(cmp);
    LoneGuarded(cmp);
    LoneSolutions(cmp);
    LoneForgets(cmp);
    hide Closed, GuardedMembers, Ranked, Solution, Clears, Forget;
  }

  lemma LoneTable(cmp: (SymbolType, string, SymbolType, string) -> int)
    ensures Closed(LoneMember(cmp).defs) && Ranked(LoneMember(cmp).defs, (i: nat) => i)
  {
    var defs := LoneMember(cmp).defs;
    forall p: Property ensures PropsIds([p]) == PropertyIds(p) { assert [p][1..] == []; }
    assert Edges(defs, 0) == [] && Edges(defs, 1) == [0];
    hide Edges;
    assert WellFormedChoice(defs, 0);
  }

  lemma LoneGuarded(cmp: (SymbolType, string, SymbolType, string) -> int)
    ensures GuardedMembers(LoneMember(cmp))
  {
    var db := LoneMember(cmp);
    forall v: nat -> Value ensures PromptsBelow(db, v, 1) { }
  }

  /** What the choice and its member come to, for any values of the two. */
  lemma LoneSteps(cmp: (SymbolType, string, SymbolType, string) -> int, lost: set<nat>, v: nat -> Value)
    requires v(0).tri == YES || v(0).tri == MOD
    ensures var db := Forget(LoneMember(cmp), lost);
      && LimitsOf(db, EnvOf(db, v), db.defs[0]) == Limits(YES, YES, MOD, NO)
      && LimitsOf(db, EnvOf(db, v), db.defs[1]) == Limits(v(0).tri, NO, NO, NO)
  {
    var db := Forget(LoneMember(cmp), lost);
    OneProperty(db, EnvOf(db, v), db.defs[0].props[0]);
    OneProperty(db, EnvOf(db, v), db.defs[1].props[0]);
  }

  lemma LonePick(cmp: (SymbolType, string, SymbolType, string) -> int, v: nat -> Value)
    ensures PickIn(LoneMember(cmp), EnvOf(LoneMember(cmp), Assume(v, 0)), LoneMember(cmp).defs[0]) == Some(1)
    ensures VisibleIn(LoneMember(cmp), EnvOf(LoneMember(cmp), Assume(v, 0)), 1) == YES
  {
    hide LimitsOf, EnvOf, Eval, PromptLimit;
    var db := LoneMember(cmp);
    ForgetNothing(db);
    LoneSteps(cmp, {}, Assume(v, 0));
    OneProperty(db, EnvOf(db, Assume(v, 0)), db.defs[0].props[0]);
    var ms: seq<nat> := [1];
    assert db.defs[0].role.members == ms && ms[1..] == [];
  }

  lemma LoneChoice(cmp: (SymbolType, string, SymbolType, string) -> int, lost: set<nat>, v: nat -> Value)
    requires v(0).tri == YES || v(0).tri == MOD
    ensures var db := Forget(LoneMember(cmp), lost);
      SwitchValue(db, EnvOf(db, v), db.defs[0], LimitsOf(db, EnvOf(db, v), db.defs[0])) ==
        if 0 in lost then MOD else YES
    ensures Step(Forget(LoneMember(cmp), lost), v, 0) ==
      if 0 in lost then Value("n", MOD, None) else Value("n", YES, Some(1))
  {
    hide LimitsOf, EnvOf, Eval, PromptLimit, PickIn, Assume;
    var db := LoneMember(cmp);
    LoneSteps(cmp, lost, v);
    LonePick(cmp, v);
    SamePick(db, lost, Assume(v, 0), db.defs[0], Forget(db, lost).defs[0]);
  }

  lemma LoneOther(cmp: (SymbolType, string, SymbolType, string) -> int, lost: set<nat>, v: nat -> Value)
    requires v(0).tri == YES || v(0).tri == MOD
    ensures Step(Forget(LoneMember(cmp), lost), v, 1) ==
      Value("n", if v(0).tri == YES && v(0).pick == Some(1) then YES else NO, None)
  {
    hide LimitsOf, Eval, PromptLimit;
    var db := Forget(LoneMember(cmp), lost);
    LoneSteps(cmp, lost, v);
    OneProperty(db, EnvOf(db, v), db.defs[1].props[0]);
  }

  lemma LoneSolutions(cmp: (SymbolType, string, SymbolType, string) -> int)
    ensures Solution(LoneMember(cmp), Picked) && Solution(Forget(LoneMember(cmp), {0}), Dropped)
  {
    hide Step;
    ForgetNothing(LoneMember(cmp));
    LoneChoice(cmp, {}, Picked);
    LoneOther(cmp, {}, Picked);
    LoneChoice(cmp, {0}, Dropped);
    LoneOther(cmp, {0}, Dropped);
    assert |LoneMember(cmp).defs| == 2;
  }

  lemma LoneForgets(cmp: (SymbolType, string, SymbolType, string) -> int)
    ensures Clears(LoneMember(cmp), Picked, 0)
  {
    hide LimitsOf, EnvOf, VisibleIn, Eval, PromptLimit, Assume;
    var db := LoneMember(cmp);
    ForgetNothing(db);
    LoneChoice(cmp, {}, Picked);
    LonePick(cmp, Picked);
    var ms: seq<nat> := [1];
    assert db.defs[0].role.members == ms && 1 in ms;
  }
}
