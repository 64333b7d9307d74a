/** What the equations of sym_calc_value and sym_calc_choice (scripts/config/symbol.c) mean for a
    choice and its members. */
module Choices {
  import opened Expressions
  import opened Symbols

  // ----- members are guarded by their choice -----

  /** A valuation with the values symbols can have: nothing that is effectively a bool is m. */
  ghost predicate WellTyped(db: Database, v: nat -> Value) {
    forall i :: 0 <= i < |db.defs| && EffectiveKind(db, db.defs[i].kind) == Boolean ==> v(i).tri != MOD
  }

  /** No prompt of a member ever exceeds its choice: menu_finalize has made the choice a condition of
      everything below it. */
  ghost predicate GuardedMember(db: Database, k: nat)
    requires k < |db.defs| && db.defs[k].role.Member?
  {
    forall v: nat -> Value :: WellTyped(db, v) ==> PromptsBelow(db, v, k)
  }

  ghost predicate PromptsBelow(db: Database, v: nat -> Value, k: nat)
    requires k < |db.defs| && db.defs[k].role.Member?
  {
    forall p :: p in db.defs[k].props && p.kind == Prompt ==>
      EvalOpt(EnvOf(db, v), p.cond) <= v(db.defs[k].role.choice).tri
  }

  ghost predicate GuardedMembers(db: Database) {
    forall k :: 0 <= k < |db.defs| && db.defs[k].role.Member? ==> GuardedMember(db, k)
  }

  /** A prompt of a member that can be seen mentions the choice. */
  ghost predicate Attached(db: Database, v: nat -> Value, k: nat)
    requires k < |db.defs| && db.defs[k].role.Member?
  {
    forall p :: p in db.defs[k].props && p.kind == Prompt && EvalOpt(EnvOf(db, v), p.cond) != NO ==>
      db.defs[k].role.choice in OptIds(p.cond)
  }

  lemma SolutionTyped(db: Database, v: nat -> Value)
    requires Solution(db, v)
    ensures WellTyped(db, v)
  {
    hide LimitsOf, TextValue, PickIn;
    forall i | 0 <= i < |db.defs| && EffectiveKind(db, db.defs[i].kind) == Boolean ensures v(i).tri != MOD {
      assert v(i) == Step(db, v, i);
    }
  }

  lemma GuardAt(db: Database, v: nat -> Value, k: nat, p: Property)
    requires WellTyped(db, v) && k < |db.defs| && db.defs[k].role.Member? && GuardedMember(db, k)
    requires p in db.defs[k].props && p.kind == Prompt
    ensures EvalOpt(EnvOf(db, v), p.cond) <= v(db.defs[k].role.choice).tri
  {
    assert PromptsBelow(db, v, k);
  }

  /** If the choice does not occur in a condition, taking the choice to be n changes nothing; so the
      condition is n already. */
  lemma GuardAttached(db: Database, v: nat -> Value, k: nat)
    requires Closed(db.defs) && WellTyped(db, v) && k < |db.defs| && db.defs[k].role.Member? && GuardedMember(db, k)
    ensures Attached(db, v, k)
  {
    hide Edges;
    var c := db.defs[k].role.choice;
    var w := (j: nat) => if j == c then Value("n", NO, None) else v(j);
    assert WellTyped(db, w);
    forall p | p in db.defs[k].props && p.kind == Prompt && EvalOpt(EnvOf(db, v), p.cond) != NO
      ensures c in OptIds(p.cond)
    {
      GuardAt(db, w, k, p);
      if c !in OptIds(p.cond) { EvalOptLocal(db, v, w, p.cond); }
    }
  }

  // ----- visibility of members -----

  /** Some prompt is y, or m on a bool. */
  ghost predicate Selectable(env: Env, d: SymbolDef) {
    exists p :: p in d.props && p.kind == Prompt &&
      (EvalOpt(env, p.cond) == YES || (EvalOpt(env, p.cond) == MOD && d.kind != Tristates))
  }

  lemma {:induction false} SquashedLimit(env: Env, ps: seq<Property>)
    ensures PromptLimit(env, ps, true) != MOD
    ensures PromptLimit(env, ps, true) == YES <==>
      exists p :: p in ps && p.kind == Prompt && EvalOpt(env, p.cond) == YES
  {
    if ps != [] {
      SquashedLimit(env, ps[1..]);
      assert ps == [ps[0]] + ps[1..];
    }
  }

  lemma {:induction false} PlainLimit(env: Env, ps: seq<Property>)
    ensures PromptLimit(env, ps, false) != NO <==> exists p :: p in ps && p.kind == Prompt && EvalOpt(env, p.cond) != NO
    ensures forall p :: p in ps && p.kind == Prompt ==> EvalOpt(env, p.cond) <= PromptLimit(env, ps, false)
    ensures PromptLimit(env, ps, false) != NO ==>
      exists p :: p in ps && p.kind == Prompt && EvalOpt(env, p.cond) == PromptLimit(env, ps, false)
    ensures PromptLimit(env, ps, true) <= PromptLimit(env, ps, false)
  {
    if ps != [] {
      PlainLimit(env, ps[1..]);
      assert ps == [ps[0]] + ps[1..];
    }
  }

  /** In a choice that is y a member is visible entirely or not at all. */
  lemma VisibleWhenY(db: Database, env: Env, k: nat)
    requires k < |db.defs| && db.defs[k].role.Member? && Switch(db.defs[k].kind) &&
      env.value(db.defs[k].role.choice) == YES
    ensures VisibleIn(db, env, k) == if Selectable(env, db.defs[k]) then YES else NO
  {
    hide Eval;
    var d := db.defs[k];
    SquashedLimit(env, d.props);
    PlainLimit(env, d.props);
  }

  /** A member is never more visible than its choice is set, but that m counts as y on a bool. */
  lemma VisibleBelow(db: Database, v: nat -> Value, k: nat)
    requires WellTyped(db, v) && k < |db.defs| && db.defs[k].role.Member? && GuardedMember(db, k)
    ensures var c, vis := v(db.defs[k].role.choice).tri, VisibleIn(db, EnvOf(db, v), k);
      && (c == NO ==> vis == NO)
      && (c == MOD && vis != NO && db.defs[k].kind == Tristates && db.modules != NO ==> vis == MOD)
      && (vis == MOD ==> db.defs[k].kind == Tristates && db.modules != NO)
  {
    hide Eval, EnvOf, GuardedMember, WellTyped;
    var env := EnvOf(db, v);
    PlainLimit(env, db.defs[k].props);
    forall p | p in db.defs[k].props && p.kind == Prompt ensures EvalOpt(env, p.cond) <= v(db.defs[k].role.choice).tri {
      GuardAt(db, v, k, p);
    }
  }

  // ----- which member is picked -----

  lemma {:induction false} FirstPresetSpec(db: Database, env: Env, ps: seq<Property>)
    ensures var r := FirstPreset(db, env, ps);
      && (r.Some? ==> VisibleIn(db, env, r.value) != NO && exists p :: p in ps && PresetOf(p) == r)
      && (r.None? ==> forall p :: p in ps && PresetOf(p).Some? && EvalOpt(env, p.cond) != NO ==>
            VisibleIn(db, env, PresetOf(p).value) == NO)
  {
    hide VisibleIn, Eval;
    if ps != [] {
      FirstPresetSpec(db, env, ps[1..]);
      assert ps == [ps[0]] + ps[1..];
    }
  }

  lemma {:induction false} FirstVisibleSpec(db: Database, env: Env, ms: seq<nat>)
    ensures var r := FirstVisible(db, env, ms);
      && (r.Some? ==> VisibleIn(db, env, r.value) != NO && r.value in ms)
      && (r.None? ==> forall k :: k in ms ==> VisibleIn(db, env, k) == NO)
  {
    hide VisibleIn;
    if ms != [] { FirstVisibleSpec(db, env, ms[1..]); }
  }

  /** A pick is made exactly when some member is visible; it is a visible member, and the user's if
      that is visible. */
  lemma PickSpec(db: Database, env: Env, c: nat)
    requires Closed(db.defs) && c < |db.defs| && db.defs[c].role.Choice?
    ensures var d := db.defs[c];
      var r := PickIn(db, env, d);
      && (r.None? <==> forall k :: k in d.role.members ==> VisibleIn(db, env, k) == NO)
      && (r.Some? ==> r.value in d.role.members && VisibleIn(db, env, r.value) != NO)
      && (d.role.userPick.Some? && VisibleIn(db, env, d.role.userPick.value) != NO ==> r == d.role.userPick)
  {
    hide VisibleIn, FirstPreset, FirstVisible, Edges;
    PresetMembers(db, c);
    FirstPresetSpec(db, env, db.defs[c].props);
    FirstVisibleSpec(db, env, db.defs[c].role.members);
  }

  /** While the choice is y its members look the same as with the assumption made for picking. */
  lemma AssumptionHolds(db: Database, v: nat -> Value, c: nat)
    requires Closed(db.defs) && Solution(db, v) && c < |db.defs| && db.defs[c].role.Choice? && v(c).tri == YES
    ensures forall k :: k in db.defs[c].role.members ==>
      VisibleIn(db, EnvOf(db, Assume(v, c)), k) == VisibleIn(db, EnvOf(db, v), k)
  {
    hide LimitsOf, EnvOf, SwitchValue, PickIn, Edges;
    assert WellFormedChoice(db.defs, c);
    assert v(c) == Step(db, v, c);
    forall k | k in db.defs[c].role.members
      ensures VisibleIn(db, EnvOf(db, Assume(v, c)), k) == VisibleIn(db, EnvOf(db, v), k)
    {
      LimitsLocal(db, Assume(v, c), v, db.defs[k]);
    }
  }

  // ----- the outcome -----

  /** No member has a default of its own. */
  ghost predicate NoDefaults(db: Database, c: nat)
    requires c < |db.defs| && db.defs[c].role.Choice?
  {
    forall k, p :: k in db.defs[c].role.members && k < |db.defs| && p in db.defs[k].props ==> p.kind != Default
  }

  lemma {:induction false} NoActiveDefault(env: Env, ps: seq<Property>)
    requires forall p :: p in ps ==> p.kind != Default
    ensures ActiveDefault(env, ps) == None
  {
    if ps != [] {
      assert ps[0] in ps;
      NoActiveDefault(env, ps[1..]);
    }
  }

  /** The value of a member in terms of its visibility and of the pick. */
  lemma MemberValue(db: Database, v: nat -> Value, c: nat, k: nat)
    requires Closed(db.defs) && Solution(db, v) && c < |db.defs| && db.defs[c].role.Choice?
    requires k in db.defs[c].role.members && NoDefaults(db, c) && GuardedMembers(db)
    ensures k < |db.defs|
    ensures VisibleIn(db, EnvOf(db, v), k) == NO ==> v(k).tri == NO
    ensures VisibleIn(db, EnvOf(db, v), k) == YES ==> v(k).tri == if v(c).pick == Some(k) then YES else NO
    ensures VisibleIn(db, EnvOf(db, v), k) == MOD ==> v(k).tri != YES
  {
    hide EnvOf, PromptLimit, Edges, Eval;
    assert WellFormedChoice(db.defs, c);
    assert v(k) == Step(db, v, k);
    NoActiveDefault(EnvOf(db, v), db.defs[k].props);
    SolutionTyped(db, v);
    VisibleBelow(db, v, k);
  }

  /** A choice that is y has exactly one member that is y: a visible one, the user's pick whenever
      that pick is visible. In a choice that is m no member is y, and in one that is n all are n. */
  lemma ExactlyOne(db: Database, v: nat -> Value, c: nat)
    requires Closed(db.defs) && Solution(db, v) && c < |db.defs| && db.defs[c].role.Choice?
    requires NoDefaults(db, c) && GuardedMembers(db)
    ensures var members, pick, user := db.defs[c].role.members, v(c).pick, db.defs[c].role.userPick;
      && (v(c).tri == YES ==>
            && pick.Some? && pick.value in members && VisibleIn(db, EnvOf(db, v), pick.value) == YES
            && (forall k :: k in members ==> v(k).tri == if pick == Some(k) then YES else NO)
            && (user.Some? && VisibleIn(db, EnvOf(db, v), user.value) != NO ==> pick == user))
      && (v(c).tri == MOD ==> forall k :: k in members ==> v(k).tri != YES)
      && (v(c).tri == NO ==> forall k :: k in members ==> v(k).tri == NO)
  {
    hide LimitsOf, EnvOf, SwitchValue, Edges, VisibleIn, PickIn;
    assert WellFormedChoice(db.defs, c);
    assert v(c) == Step(db, v, c);
    SolutionTyped(db, v);
    var members := db.defs[c].role.members;
    if v(c).tri == YES {
      AssumptionHolds(db, v, c);
      PickSpec(db, EnvOf(db, Assume(v, c)), c);
    }
    forall k | k in members
      ensures v(c).tri == YES ==>
        v(k).tri == (if v(c).pick == Some(k) then YES else NO) && VisibleIn(db, EnvOf(db, v), k) != MOD
      ensures v(c).tri == MOD ==> v(k).tri != YES
      ensures v(c).tri == NO ==> v(k).tri == NO
    {
      MemberValue(db, v, c, k);
      VisibleBelow(db, v, k);
      if v(c).tri == YES { AllOrNothing(db, v, k); }
    }
  }

  lemma AllOrNothing(db: Database, v: nat -> Value, k: nat)
    requires k < |db.defs| && db.defs[k].role.Member? && Switch(db.defs[k].kind) && v(db.defs[k].role.choice).tri == YES
    ensures VisibleIn(db, EnvOf(db, v), k) != MOD
  {
    hide Eval, LimitsOf;
    VisibleWhenY(db, EnvOf(db, v), k);
  }

  /** A choice that comes to y at first is n in the end exactly when no member is visible while it
      is y. */
  lemma FallsExactly(db: Database, v: nat -> Value, c: nat)
    requires Closed(db.defs) && Solution(db, v) && c < |db.defs| && db.defs[c].role.Choice? &&
      db.defs[c].kind != Unknown
    requires SwitchValue(db, EnvOf(db, v), db.defs[c], LimitsOf(db, EnvOf(db, v), db.defs[c])) == YES
    ensures v(c).tri == YES || v(c).tri == NO
    ensures v(c).tri == NO <==>
      forall k :: k in db.defs[c].role.members ==> VisibleIn(db, EnvOf(db, Assume(v, c)), k) == NO
  {
    hide LimitsOf, EnvOf, SwitchValue, Edges, VisibleIn, PickIn;
    assert WellFormedChoice(db.defs, c);
    assert v(c) == Step(db, v, c);
    PickSpec(db, EnvOf(db, Assume(v, c)), c);
  }

  /** Choice i comes to y at first, and some visible member has no value from the user. */
  predicate Clears(db: Database, v: nat -> Value, i: nat)
    requires i < |db.defs|
  {
    var d, env := db.defs[i], EnvOf(db, v);
    && d.role.Choice? && SwitchValue(db, env, d, LimitsOf(db, env, d)) == YES
    && Forgets(db, EnvOf(db, Assume(v, i)), d.role.members)
  }

  // ----- a member that depends on its choice through another symbol -----

  /** Choice 0 with the only member 1, whose prompt also needs symbol 2, which is y when the choice
      is. */
  function Roundabout(cmp: (SymbolType, string, SymbolType, string) -> int): Database {
    var choice := SymbolDef("", Boolean, Choice([1], None), None, None, None, [Property(Prompt, None, None)],
      Some(Value("", YES, None)));
    var member := SymbolDef("A", Boolean, Member(0), None, None, None,
      [Property(Prompt, Some(Bin(AndOp, Sym(Config(0)), Sym(Config(2)))), None)], None);
    var other := SymbolDef("B", Boolean, Ordinary, None, None, None,
      [Property(Default, Some(Sym(Config(0))), Some(Sym(SymYes)))], None);
    Database([choice, member, other], NO, cmp)
  }

  function AllY(i: nat): Value { Value("n", YES, if i == 0 then Some(1) else None) }
  function AllN(i: nat): Value { Value("n", NO, None) }

  /** Then the equations can have two solutions, one with the choice y and one with it n. */
  lemma TwoOutcomes(cmp: (SymbolType, string, SymbolType, string) -> int)
    ensures var db := Roundabout(cmp);
      Closed(db.defs) && GuardedMembers(db) && NoDefaults(db, 0) && Detour(db.defs) && Solution(db, AllY) &&
        Solution(db, AllN)
  {
    RoundaboutClosed(cmp);
    RoundaboutDetour(cmp);
    RoundaboutGuarded(cmp);
    RoundaboutSolutions(cmp);
    hide *;
  }

  lemma RoundaboutEdges(cmp: (SymbolType, string, SymbolType, string) -> int)
    ensures var defs := Roundabout(cmp).defs;
      Edges(defs, 0) == [] && Edges(defs, 1) == [0, 2] && Edges(defs, 2) == [0] &&
        forall i :: i >= 3 ==> Edges(defs, i) == []
    ensures NoDefaults(Roundabout(cmp), 0)
  {
    var defs := Roundabout(cmp).defs;
    forall p: Property ensures PropsIds([p]) == PropertyIds(p) { assert [p][1..] == []; }
  }

  lemma RoundaboutClosed(cmp: (SymbolType, string, SymbolType, string) -> int)
    ensures Closed(Roundabout(cmp).defs) && NoDefaults(Roundabout(cmp), 0)
  {
    hide Edges;
    RoundaboutEdges(cmp);
    assert WellFormedChoice(Roundabout(cmp).defs, 0);
  }

  lemma RoundaboutDetour(cmp: (SymbolType, string, SymbolType, string) -> int)
    ensures Detour(Roundabout(cmp).defs)
  {
    hide Edges;
    var defs := Roundabout(cmp).defs;
    RoundaboutEdges(cmp);
    assert 1 in defs[0].role.members && Mentions(defs, 1, 2) && Inner(defs, 0, 2);
    assert Mentions(defs, 2, 0) && Links(defs, 2, 0);
    var p: seq<nat> := [2, 0];
    assert p[1..] == [0] && IsPath(defs, p[1..]);
    assert IsPath(defs, p);
    assert DetourPath(defs, 0, p);
  }

  /** The links of the table, none of which leads into a cycle but for the one from 2 back to 0. */
  lemma RoundaboutLinks(cmp: (SymbolType, string, SymbolType, string) -> int, i: nat, j: nat)
    requires Links(Roundabout(cmp).defs, i, j)
    ensures (i == 0 && j == 2) || (i == 1 && (j == 0 || j == 2)) || (i == 2 && j == 0)
  {
    hide Edges;
    RoundaboutEdges(cmp);
  }

  lemma NothingMentioned(cmp: (SymbolType, string, SymbolType, string) -> int, j: nat)
    ensures !Mentions(Roundabout(cmp).defs, 0, j)
  {
    hide Edges;
    RoundaboutEdges(cmp);
  }

  lemma RoundaboutExcused(cmp: (SymbolType, string, SymbolType, string) -> int)
    ensures Excusable(Roundabout(cmp).defs)
  {
    hide Edges, Links, Mentions;
    var defs := Roundabout(cmp).defs;
    var rank := (i: nat) => if i == 0 then 1 else if i == 1 then 2 else 0;
    var p := Plan({0}, rank, i => {}, i => {}, i => 0);
    forall i: nat, j: nat | Links(defs, i, j) ensures p.rank(j) < p.rank(i) || (j == 0 && Passable(defs, i, j)) {
      RoundaboutLinks(cmp, i, j);
      forall m | m in defs[0].role.members && Links(defs, 2, m) ensures false { RoundaboutLinks(cmp, 2, m); }
    }
    forall j: nat ensures !Mentions(defs, 0, j) { NothingMentioned(cmp, j); }
    assert Entered(defs, p, 0);
    assert Excused(defs, p);
  }

  lemma RoundaboutGuarded(cmp: (SymbolType, string, SymbolType, string) -> int)
    ensures GuardedMembers(Roundabout(cmp))
  {
    var db := Roundabout(cmp);
    forall v: nat -> Value ensures PromptsBelow(db, v, 1) { }
  }

  lemma OneProperty(db: Database, env: Env, p: Property)
    ensures forall squash ::
      PromptLimit(env, [p], squash) == if p.kind == Prompt then Squashed(EvalOpt(env, p.cond), squash) else NO
    ensures ActiveDefault(env, [p]) == if p.kind == Default && EvalOpt(env, p.cond) != NO then Some(p) else None
    ensures p.kind != Preset ==> FirstPreset(db, env, [p]) == None
  {
    hide Eval, VisibleIn;
    assert [p][1..] == [];
  }

  /** The member is visible when both symbols are on, and only it can be picked. */
  lemma RoundaboutPick(cmp: (SymbolType, string, SymbolType, string) -> int, env: Env)
    ensures var db := Roundabout(cmp);
      && VisibleIn(db, env, 1) == (if env.value(0) == NO || env.value(2) == NO then NO else YES)
      && PickIn(db, env, db.defs[0]) == if env.value(0) == NO || env.value(2) == NO then None else Some(1)
  {
    var db := Roundabout(cmp);
    OneProperty(db, env, db.defs[1].props[0]);
    OneProperty(db, env, db.defs[0].props[0]);
    var member := db.defs[1];
    var x, y := Sym(Config(0)), Sym(Config(2));
    assert member.props[0].cond == Some(Bin(AndOp, x, y));
    assert Eval(env, x) == env.value(0) && Eval(env, y) == env.value(2);
    assert Eval(env, Bin(AndOp, x, y)) == Combine(AndOp, Eval(env, x), Eval(env, y));
    assert PromptLimit(env, member.props, false) == Combine(AndOp, env.value(0), env.value(2));
    assert VisibleIn(db, env, 1) == if env.value(0) == NO || env.value(2) == NO then NO else YES;
    var ms: seq<nat> := [1];
    assert db.defs[0].role.members == ms && ms[1..] == [];
    assert FirstVisible(db, env, ms) == if VisibleIn(db, env, 1) != NO then Some(1) else None;
  }

  lemma RoundaboutSolutions(cmp: (SymbolType, string, SymbolType, string) -> int)
    ensures Solution(Roundabout(cmp), AllY) && Solution(Roundabout(cmp), AllN)
  {
    hide Step, AllY, AllN;
    RoundaboutChoice(cmp, AllY);
    RoundaboutChoice(cmp, AllN);
    RoundaboutMember(cmp, AllY);
    RoundaboutMember(cmp, AllN);
    RoundaboutOther(cmp, AllY);
    RoundaboutOther(cmp, AllN);
    RoundaboutValues();
  }

  lemma RoundaboutValues()
    ensures AllY(0) == Value("n", YES, Some(1)) && AllY(1) == AllY(2) == Value("n", YES, None)
    ensures AllN(0) == AllN(1) == AllN(2) == Value("n", NO, None)
  {
  }

  lemma RoundaboutChoice(cmp: (SymbolType, string, SymbolType, string) -> int, v: nat -> Value)
    ensures Step(Roundabout(cmp), v, 0) == if v(2).tri == NO then Value("n", NO, None) else Value("n", YES, Some(1))
  {
    hide VisibleIn, PickIn, Eval;
    var db := Roundabout(cmp);
    RoundaboutPick(cmp, EnvOf(db, Assume(v, 0)));
    OneProperty(db, EnvOf(db, v), db.defs[0].props[0]);
  }

  lemma RoundaboutMember(cmp: (SymbolType, string, SymbolType, string) -> int, v: nat -> Value)
    ensures Step(Roundabout(cmp), v, 1) ==
      Value("n", if v(0).tri != NO && v(2).tri != NO && v(0).pick == Some(1) then YES else NO, None)
  {
    hide Eval;
    var db := Roundabout(cmp);
    RoundaboutPick(cmp, EnvOf(db, v));
    OneProperty(db, EnvOf(db, v), db.defs[1].props[0]);
  }

  lemma RoundaboutOther(cmp: (SymbolType, string, SymbolType, string) -> int, v: nat -> Value)
    ensures Step(Roundabout(cmp), v, 2) == Value("n", if v(0).tri == NO then NO else YES, None)
  {
    var db := Roundabout(cmp);
    OneProperty(db, EnvOf(db, v), db.defs[2].props[0]);
  }
}
