/** What sym_calc_value (scripts/config/symbol.c) makes of a symbol, said without the functions that
    compute it: from its conditions, its user value, and the values of the other symbols. */
module Values {
  import opened Expressions
  import opened Symbols
  import opened Choices

  // ----- conditions -----

  /** p is the largest condition of the prompts, n if there are none. */
  ghost predicate LargestPrompt(env: Env, d: SymbolDef, p: Tristate) {
    && (forall q :: q in d.props && q.kind == Prompt ==> EvalOpt(env, q.cond) <= p)
    && (p == NO || exists q :: q in d.props && q.kind == Prompt && EvalOpt(env, q.cond) == p)
  }

  /** Property k is the first default whose condition is not n. */
  ghost predicate FirstActive(env: Env, d: SymbolDef, k: nat) {
    && k < |d.props| && d.props[k].kind == Default && EvalOpt(env, d.props[k].cond) != NO
    && forall j :: 0 <= j < k && d.props[j].kind == Default ==> EvalOpt(env, d.props[j].cond) == NO
  }

  /** m counts as y for everything but a tristate with modules. */
  function Raised(db: Database, d: SymbolDef, x: Tristate): Tristate {
    if x == MOD && !(d.kind == Tristates && db.modules != NO) then YES else x
  }

  function Least(a: Tristate, b: Tristate): Tristate { if a <= b then a else b }
  function Largest(a: Tristate, b: Tristate): Tristate { if a >= b then a else b }

  /** The conditions of a symbol: its prompts, and its direct, reverse and implied dependency. A
      missing direct dependency is y, a missing other one n. */
  datatype Given = Given(prompt: Tristate, dir: Tristate, rev: Tristate, implied: Tristate)

  ghost predicate GivenOf(db: Database, v: nat -> Value, i: nat, g: Given)
    requires i < |db.defs|
  {
    var d, env := db.defs[i], EnvOf(db, v);
    && (exists p :: LargestPrompt(env, d, p) && g.prompt == Raised(db, d, p))
    && g.dir == Raised(db, d, if d.dirDep.Some? then Eval(env, d.dirDep.value) else YES)
    && g.rev == Raised(db, d, if d.revDep.Some? then Eval(env, d.revDep.value) else NO)
    && g.implied == Raised(db, d, if d.implied.Some? then Eval(env, d.implied.value) else NO)
  }

  /** t is what the first active default comes to, limited by its condition. */
  ghost predicate DefaultIs(env: Env, d: SymbolDef, t: Tristate) {
    && (forall k: nat :: FirstActive(env, d, k) ==>
          t == Least(EvalOpt(env, d.props[k].value), EvalOpt(env, d.props[k].cond)))
    && ((forall k: nat :: !FirstActive(env, d, k)) ==> t == NO)
  }

  // ----- the recursive functions and these predicates -----

  lemma {:induction false} PromptsLargest(env: Env, d: SymbolDef)
    ensures LargestPrompt(env, d, PromptLimit(env, d.props, false))
    decreases |d.props|
  {
    hide Eval;
    if d.props != [] {
      var rest := d.(props := d.props[1..]);
      PromptsLargest(env, rest);
      assert d.props == [d.props[0]] + rest.props;
      assert forall q :: q in d.props <==> q == d.props[0] || q in rest.props;
    }
  }

  lemma LargestUnique(env: Env, d: SymbolDef, p: Tristate, q: Tristate)
    requires LargestPrompt(env, d, p) && LargestPrompt(env, d, q)
    ensures p == q
  {
    hide Eval;
  }

  /** Where m counts as n, only a prompt that is y counts. */
  lemma {:induction false} PromptsSquashed(env: Env, d: SymbolDef)
    ensures PromptLimit(env, d.props, true) == if LargestPrompt(env, d, YES) then YES else NO
    decreases |d.props|
  {
    hide Eval;
    if d.props != [] {
      var rest := d.(props := d.props[1..]);
      PromptsSquashed(env, rest);
      assert d.props == [d.props[0]] + rest.props;
      assert forall q :: q in d.props <==> q == d.props[0] || q in rest.props;
    }
  }

  lemma {:induction false} ActiveIsFirst(env: Env, d: SymbolDef)
    ensures var p := ActiveDefault(env, d.props);
      && (p.Some? ==> exists k: nat :: FirstActive(env, d, k) && d.props[k] == p.value)
      && (p.None? ==> forall k: nat :: !FirstActive(env, d, k))
    decreases |d.props|
  {
    hide Eval;
    if d.props != [] && !(d.props[0].kind == Default && EvalOpt(env, d.props[0].cond) != NO) {
      var rest := d.(props := d.props[1..]);
      ActiveIsFirst(env, rest);
      forall k: nat | FirstActive(env, rest, k) ensures FirstActive(env, d, k + 1) { }
      forall k: nat | FirstActive(env, d, k) ensures k > 0 && FirstActive(env, rest, k - 1) {
        assert forall j :: 0 <= j < k - 1 ==> rest.props[j] == d.props[j + 1];
      }
    } else if d.props != [] {
      assert FirstActive(env, d, 0);
    }
  }

  lemma OneFirst(env: Env, d: SymbolDef, k: nat, l: nat)
    requires FirstActive(env, d, k) && FirstActive(env, d, l)
    ensures k == l
  {
    hide Eval;
  }

  /** The default a symbol falls back to. */
  function Fallback(env: Env, d: SymbolDef): Tristate {
    var p := ActiveDefault(env, d.props);
    if p.None? then NO else Combine(AndOp, EvalOpt(env, p.value.value), EvalOpt(env, p.value.cond))
  }

  lemma FallbackIs(env: Env, d: SymbolDef, t: Tristate)
    ensures DefaultIs(env, d, t) <==> t == Fallback(env, d)
  {
    hide Eval;
    ActiveIsFirst(env, d);
    if ActiveDefault(env, d.props).Some? {
      var k: nat :| FirstActive(env, d, k) && d.props[k] == ActiveDefault(env, d.props).value;
      forall l: nat | FirstActive(env, d, l) ensures l == k { OneFirst(env, d, k, l); }
    }
  }

  /** The limits of a symbol that is no member are what is given. */
  lemma GivenLimits(db: Database, v: nat -> Value, i: nat, g: Given)
    requires i < |db.defs| && !db.defs[i].role.Member? && Switch(db.defs[i].kind)
    ensures GivenOf(db, v, i, g) <==>
      LimitsOf(db, EnvOf(db, v), db.defs[i]) == Limits(g.prompt, g.dir, g.rev, g.implied)
  {
    hide Eval, EnvOf, PromptLimit;
    var d, env := db.defs[i], EnvOf(db, v);
    PromptsLargest(env, d);
    forall p | LargestPrompt(env, d, p) ensures p == PromptLimit(env, d.props, false) {
      LargestUnique(env, d, p, PromptLimit(env, d.props, false));
    }
    hide LargestPrompt;
  }

  lemma GivenExists(db: Database, v: nat -> Value, i: nat) returns (g: Given)
    requires i < |db.defs| && !db.defs[i].role.Member? && Switch(db.defs[i].kind)
    ensures GivenOf(db, v, i, g)
  {
    var lim := LimitsOf(db, EnvOf(db, v), db.defs[i]);
    g := Given(lim.visible, lim.dirDep, lim.revDep, lim.implied);
    GivenLimits(db, v, i, g);
  }

  // ----- what a symbol comes to -----

  /** The rule for a bool or tristate symbol: selecting cannot overrule a direct dependency that is
      n; otherwise a visible user value, limited by the prompts, or else the default, which imply
      raises as far as the direct dependency allows; and never less than the reverse dependency. */
  function Rule(db: Database, d: SymbolDef, g: Given, def: Tristate): Tristate {
    if g.dir == NO && g.rev != NO then NO
    else if g.prompt != NO && d.user.Some? then Raised(db, d, Largest(Least(d.user.value.tri, g.prompt), g.rev))
    else if g.implied != NO then Raised(db, d, Largest(Least(Largest(def, g.implied), g.dir), g.rev))
    else Raised(db, d, Largest(def, g.rev))
  }

  lemma RuleIsSwitch(db: Database, env: Env, d: SymbolDef, g: Given)
    requires Switch(d.kind) && !d.role.Choice?
    ensures SwitchValue(db, env, d, Limits(g.prompt, g.dir, g.rev, g.implied)) == Rule(db, d, g, Fallback(env, d))
  {
    hide Eval, ActiveDefault;
  }

  /** A choice has no default but n, and is never raised by imply. */
  lemma RuleIsChoice(db: Database, env: Env, d: SymbolDef, g: Given)
    requires Switch(d.kind) && d.role.Choice?
    ensures SwitchValue(db, env, d, Limits(g.prompt, g.dir, g.rev, g.implied)) == Rule(db, d, g.(implied := NO), NO)
  {
    hide Eval, ActiveDefault;
  }

  lemma OrdinaryValue(db: Database, v: nat -> Value, i: nat, g: Given, def: Tristate)
    requires Solution(db, v) && i < |db.defs| && db.defs[i].role.Ordinary? && Switch(db.defs[i].kind)
    requires GivenOf(db, v, i, g) && DefaultIs(EnvOf(db, v), db.defs[i], def)
    ensures v(i) == Value("n", Rule(db, db.defs[i], g, def), None)
  {
    hide LimitsOf, GivenOf, DefaultIs, SwitchValue, EnvOf, Rule;
    assert v(i) == Step(db, v, i);
    GivenLimits(db, v, i, g);
    FallbackIs(EnvOf(db, v), db.defs[i], def);
    RuleIsSwitch(db, EnvOf(db, v), db.defs[i], g);
  }

  /** A symbol with a free prompt and nothing that selects it has the value the user gave it, if it
      can have that. */
  lemma UserDecides(db: Database, v: nat -> Value, i: nat)
    requires Solution(db, v) && i < |db.defs| && db.defs[i].role.Ordinary? && Switch(db.defs[i].kind)
    requires exists implied :: GivenOf(db, v, i, Given(YES, YES, NO, implied))
    requires var u := db.defs[i].user; u.Some? && Raised(db, db.defs[i], u.value.tri) == u.value.tri
    ensures v(i).tri == db.defs[i].user.value.tri
  {
    hide GivenOf, DefaultIs, Solution, EnvOf;
    var implied :| GivenOf(db, v, i, Given(YES, YES, NO, implied));
    FallbackIs(EnvOf(db, v), db.defs[i], Fallback(EnvOf(db, v), db.defs[i]));
    OrdinaryValue(db, v, i, Given(YES, YES, NO, implied), Fallback(EnvOf(db, v), db.defs[i]));
  }

  /** A choice comes to its user value or n, within its limits; if that is y, to n after all when no
      member is visible while it is y. */
  lemma ChoiceComesTo(db: Database, v: nat -> Value, c: nat, g: Given)
    requires Closed(db.defs) && Solution(db, v) && c < |db.defs| && db.defs[c].role.Choice? && GivenOf(db, v, c, g)
    ensures var t, some := Rule(db, db.defs[c], g.(implied := NO), NO),
              exists k :: k in db.defs[c].role.members && VisibleIn(db, EnvOf(db, Assume(v, c)), k) != NO;
      && v(c).tri == (if t == YES && !some then NO else t)
      && (v(c).pick.Some? <==> t == YES && some)
  {
    hide LimitsOf, GivenOf, SwitchValue, EnvOf, VisibleIn, PickIn, Assume, Edges, Rule;
    assert WellFormedChoice(db.defs, c);
    assert v(c) == Step(db, v, c);
    GivenLimits(db, v, c, g);
    RuleIsChoice(db, EnvOf(db, v), db.defs[c], g);
    PickSpec(db, EnvOf(db, Assume(v, c)), c);
  }

  /** How far a member can be seen: its prompts, except that one that is m does not count for a
      tristate member of a choice that is y. */
  lemma MemberVisible(db: Database, env: Env, k: nat, p: Tristate)
    requires k < |db.defs| && db.defs[k].role.Member? && LargestPrompt(env, db.defs[k], p)
    ensures var d := db.defs[k];
      VisibleIn(db, env, k) ==
        if d.kind == Tristates && env.value(d.role.choice) == YES && p == MOD then NO else Raised(db, d, p)
  {
    hide Eval, LargestPrompt;
    var d := db.defs[k];
    PromptsLargest(env, d);
    LargestUnique(env, d, p, PromptLimit(env, d.props, false));
    PromptsSquashed(env, d);
    if LargestPrompt(env, d, YES) { LargestUnique(env, d, p, YES); }
  }

  /** A member that can be seen entirely is y if it is picked and n if not; any other follows the
      rule, with no dependencies of its own. */
  lemma MemberComesTo(db: Database, v: nat -> Value, k: nat, def: Tristate)
    requires Closed(db.defs) && Solution(db, v) && k < |db.defs| && db.defs[k].role.Member?
    requires DefaultIs(EnvOf(db, v), db.defs[k], def)
    ensures var d, vis := db.defs[k], VisibleIn(db, EnvOf(db, v), k);
      v(k).tri ==
        if vis == YES then (if v(d.role.choice).pick == Some(k) then YES else NO)
        else if vis == MOD && d.user.Some? then Raised(db, d, Least(d.user.value.tri, MOD))
        else Raised(db, d, def)
  {
    hide PromptLimit, DefaultIs, SwitchValue, EnvOf, Edges, ActiveDefault;
    assert WellFormedChoice(db.defs, db.defs[k].role.choice);
    assert v(k) == Step(db, v, k);
    FallbackIs(EnvOf(db, v), db.defs[k], def);
    RuleIsSwitch(db, EnvOf(db, v), db.defs[k], Given(VisibleIn(db, EnvOf(db, v), k), NO, NO, NO));
  }

  /** The text of a string, int or hex symbol: the user's if a prompt can be seen, otherwise that of
      the symbol its first active default names. */
  lemma TextComesTo(db: Database, v: nat -> Value, i: nat, p: Tristate)
    requires Closed(db.defs) && Solution(db, v) && i < |db.defs| && db.defs[i].kind in {Int, Hex, Str}
    requires LargestPrompt(EnvOf(db, v), db.defs[i], p)
    ensures var d, env := db.defs[i], EnvOf(db, v);
      && v(i).tri == NO
      && (p != NO && d.user.Some? ==> v(i).str == d.user.value.str)
      && (!(p != NO && d.user.Some?) ==>
            && (forall k: nat :: FirstActive(env, d, k) ==>
                  match d.props[k].value
                  case Some(Sym(Config(j))) => v(i).str == v(j).str
                  case Some(Sym(Quoted(name))) => v(i).str == name
                  case Some(Sym(SymYes)) => v(i).str == "y"
                  case Some(Sym(SymMod)) => v(i).str == "m"
                  case Some(Sym(SymNo)) => v(i).str == "n"
                  case _ => v(i).str == "")
            && ((forall k: nat :: !FirstActive(env, d, k)) ==> v(i).str == ""))
  {
    var d, env := db.defs[i], EnvOf(db, v);
    NotGroupedText(db, i);
    hide Eval, LargestPrompt, FirstActive, Edges, EnvOf, Closed;
    assert v(i) == Step(db, v, i);
    PromptsLargest(env, d);
    LargestUnique(env, d, p, PromptLimit(env, d.props, false));
    ActiveIsFirst(env, d);
    if ActiveDefault(env, d.props).Some? {
      var k: nat :| FirstActive(env, d, k) && d.props[k] == ActiveDefault(env, d.props).value;
      forall l: nat | FirstActive(env, d, l) ensures l == k { OneFirst(env, d, k, l); }
    }
  }

  /** A symbol of unknown type stands for its name. */
  lemma UnknownComesTo(db: Database, v: nat -> Value, i: nat)
    requires Solution(db, v) && i < |db.defs| && db.defs[i].kind == Unknown
    ensures v(i).str == db.defs[i].name && v(i).tri == NO
  {
    hide LimitsOf;
    assert v(i) == Step(db, v, i);
  }

  /** The type and the text of a symbol in a comparison: a bool or tristate shows its letter, m only
      with modules. */
  predicate Shows(db: Database, v: nat -> Value, s: Symbol, kind: SymbolType, text: string) {
    match s
    case SymYes => kind == Unknown && text == "y"
    case SymMod => kind == Unknown && text == "m"
    case SymNo => kind == Unknown && text == "n"
    case Quoted(name) => kind == Unknown && text == name
    case Config(i) =>
      && i < |db.defs| && kind == db.defs[i].kind
      && if kind == Boolean || kind == Tristates then
           && (v(i).tri == YES ==> text == "y") && (v(i).tri == NO ==> text == "n")
           && (v(i).tri == MOD ==> text == if db.modules == NO then "n" else "m")
         else text == v(i).str
  }

  lemma ShowsText(db: Database, v: nat -> Value, s: Symbol, kind: SymbolType, text: string)
    requires Shows(db, v, s, kind, text)
    ensures kind == KindOf(db, s) && text == StringOf(db, kind, ValueIn(v, s))
  {
  }

  lemma ComparedTexts(db: Database, v: nat -> Value, rel: Rel, l: Symbol, r: Symbol, kl: SymbolType, tl: string,
      kr: SymbolType, tr: string)
    requires Shows(db, v, l, kl, tl) && Shows(db, v, r, kr, tr)
    ensures Eval(EnvOf(db, v), Compare(rel, l, r)) == if Holds(rel, db.cmp(kl, tl, kr, tr)) then YES else NO
  {
    hide Shows, KindOf, StringOf, Holds;
    ShowsText(db, v, l, kl, tl);
    ShowsText(db, v, r, kr, tr);
  }

  lemma NotGroupedText(db: Database, i: nat)
    requires Closed(db.defs) && i < |db.defs| && !Switch(db.defs[i].kind)
    ensures db.defs[i].role.Ordinary?
  {
    hide Edges;
    assert Grouped(db.defs);
  }

  // ----- which member a choice picks -----

  /** Property k is the first default of a choice with a condition that is not n and a member that
      can be seen. */
  ghost predicate FirstSeen(db: Database, env: Env, d: SymbolDef, k: nat) {
    k < |d.props| && Seen(db, env, d.props[k]) && forall j :: 0 <= j < k ==> !Seen(db, env, d.props[j])
  }

  ghost predicate Seen(db: Database, env: Env, p: Property) {
    && p.kind == Preset && EvalOpt(env, p.cond) != NO
    && exists m: nat :: p.value == Some(Sym(Config(m))) && VisibleIn(db, env, m) != NO
  }

  lemma {:induction false} PresetIsFirst(db: Database, env: Env, d: SymbolDef)
    ensures var r := FirstPreset(db, env, d.props);
      && (r.Some? ==> exists k: nat ::
            k < |d.props| && FirstSeen(db, env, d, k) && d.props[k].value == Some(Sym(Config(r.value))))
      && (r.None? ==> forall k: nat :: !FirstSeen(db, env, d, k))
    decreases |d.props|
  {
    hide Eval, VisibleIn;
    if d.props != [] {
      if Seen(db, env, d.props[0]) {
        assert FirstSeen(db, env, d, 0);
      } else {
        var rest := d.(props := d.props[1..]);
        PresetIsFirst(db, env, rest);
        hide Seen;
        forall k: nat | FirstSeen(db, env, rest, k) ensures FirstSeen(db, env, d, k + 1) { }
        forall k: nat | FirstSeen(db, env, d, k) ensures k > 0 && FirstSeen(db, env, rest, k - 1) {
          assert forall j :: 0 <= j < k - 1 ==> rest.props[j] == d.props[j + 1];
        }
      }
    }
  }

  lemma {:induction false} VisibleIsFirst(db: Database, env: Env, ms: seq<nat>, k: nat)
    requires k < |ms| && VisibleIn(db, env, ms[k]) != NO
    requires forall j :: 0 <= j < k ==> VisibleIn(db, env, ms[j]) == NO
    ensures FirstVisible(db, env, ms) == Some(ms[k])
  {
    hide VisibleIn;
    if k > 0 { VisibleIsFirst(db, env, ms[1..], k - 1); }
  }

  /** A choice that stays y picks the user's member if that can be seen; otherwise that of the first
      default that can be seen; otherwise the first member that can be seen. All of it is judged
      while the choice is taken to be y. */
  lemma PickedMember(db: Database, v: nat -> Value, c: nat)
    requires Closed(db.defs) && Solution(db, v) && c < |db.defs| && db.defs[c].role.Choice? && v(c).tri == YES
    ensures var d, env := db.defs[c], EnvOf(db, Assume(v, c));
      var user := d.role.userPick;
      && (user.Some? && VisibleIn(db, env, user.value) != NO ==> v(c).pick == user)
      && (!(user.Some? && VisibleIn(db, env, user.value) != NO) ==>
            && (forall k: nat :: FirstSeen(db, env, d, k) ==>
                  v(c).pick.Some? && d.props[k].value == Some(Sym(Config(v(c).pick.value))))
            && ((forall k: nat :: !FirstSeen(db, env, d, k)) ==>
                  forall k: nat :: k < |d.role.members| && VisibleIn(db, env, d.role.members[k]) != NO
                    && (forall j :: 0 <= j < k ==> VisibleIn(db, env, d.role.members[j]) == NO)
                    ==> v(c).pick == Some(d.role.members[k])))
  {
    hide LimitsOf, SwitchValue, EnvOf, VisibleIn, Assume, Edges, FirstSeen, FirstPreset, FirstVisible;
    var d, env := db.defs[c], EnvOf(db, Assume(v, c));
    assert WellFormedChoice(db.defs, c);
    assert v(c) == Step(db, v, c);
    PresetIsFirst(db, env, d);
    forall k: nat | k < |d.role.members| && VisibleIn(db, env, d.role.members[k]) != NO
      && (forall j :: 0 <= j < k ==> VisibleIn(db, env, d.role.members[j]) == NO)
      ensures FirstVisible(db, env, d.role.members) == Some(d.role.members[k])
    {
      VisibleIsFirst(db, env, d.role.members, k);
    }
    if FirstPreset(db, env, d.props).Some? {
      var m := FirstPreset(db, env, d.props).value;
      var k: nat :| k < |d.props| && FirstSeen(db, env, d, k) && d.props[k].value == Some(Sym(Config(m)));
      forall l: nat | FirstSeen(db, env, d, l) ensures l == k { OneSeen(db, env, d, k, l); }
    }
  }

  lemma OneSeen(db: Database, env: Env, d: SymbolDef, k: nat, l: nat)
    requires FirstSeen(db, env, d, k) && FirstSeen(db, env, d, l)
    ensures k == l
  {
    hide Seen;
  }
}
