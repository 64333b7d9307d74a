/** Configuration symbols after menu_finalize, the equations their values satisfy
    (sym_calc_visibility and sym_calc_value of scripts/config/symbol.c), and the graph of their
    dependencies, choices included. Ranges are not part of this module. */
module Symbols {
  import opened Expressions

  /** Preset is the default of a choice: it names a member, of which only the visibility matters. */
  datatype PropertyType = Prompt | Default | Preset | Select | Imply | Where

  /** The condition of a property, and what a default, select or imply names. */
  datatype Property = Property(kind: PropertyType, cond: Option<Expr>, value: Option<Expr>)

  /** The value of a choice that is y also says which member is picked. */
  datatype Value = Value(str: string, tri: Tristate, pick: Option<nat>)

  /** A choice lists its members and has the user's pick, if any; a member knows its choice. */
  datatype Role = Ordinary | Choice(members: seq<nat>, userPick: Option<nat>) | Member(choice: nat)

  datatype SymbolDef = SymbolDef(
    name: string,
    kind: SymbolType,
    role: Role,
    dirDep: Option<Expr>,
    revDep: Option<Expr>,
    implied: Option<Expr>,
    props: seq<Property>,
    user: Option<Value>)

  /** All symbols, the value of MODULES, and the comparison of two typed string values. */
  datatype Database = Database(
    defs: seq<SymbolDef>,
    modules: Tristate,
    cmp: (SymbolType, string, SymbolType, string) -> int)

  // ----- dependency graph -----

  /** The config symbols of an expression, in the order sym_check_expr_deps visits them. */
  function Ids(e: Expr): seq<nat> {
    match e
    case Sym(s) => IdOf(s)
    case Compare(_, l, r) => IdOf(l) + IdOf(r)
    case Not(a) => Ids(a)
    case Bin(_, l, r) => Ids(l) + Ids(r)
  }

  function IdOf(s: Symbol): seq<nat> { if s.Config? then [s.id] else [] }

  function OptIds(e: Option<Expr>): seq<nat> { if e.None? then [] else Ids(e.value) }

  function PropertyIds(p: Property): seq<nat> {
    if p.kind == Select || p.kind == Imply then []
    else if p.kind == Default then OptIds(p.cond) + OptIds(p.value)
    else OptIds(p.cond)
  }

  function PropsIds(ps: seq<Property>): seq<nat> {
    if ps == [] then [] else PropertyIds(ps[0]) + PropsIds(ps[1..])
  }

  function DefIds(d: SymbolDef): seq<nat> {
    OptIds(d.dirDep) + OptIds(d.revDep) + OptIds(d.implied) + PropsIds(d.props)
  }

  function Edges(defs: seq<SymbolDef>, i: nat): seq<nat> {
    if i < |defs| then DefIds(defs[i]) else []
  }

  /** i mentions j: who asks for a member asks for its choice as well. */
  ghost predicate Mentions(defs: seq<SymbolDef>, i: nat, j: nat) {
    j in Edges(defs, i) || exists m :: m in Edges(defs, i) && m < |defs| && defs[m].role == Member(j)
  }

  /** Some member of choice c mentions j, which is not the choice itself. */
  ghost predicate Inner(defs: seq<SymbolDef>, c: nat, j: nat) {
    c < |defs| && defs[c].role.Choice? && j != c && exists k :: k in defs[c].role.members && Mentions(defs, k, j)
  }

  /** What the value of i is computed from: a choice needs what its members need, and a member
      needs its choice. */
  ghost predicate Links(defs: seq<SymbolDef>, i: nat, j: nat) {
    Mentions(defs, i, j) || Inner(defs, i, j) || (i < |defs| && defs[i].role == Member(j))
  }

  /** All links but those that merely mention a choice. */
  ghost predicate HardLinks(defs: seq<SymbolDef>, i: nat, j: nat) {
    Links(defs, i, j) && (j < |defs| && defs[j].role.Choice? ==> i < |defs| && defs[i].role == Member(j))
  }

  /** The members of a choice know it, and its picks are members. */
  ghost predicate WellFormedChoice(defs: seq<SymbolDef>, c: nat)
    requires c < |defs| && defs[c].role.Choice?
  {
    && Switch(defs[c].kind)
    && (forall k :: k in defs[c].role.members ==> k < |defs| && defs[k].role == Member(c) && Switch(defs[k].kind))
    && (defs[c].role.userPick.Some? ==> defs[c].role.userPick.value in defs[c].role.members)
    && (forall p :: p in defs[c].props && p.kind == Preset ==>
          p.value.Some? && p.value.value.Sym? && p.value.value.sym.Config? &&
            p.value.value.sym.id in defs[c].role.members)
  }

  ghost predicate Grouped(defs: seq<SymbolDef>) {
    && (forall c :: 0 <= c < |defs| && defs[c].role.Choice? ==> WellFormedChoice(defs, c))
    && (forall k :: 0 <= k < |defs| && defs[k].role.Member? ==>
          var c := defs[k].role.choice; c < |defs| && defs[c].role.Choice? && k in defs[c].role.members)
  }

  /** Every symbol mentioned is in the table, as the parser's look-up makes sure. */
  ghost predicate Closed(defs: seq<SymbolDef>) {
    Grouped(defs) && forall i, j :: 0 <= i < |defs| && j in Edges(defs, i) ==> j < |defs|
  }

  lemma ClosedLinks(defs: seq<SymbolDef>, i: nat, j: nat)
    requires Closed(defs) && i < |defs| && Links(defs, i, j)
    ensures j < |defs|
  {
    hide Edges;
    if Inner(defs, i, j) {
      assert WellFormedChoice(defs, i);
      var k :| k in defs[i].role.members && Mentions(defs, k, j);
      MentionedIn(defs, k, j);
    } else if Mentions(defs, i, j) {
      MentionedIn(defs, i, j);
    }
  }

  lemma MentionedIn(defs: seq<SymbolDef>, i: nat, j: nat)
    requires Closed(defs) && i < |defs| && Mentions(defs, i, j)
    ensures j < |defs|
  {
    hide Edges;
    if j !in Edges(defs, i) {
      var m :| m in Edges(defs, i) && m < |defs| && defs[m].role == Member(j);
    }
  }

  ghost predicate IsPath(defs: seq<SymbolDef>, p: seq<nat>) {
    |p| >= 2 ==> Links(defs, p[0], p[1]) && IsPath(defs, p[1..])
  }

  ghost predicate Cyclic(defs: seq<SymbolDef>) {
    exists p: seq<nat> :: |p| >= 2 && IsPath(defs, p) && p[0] == p[|p| - 1]
  }

  /** A path from what a member of c mentions leads back to c. */
  ghost predicate DetourPath(defs: seq<SymbolDef>, c: nat, p: seq<nat>) {
    |p| >= 2 && IsPath(defs, p) && Inner(defs, c, p[0]) && p[|p| - 1] == c
  }

  ghost predicate Detour(defs: seq<SymbolDef>) {
    exists c: nat, p: seq<nat> :: DetourPath(defs, c, p)
  }

  lemma DetourCyclic(defs: seq<SymbolDef>)
    ensures Detour(defs) ==> Cyclic(defs)
  {
    hide IsPath, Inner, Mentions, Cyclic;
    if Detour(defs) {
      var c, p: seq<nat> :| DetourPath(defs, c, p);
      LinkInFront(defs, c, p);
      ClosedPath(defs, [c] + p);
    }
  }

  lemma LinkInFront(defs: seq<SymbolDef>, c: nat, p: seq<nat>)
    requires IsPath(defs, p) && |p| >= 1 && Links(defs, c, p[0])
    ensures IsPath(defs, [c] + p)
  {
    hide Links;
    assert ([c] + p)[1..] == p;
  }

  ghost predicate IsHardPath(defs: seq<SymbolDef>, p: seq<nat>) {
    |p| >= 2 ==> HardLinks(defs, p[0], p[1]) && IsHardPath(defs, p[1..])
  }

  /** A cycle in which choices are entered through their members only. */
  ghost predicate HardCyclic(defs: seq<SymbolDef>) {
    exists p: seq<nat> :: |p| >= 2 && IsHardPath(defs, p) && p[0] == p[|p| - 1]
  }

  lemma {:induction false} HardPath(defs: seq<SymbolDef>, p: seq<nat>)
    requires IsHardPath(defs, p)
    ensures IsPath(defs, p)
  {
    hide Links;
    if |p| >= 2 { HardPath(defs, p[1..]); }
  }

  lemma HardCyclicCyclic(defs: seq<SymbolDef>)
    ensures HardCyclic(defs) ==> Cyclic(defs)
  {
    hide IsPath, HardLinks;
    if HardCyclic(defs) {
      var p: seq<nat> :| |p| >= 2 && IsHardPath(defs, p) && p[0] == p[|p| - 1];
      HardPath(defs, p);
      ClosedPath(defs, p);
    }
  }

  lemma {:induction false} HardRankFalls(defs: seq<SymbolDef>, rank: nat -> nat, p: seq<nat>)
    requires Closed(defs) && IsHardPath(defs, p) && |p| >= 2 && p[0] < |defs|
    requires forall i, j :: 0 <= i < |defs| && HardLinks(defs, i, j) ==> rank(j) < rank(i)
    ensures rank(p[|p| - 1]) < rank(p[0])
  {
    assert Links(defs, p[0], p[1]);
    ClosedLinks(defs, p[0], p[1]);
    hide Links;
    if |p| > 2 { HardRankFalls(defs, rank, p[1..]); }
  }

  /** An edge to choice j from a symbol that depends on no member of it but for the choice itself. */
  ghost predicate Passable(defs: seq<SymbolDef>, i: nat, j: nat) {
    && i != j && j < |defs| && defs[j].role.Choice? && i !in defs[j].role.members
    && forall m :: m in defs[j].role.members ==> !Links(defs, i, m)
  }

  /** Choices that the cycles of a table go through, a rank that falls along all other links, and for
      each of the choices what it depends on itself, what may be searched before it is entered, and
      the place in the table where it is first met. */
  datatype Plan = Plan(choices: set<nat>, rank: nat -> nat, own: nat -> set<nat>, early: nat -> set<nat>,
      first: nat -> nat)

  /** Choice c does not depend on itself but for its members, and is entered before any edge back to
      it is met. */
  ghost predicate Entered(defs: seq<SymbolDef>, p: Plan, c: nat) {
    && c < |defs| && defs[c].role.Choice?
    && (forall j :: Mentions(defs, c, j) ==> j in p.own(c))
    && (forall i, j :: i in p.own(c) && Links(defs, i, j) ==> j in p.own(c)) && c !in p.own(c)
    && (p.first(c) == c || p.first(c) in defs[c].role.members)
    && (forall i :: 0 <= i < p.first(c) ==> i in p.early(c))
    && (forall i, j :: i in p.early(c) && Links(defs, i, j) ==> j in p.early(c) || j == c || j in defs[c].role.members)
    && (forall i :: i in p.early(c) && Links(defs, i, c) ==> p.rank(c) < p.rank(i))
  }

  /** All cycles pass an edge back to one of the choices, each of which is entered in time. */
  ghost predicate Excused(defs: seq<SymbolDef>, p: Plan) {
    && (forall i, j :: 0 <= i < |defs| && Links(defs, i, j) ==>
          p.rank(j) < p.rank(i) || (j in p.choices && Passable(defs, i, j)))
    && (forall c :: c in p.choices ==> Entered(defs, p, c))
  }

  ghost predicate Excusable(defs: seq<SymbolDef>) { exists p :: Excused(defs, p) }

  /** Every symbol has a rank above those of the symbols it depends on. */
  ghost predicate Ranked(defs: seq<SymbolDef>, rank: nat -> nat) {
    forall i, j :: 0 <= i < |defs| && Links(defs, i, j) ==> rank(j) < rank(i)
  }

  lemma {:induction false} RankFalls(defs: seq<SymbolDef>, rank: nat -> nat, p: seq<nat>)
    requires Closed(defs) && Ranked(defs, rank) && IsPath(defs, p) && |p| >= 2 && p[0] < |defs|
    ensures rank(p[|p| - 1]) < rank(p[0])
  {
    hide Links, Mentions, Inner, Closed, Edges;
    ClosedLinks(defs, p[0], p[1]);
    if |p| > 2 { RankFalls(defs, rank, p[1..]); }
  }

  lemma RankedAcyclic(defs: seq<SymbolDef>, rank: nat -> nat)
    requires Closed(defs) && Ranked(defs, rank)
    ensures !Cyclic(defs)
  {
    if Cyclic(defs) {
      var p: seq<nat> :| |p| >= 2 && IsPath(defs, p) && p[0] == p[|p| - 1];
      assert Links(defs, p[0], p[1]) && p[0] < |defs|;
      hide Links;
      RankFalls(defs, rank, p);
    }
  }

  lemma {:induction false} PathAppend(defs: seq<SymbolDef>, p: seq<nat>, i: nat)
    requires IsPath(defs, p) && (p == [] || Links(defs, p[|p| - 1], i))
    ensures IsPath(defs, p + [i])
  {
    hide Links;
    if |p| >= 2 {
      PathAppend(defs, p[1..], i);
      assert (p + [i])[1..] == p[1..] + [i];
    }
  }

  lemma ClosedPath(defs: seq<SymbolDef>, p: seq<nat>)
    requires |p| >= 2 && IsPath(defs, p) && p[0] == p[|p| - 1]
    ensures Cyclic(defs)
  {
  }

  /** Without cycles, nothing that the conditions of a choice or of its members depend on, directly
      or through other symbols, is the choice or one of its members: giving members their values
      changes no condition. */
  lemma MembersUnreachable(defs: seq<SymbolDef>, c: nat, p: seq<nat>)
    requires Closed(defs) && c < |defs| && defs[c].role.Choice? && |p| >= 1
    ensures !Cyclic(defs) && IsPath(defs, p) && (Mentions(defs, c, p[0]) || Inner(defs, c, p[0])) ==>
      p[|p| - 1] != c && p[|p| - 1] !in defs[c].role.members
  {
    if IsPath(defs, p) && (Mentions(defs, c, p[0]) || Inner(defs, c, p[0])) &&
       (p[|p| - 1] == c || p[|p| - 1] in defs[c].role.members)
    {
      MemberCycle(defs, c, p);
    }
  }

  lemma MemberCycle(defs: seq<SymbolDef>, c: nat, p: seq<nat>)
    requires Closed(defs) && c < |defs| && defs[c].role.Choice?
    requires |p| >= 1 && IsPath(defs, p) && (Mentions(defs, c, p[0]) || Inner(defs, c, p[0]))
    requires p[|p| - 1] == c || p[|p| - 1] in defs[c].role.members
    ensures Cyclic(defs)
  {
    hide Mentions, Inner, IsPath, Cyclic, Edges;
    var last := p[|p| - 1];
    var q := [c] + p;
    assert Links(defs, c, p[0]);
    LinkInFront(defs, c, p);
    if last == c {
      ClosedPath(defs, q);
    } else {
      assert WellFormedChoice(defs, c);
      assert Links(defs, last, c);
      PathAppend(defs, q, c);
      ClosedPath(defs, q + [c]);
    }
  }

  // ----- the value of one symbol in terms of the others -----

  /** sym_get_string_value. */
  function StringOf(db: Database, k: SymbolType, v: Value): string {
    if !Switch(k) then v.str
    else if v.tri == YES then "y"
    else if v.tri == MOD && db.modules != NO then "m"
    else "n"
  }

  function KindOf(db: Database, s: Symbol): SymbolType {
    if s.Config? && s.id < |db.defs| then db.defs[s.id].kind else Unknown
  }

  function ValueIn(v: nat -> Value, s: Symbol): Value {
    match s
    case SymYes => Value("y", YES, None)
    case SymMod => Value("m", MOD, None)
    case SymNo => Value("n", NO, None)
    case Quoted(name) => Value(name, NO, None)
    case Config(i) => v(i)
  }

  function Outcome(db: Database, l: Symbol, lv: Value, r: Symbol, rv: Value): int {
    var kl, kr := KindOf(db, l), KindOf(db, r);
    db.cmp(kl, StringOf(db, kl, lv), kr, StringOf(db, kr, rv))
  }

  /** The assignment that gives every symbol the value v says it has. */
  function EnvOf(db: Database, v: nat -> Value): Env {
    Env((i: nat) => v(i).tri, (l: Symbol, r: Symbol) => Outcome(db, l, ValueIn(v, l), r, ValueIn(v, r)))
  }

  /** sym_get_type: without modules a tristate is a bool. */
  function EffectiveKind(db: Database, k: SymbolType): SymbolType {
    if k == Tristates && db.modules == NO then Boolean else k
  }

  function Promoted(db: Database, k: SymbolType, v: Tristate): Tristate {
    if v == MOD && EffectiveKind(db, k) == Boolean then YES else v
  }

  /** The largest prompt condition; 'squash' when m counts as n. */
  function PromptLimit(env: Env, ps: seq<Property>, squash: bool): Tristate {
    if ps == [] then NO
    else if ps[0].kind == Prompt then
      Combine(OrOp, Squashed(EvalOpt(env, ps[0].cond), squash), PromptLimit(env, ps[1..], squash))
    else PromptLimit(env, ps[1..], squash)
  }

  function Squashed(tri: Tristate, squash: bool): Tristate { if squash && tri == MOD then NO else tri }

  /** A tristate member cannot be m in a choice that is y. */
  predicate Squashes(env: Env, d: SymbolDef) {
    d.role.Member? && d.kind == Tristates && env.value(d.role.choice) == YES
  }

  /** sym_get_default_prop: the first default whose condition is not n. */
  function ActiveDefault(env: Env, ps: seq<Property>): Option<Property> {
    if ps == [] then None
    else if ps[0].kind == Default && EvalOpt(env, ps[0].cond) != NO then Some(ps[0])
    else ActiveDefault(env, ps[1..])
  }

  datatype Limits = Limits(visible: Tristate, dirDep: Tristate, revDep: Tristate, implied: Tristate)

  /** sym_calc_visibility; a member has nothing but its prompts. */
  function LimitsOf(db: Database, env: Env, d: SymbolDef): Limits {
    var vis := PromptLimit(env, d.props, Squashes(env, d));
    var visible := if vis == MOD && (d.kind != Tristates || db.modules == NO) then YES else vis;
    if d.role.Member? then Limits(visible, NO, NO, NO)
    else
      Limits(visible,
             Promoted(db, d.kind, EvalOpt(env, d.dirDep)),
             Promoted(db, d.kind, if d.revDep.None? then NO else Eval(env, d.revDep.value)),
             Promoted(db, d.kind, if d.implied.None? then NO else Eval(env, d.implied.value)))
  }

  /** The bool and tristate part of sym_calc_value, but for the picks of choices. */
  function SwitchValue(db: Database, env: Env, d: SymbolDef, lim: Limits): Tristate {
    var wanted :=
      if lim.visible != NO && d.user.Some? then Combine(AndOp, d.user.value.tri, lim.visible)
      else if d.role.Choice? then NO
      else
        var p := ActiveDefault(env, d.props);
        var def := if p.None? then NO else Combine(AndOp, EvalOpt(env, p.value.value), EvalOpt(env, p.value.cond));
        if lim.implied != NO then Combine(AndOp, Combine(OrOp, def, lim.implied), lim.dirDep) else def;
    var newval := if lim.dirDep == NO && lim.revDep != NO then NO else Combine(OrOp, wanted, lim.revDep);
    Promoted(db, d.kind, newval)
  }

  // ----- which member is picked -----

  function VisibleIn(db: Database, env: Env, k: nat): Tristate {
    if k < |db.defs| then LimitsOf(db, env, db.defs[k]).visible else NO
  }

  function PresetOf(p: Property): Option<nat> {
    if p.kind == Preset && p.value.Some? && p.value.value.Sym? && p.value.value.sym.Config?
    then Some(p.value.value.sym.id) else None
  }

  /** sym_choice_default: the first default that is active and visible, ... */
  function FirstPreset(db: Database, env: Env, ps: seq<Property>): Option<nat> {
    if ps == [] then None
    else
      var k := PresetOf(ps[0]);
      if k.Some? && EvalOpt(env, ps[0].cond) != NO && VisibleIn(db, env, k.value) != NO then k
      else FirstPreset(db, env, ps[1..])
  }

  /** ... or else the first visible member. */
  function FirstVisible(db: Database, env: Env, ms: seq<nat>): Option<nat> {
    if ms == [] then None else if VisibleIn(db, env, ms[0]) != NO then Some(ms[0]) else FirstVisible(db, env, ms[1..])
  }

  /** sym_calc_choice: the user's pick if it is visible. */
  function PickIn(db: Database, env: Env, d: SymbolDef): Option<nat>
    requires d.role.Choice?
  {
    var user := d.role.userPick;
    if user.Some? && VisibleIn(db, env, user.value) != NO then user
    else if FirstPreset(db, env, d.props).Some? then FirstPreset(db, env, d.props)
    else FirstVisible(db, env, d.role.members)
  }

  /** Some member that is visible has no value from the user: then the choice forgets that the
      user has set it. */
  predicate Forgets(db: Database, env: Env, ms: seq<nat>) {
    exists k :: k in ms && k < |db.defs| && VisibleIn(db, env, k) != NO && db.defs[k].user.None?
  }

  /** The values as they are seen while the members of choice c are looked at: c is y so far. */
  function Assume(v: nat -> Value, c: nat): nat -> Value {
    (j: nat) => if j == c then Value("n", YES, None) else v(j)
  }

  /** A choice that comes to y stays y only if it finds a member to pick. */
  function ChoiceValue(db: Database, v: nat -> Value, c: nat, tri: Tristate): Value
    requires c < |db.defs| && db.defs[c].role.Choice?
  {
    if tri != YES then Value("n", tri, None)
    else
      var pick := PickIn(db, EnvOf(db, Assume(v, c)), db.defs[c]);
      Value("n", if pick.None? then NO else YES, pick)
  }

  /** The symbol a string, int or hex default takes its text from (prop_get_symbol). */
  function DefaultSource(p: Property): Option<Symbol> {
    if p.value.Some? && p.value.value.Sym? then Some(p.value.value.sym) else None
  }

  function TextValue(env: Env, v: nat -> Value, d: SymbolDef, lim: Limits): string {
    if lim.visible != NO && d.user.Some? then d.user.value.str
    else
      var p := ActiveDefault(env, d.props);
      if p.None? || DefaultSource(p.value).None? then ""
      else ValueIn(v, DefaultSource(p.value).value).str
  }

  /** What sym_calc_value gives a symbol when the others have the values v. */
  function Step(db: Database, v: nat -> Value, i: nat): Value
    requires i < |db.defs|
  {
    var d, env := db.defs[i], EnvOf(db, v);
    var lim := LimitsOf(db, env, d);
    if d.kind == Unknown then Value(d.name, NO, None)
    else if !Switch(d.kind) then Value(TextValue(env, v, d, lim), NO, None)
    else if d.role.Member? && lim.visible == YES then
      Value("n", if v(d.role.choice).pick == Some(i) then YES else NO, None)
    else if d.role.Choice? then ChoiceValue(db, v, i, SwitchValue(db, env, d, lim))
    else Value("n", SwitchValue(db, env, d, lim), None)
  }

  /** A valuation in which every symbol has the value computed from all the others. */
  ghost predicate Solution(db: Database, v: nat -> Value) {
    forall i: nat :: i < |db.defs| ==> v(i) == Step(db, v, i)
  }

  // ----- acyclic dependencies have exactly one solution -----

  /** What expressions see of two values is the same. */
  predicate Alike(x: Value, y: Value) { x.str == y.str && x.tri == y.tri }

  ghost predicate AgreeOn(ids: seq<nat>, v: nat -> Value, w: nat -> Value) {
    forall j :: j in ids ==> Alike(v(j), w(j))
  }

  /** The same for everything that the value of i is computed from. */
  ghost predicate AgreeLinks(defs: seq<SymbolDef>, i: nat, v: nat -> Value, w: nat -> Value) {
    forall j :: Links(defs, i, j) ==> v(j) == w(j)
  }

  lemma SymbolLocal(v: nat -> Value, w: nat -> Value, s: Symbol)
    requires AgreeOn(IdOf(s), v, w)
    ensures Alike(ValueIn(v, s), ValueIn(w, s))
  {
    if s.Config? { assert s.id in IdOf(s); }
  }

  lemma {:induction false} EvalLocal(db: Database, v: nat -> Value, w: nat -> Value, e: Expr)
    requires AgreeOn(Ids(e), v, w)
    ensures Eval(EnvOf(db, v), e) == Eval(EnvOf(db, w), e)
  {
    match e
    case Sym(s) => SymbolLocal(v, w, s);
    case Compare(_, l, r) =>
      assert AgreeOn(IdOf(l), v, w) && AgreeOn(IdOf(r), v, w);
      SymbolLocal(v, w, l);
      SymbolLocal(v, w, r);
    case Not(a) => EvalLocal(db, v, w, a);
    case Bin(_, l, r) => EvalLocal(db, v, w, l); EvalLocal(db, v, w, r);
  }

  lemma EvalOptLocal(db: Database, v: nat -> Value, w: nat -> Value, e: Option<Expr>)
    requires AgreeOn(OptIds(e), v, w)
    ensures EvalOpt(EnvOf(db, v), e) == EvalOpt(EnvOf(db, w), e)
  {
    if e.Some? { EvalLocal(db, v, w, e.value); }
  }

  lemma {:induction false} PropsLocal(db: Database, v: nat -> Value, w: nat -> Value, ps: seq<Property>)
    requires AgreeOn(PropsIds(ps), v, w)
    ensures forall squash :: PromptLimit(EnvOf(db, v), ps, squash) == PromptLimit(EnvOf(db, w), ps, squash)
    ensures ActiveDefault(EnvOf(db, v), ps) == ActiveDefault(EnvOf(db, w), ps)
    ensures ActiveDefault(EnvOf(db, v), ps).Some? ==>
              var p := ActiveDefault(EnvOf(db, v), ps).value;
              p.kind == Default && AgreeOn(OptIds(p.cond), v, w) && AgreeOn(OptIds(p.value), v, w)
  {
    if ps != [] {
      PropsLocal(db, v, w, ps[1..]);
      if ps[0].kind != Select && ps[0].kind != Imply {
        EvalOptLocal(db, v, w, ps[0].cond);
      }
    }
  }

  /** Two valuations that agree on what a symbol mentions, and on its choice, give it the same
      limits. */
  lemma LimitsLocal(db: Database, v: nat -> Value, w: nat -> Value, d: SymbolDef)
    requires AgreeOn(DefIds(d), v, w)
    requires d.role.Member? ==> v(d.role.choice).tri == w(d.role.choice).tri
    ensures LimitsOf(db, EnvOf(db, v), d) == LimitsOf(db, EnvOf(db, w), d)
  {
    EvalOptLocal(db, v, w, d.dirDep);
    EvalOptLocal(db, v, w, d.revDep);
    EvalOptLocal(db, v, w, d.implied);
    PropsLocal(db, v, w, d.props);
  }

  lemma SwitchLocal(db: Database, v: nat -> Value, w: nat -> Value, d: SymbolDef, lim: Limits)
    requires AgreeOn(DefIds(d), v, w)
    ensures SwitchValue(db, EnvOf(db, v), d, lim) == SwitchValue(db, EnvOf(db, w), d, lim)
    ensures TextValue(EnvOf(db, v), v, d, lim) == TextValue(EnvOf(db, w), w, d, lim)
  {
    PropsLocal(db, v, w, d.props);
    var p := ActiveDefault(EnvOf(db, v), d.props);
    if p.Some? {
      EvalOptLocal(db, v, w, p.value.value);
      EvalOptLocal(db, v, w, p.value.cond);
      if DefaultSource(p.value).Some? { SymbolLocal(v, w, DefaultSource(p.value).value); }
    }
  }

  lemma {:induction false} PresetLocal(db: Database, v: nat -> Value, w: nat -> Value, ps: seq<Property>)
    requires AgreeOn(PropsIds(ps), v, w)
    requires forall p :: p in ps && PresetOf(p).Some? ==>
      VisibleIn(db, EnvOf(db, v), PresetOf(p).value) == VisibleIn(db, EnvOf(db, w), PresetOf(p).value)
    ensures FirstPreset(db, EnvOf(db, v), ps) == FirstPreset(db, EnvOf(db, w), ps)
  {
    if ps != [] {
      assert ps[0] in ps;
      if ps[0].kind == Preset { EvalOptLocal(db, v, w, ps[0].cond); }
      PresetLocal(db, v, w, ps[1..]);
    }
  }

  lemma {:induction false} VisibleLocal(db: Database, env: Env, env': Env, ms: seq<nat>)
    requires forall k :: k in ms ==> VisibleIn(db, env, k) == VisibleIn(db, env', k)
    ensures FirstVisible(db, env, ms) == FirstVisible(db, env', ms)
  {
    if ms != [] { VisibleLocal(db, env, env', ms[1..]); }
  }

  /** What a choice picks depends only on its links: its members are looked at with the choice
      itself taken to be y. */
  lemma PickLocal(db: Database, v: nat -> Value, w: nat -> Value, c: nat)
    requires Closed(db.defs) && c < |db.defs| && db.defs[c].role.Choice? && AgreeLinks(db.defs, c, v, w)
    requires c !in Edges(db.defs, c)
    ensures PickIn(db, EnvOf(db, Assume(v, c)), db.defs[c]) == PickIn(db, EnvOf(db, Assume(w, c)), db.defs[c])
    ensures forall k :: k in db.defs[c].role.members ==>
      VisibleIn(db, EnvOf(db, Assume(v, c)), k) == VisibleIn(db, EnvOf(db, Assume(w, c)), k)
  {
    hide LimitsOf, Links, Edges, EnvOf, Assume, FirstPreset, FirstVisible;
    var d, va, wa := db.defs[c], Assume(v, c), Assume(w, c);
    forall k | k in d.role.members ensures VisibleIn(db, EnvOf(db, va), k) == VisibleIn(db, EnvOf(db, wa), k) {
      MemberAgrees(db, v, w, c, k);
      LimitsLocal(db, va, wa, db.defs[k]);
    }
    ChoiceAgrees(db, v, w, c);
    PresetMembers(db, c);
    PresetLocal(db, va, wa, d.props);
    VisibleLocal(db, EnvOf(db, va), EnvOf(db, wa), d.role.members);
  }

  lemma PresetMembers(db: Database, c: nat)
    requires Closed(db.defs) && c < |db.defs| && db.defs[c].role.Choice?
    ensures forall p :: p in db.defs[c].props && PresetOf(p).Some? ==> PresetOf(p).value in db.defs[c].role.members
    ensures db.defs[c].role.userPick.Some? ==> db.defs[c].role.userPick.value in db.defs[c].role.members
  {
    assert WellFormedChoice(db.defs, c);
  }

  lemma ChoiceAgrees(db: Database, v: nat -> Value, w: nat -> Value, c: nat)
    requires c < |db.defs| && AgreeLinks(db.defs, c, v, w)
    ensures AgreeOn(PropsIds(db.defs[c].props), Assume(v, c), Assume(w, c))
  {
    forall j | j in PropsIds(db.defs[c].props) ensures Alike(Assume(v, c)(j), Assume(w, c)(j)) {
      assert j in Edges(db.defs, c);
      assert Mentions(db.defs, c, j);
    }
  }

  lemma MemberAgrees(db: Database, v: nat -> Value, w: nat -> Value, c: nat, k: nat)
    requires Closed(db.defs) && c < |db.defs| && db.defs[c].role.Choice? && AgreeLinks(db.defs, c, v, w)
    requires k in db.defs[c].role.members
    ensures k < |db.defs| && db.defs[k].role == Member(c) && Assume(v, c)(c) == Assume(w, c)(c)
    ensures AgreeOn(DefIds(db.defs[k]), Assume(v, c), Assume(w, c))
  {
    assert WellFormedChoice(db.defs, c);
    forall j | j in DefIds(db.defs[k]) ensures Alike(Assume(v, c)(j), Assume(w, c)(j)) {
      assert j in Edges(db.defs, k);
      if j != c {
        assert Mentions(db.defs, k, j);
        assert Inner(db.defs, c, j);
        assert Links(db.defs, c, j);
      }
    }
  }

  lemma EdgesAgree(db: Database, v: nat -> Value, w: nat -> Value, i: nat)
    requires i < |db.defs| && AgreeLinks(db.defs, i, v, w)
    ensures AgreeOn(DefIds(db.defs[i]), v, w)
    ensures db.defs[i].role.Member? ==> v(db.defs[i].role.choice) == w(db.defs[i].role.choice)
  {
    forall j | j in DefIds(db.defs[i]) ensures Alike(v(j), w(j)) {
      assert j in Edges(db.defs, i);
      assert Mentions(db.defs, i, j) && Links(db.defs, i, j);
    }
    if db.defs[i].role.Member? { assert Links(db.defs, i, db.defs[i].role.choice); }
  }

  /** The value of a symbol depends on its links only. */
  lemma StepLocal(db: Database, v: nat -> Value, w: nat -> Value, i: nat)
    requires Closed(db.defs) && i < |db.defs| && AgreeLinks(db.defs, i, v, w) && i !in Edges(db.defs, i)
    ensures Step(db, v, i) == Step(db, w, i)
  {
    var d := db.defs[i];
    EdgesAgree(db, v, w, i);
    LimitsLocal(db, v, w, d);
    SwitchLocal(db, v, w, d, LimitsOf(db, EnvOf(db, v), d));
    if d.role.Choice? { PickLocal(db, v, w, i); }
  }

  lemma NotOwnEdge(defs: seq<SymbolDef>, rank: nat -> nat, i: nat)
    requires Ranked(defs, rank) && i < |defs|
    ensures i !in Edges(defs, i)
  {
    assert i in Edges(defs, i) ==> Mentions(defs, i, i) && Links(defs, i, i);
  }

  lemma {:induction false} SolutionUnique(db: Database, rank: nat -> nat, v: nat -> Value, w: nat -> Value, i: nat)
    requires Closed(db.defs) && Ranked(db.defs, rank) && Solution(db, v) && Solution(db, w) && i < |db.defs|
    ensures v(i) == w(i)
    decreases rank(i)
  {
    forall j | Links(db.defs, i, j) ensures v(j) == w(j) {
      ClosedLinks(db.defs, i, j);
      SolutionUnique(db, rank, v, w, j);
    }
    NotOwnEdge(db.defs, rank, i);
    hide Step, Links;
    StepLocal(db, v, w, i);
  }

  /** The plain recursive valuation, with no caching. */
  ghost function Plain(db: Database, rank: nat -> nat, i: nat): Value
    decreases rank(i)
  {
    if i < |db.defs| then Step(db, (j: nat) => if rank(j) < rank(i) then Plain(db, rank, j) else Value("", NO, None), i)
    else Value("", NO, None)
  }

  lemma PlainIsSolution(db: Database, rank: nat -> nat)
    requires Closed(db.defs) && Ranked(db.defs, rank)
    ensures Solution(db, (i: nat) => Plain(db, rank, i))
  {
    hide Step, Links;
    var v := (i: nat) => Plain(db, rank, i);
    forall i: nat | i < |db.defs| ensures v(i) == Step(db, v, i) {
      NotOwnEdge(db.defs, rank, i);
      StepLocal(db, v, (j: nat) => if rank(j) < rank(i) then Plain(db, rank, j) else Value("", NO, None), i);
    }
  }
}
