/** The depth-first search for recursive dependencies (sym_check_deps, sym_check_sym_deps,
    sym_check_choice_deps and sym_check_expr_deps of scripts/config/symbol.c). */
module DepCheck {
  import opened Expressions
  import opened Symbols
  import Ordering

  /** The dependencies of each entry come before it. */
  ghost predicate Topological(defs: seq<SymbolDef>, done: seq<nat>) {
    forall k, j :: 0 <= k < |done| && Links(defs, done[k], j) ==> j in done[..k]
  }

  ghost predicate HardTopological(defs: seq<SymbolDef>, done: seq<nat>) {
    forall k, j :: 0 <= k < |done| && HardLinks(defs, done[k], j) ==> j in done[..k]
  }

  /** The state of the search: the two flags of every symbol, and for the proof the current
      path, the symbols left without an error, whether an error has been found, whether an edge
      back to an open choice has been passed over, and a plan that excuses all cycles, if any. */
  datatype State = State(check: set<nat>, checked: set<nat>, stack: seq<nat>, done: seq<nat>, found: bool,
      missed: bool, plan: Option<Plan>)

  /** i is on the current path, or a member of a choice that is. */
  ghost predicate OnPath(defs: seq<SymbolDef>, stack: seq<nat>, i: nat) {
    i in stack || (i < |defs| && defs[i].role.Member? && defs[i].role.choice in stack)
  }

  /** A choice whose members are being searched has lost its own flag. */
  ghost predicate Open(defs: seq<SymbolDef>, stack: seq<nat>, check: set<nat>) {
    forall p :: 0 <= p < |stack| && stack[p] !in check ==>
      stack[p] < |defs| && defs[stack[p]].role.Choice? && (p + 1 < |stack| ==> Inner(defs, stack[p], stack[p + 1]))
  }

  /** The flags: what is on the path is flagged, but for choices whose members are searched, and
      members are entered together with their choice. */
  ghost predicate Flagged(defs: seq<SymbolDef>, s: State) {
    && (forall i :: i in s.check ==> OnPath(defs, s.stack, i))
    && (forall i :: i in s.stack ==> i in s.checked)
    && (forall i :: i in s.checked ==> i < |defs|)
    && (forall k :: 0 <= k < |defs| && defs[k].role.Member? ==> (k in s.checked <==> defs[k].role.choice in s.checked))
    && (forall k :: 0 <= k < |defs| && defs[k].role.Member? && defs[k].role.choice in s.stack ==> k in s.check)
  }

  ghost predicate Sound(defs: seq<SymbolDef>, s: State) {
    && Closed(defs) && IsPath(defs, s.stack) && Flagged(defs, s) && Open(defs, s.stack, s.check)
    && (s.found ==> Cyclic(defs))
    && (s.missed ==> Detour(defs))
    && (!s.found ==> Ordered(defs, s))
    && (s.plan.Some? ==> Excused(defs, s.plan.value) && Quiet(s, s.plan.value))
  }

  /** Under a plan nothing is found: ranks fall along the path. */
  ghost predicate Quiet(s: State, p: Plan) {
    && !s.found
    && (forall a, b :: 0 <= a < b < |s.stack| ==> p.rank(s.stack[b]) < p.rank(s.stack[a]))
    && (forall c :: c in p.choices ==> QuietFor(s, p, c))
  }

  /** The path stays in the early symbols until the choice is entered, and among what the choice
      itself depends on while it has its flag. */
  ghost predicate QuietFor(s: State, p: Plan, c: nat) {
    && (c !in s.checked ==> forall i :: i in s.stack ==> i in p.early(c))
    && (c in s.check ==> forall a, b :: 0 <= a < b < |s.stack| && s.stack[a] == c ==> s.stack[b] in p.own(c))
  }

  /** Where a search may start. */
  ghost predicate Rooted(defs: seq<SymbolDef>, s: State, i: nat) {
    s.stack == [] && s.plan.Some? ==> forall c :: c in s.plan.value.choices ==> RootedFor(defs, s, s.plan.value, c, i)
  }

  ghost predicate RootedFor(defs: seq<SymbolDef>, s: State, p: Plan, c: nat, i: nat) {
    c in s.checked || i in p.early(c) || i == c || (i < |defs| && defs[i].role == Member(c))
  }

  ghost predicate Ordered(defs: seq<SymbolDef>, s: State) {
    && (forall i :: i in s.checked <==> i in s.done || OnPath(defs, s.stack, i))
    && (forall i :: i in s.done ==> !OnPath(defs, s.stack, i))
    && (!s.missed ==> Topological(defs, s.done))
    && HardTopological(defs, s.done)
  }

  /** Where the search may go from the end of the path. */
  ghost predicate Next(defs: seq<SymbolDef>, stack: seq<nat>, check: set<nat>, j: nat) {
    stack == [] ||
      var top := stack[|stack| - 1];
      if top in check then Mentions(defs, top, j) else j == top || Inner(defs, top, j)
  }

  ghost predicate Follows(defs: seq<SymbolDef>, stack: seq<nat>, check: set<nat>, ids: seq<nat>) {
    forall j :: j in ids ==>
      && j < |defs| && Next(defs, stack, check, j)
      && (defs[j].role.Member? ==> Next(defs, stack, check, defs[j].role.choice))
  }

  /** j is left behind, or it is the choice whose members are being searched, or an open choice
      further up that has been passed over. */
  ghost predicate Settled(stack: seq<nat>, check: set<nat>, done: seq<nat>, missed: bool, j: nat) {
    j in done || (j in stack && j !in check && (missed || j == stack[|stack| - 1]))
  }

  /** What a search through 'ids' does: it comes back to the same path, never forgets an error,
      reports only real cycles, accounts for all of 'ids' when nothing was found, and unless recursion
      is an error reports only symbols that are still being checked. */
  ghost predicate Searched(defs: seq<SymbolDef>, strict: bool, s: State, s': State, r: Option<nat>, ids: seq<nat>) {
    && Sound(defs, s') && s'.stack == s.stack && s'.check == s.check
    && s.checked <= s'.checked
    && (s.found ==> s'.found) && (s.missed ==> s'.missed) && s'.plan == s.plan
    && (r.Some? ==> s'.found)
    && (strict && s'.found && !s.found ==> r.Some?)
    && (!strict && r.Some? ==> r.value in s.check)
    && (!s'.found ==> forall j :: j in ids ==> Settled(s.stack, s.check, s'.done, s'.missed, j))
    && (forall j :: j in s.done ==> j in s'.done)
  }

  lemma SearchBoth(defs: seq<SymbolDef>, strict: bool, s: State, s1: State, s2: State, r: Option<nat>, a: seq<nat>,
      b: seq<nat>)
    requires Searched(defs, strict, s, s1, None, a) && Searched(defs, strict, s1, s2, r, b)
    ensures Searched(defs, strict, s, s2, r, a + b)
  {
    hide Sound;
  }

  lemma SearchStopped(defs: seq<SymbolDef>, strict: bool, s: State, s1: State, r: Option<nat>, a: seq<nat>, b: seq<nat>)
    requires Searched(defs, strict, s, s1, r, a) && r.Some?
    ensures Searched(defs, strict, s, s1, r, b)
  {
    hide Sound;
  }

  lemma SearchKeeps(defs: seq<SymbolDef>, strict: bool, s: State, s1: State, r: Option<nat>, a: seq<nat>)
    requires Searched(defs, strict, s, s1, r, a)
    ensures Sound(defs, s1) && s1.stack == s.stack && s1.check == s.check && s.checked <= s1.checked
    ensures s1.plan == s.plan
  {
    hide Sound;
  }

  lemma FollowsParts(defs: seq<SymbolDef>, stack: seq<nat>, check: set<nat>, a: seq<nat>, b: seq<nat>)
    requires Follows(defs, stack, check, a + b)
    ensures Follows(defs, stack, check, a) && Follows(defs, stack, check, b)
  {
    hide Next;
    forall j | j in a ensures j in a + b { }
    forall j | j in b ensures j in a + b { }
  }

  lemma SearchNothing(defs: seq<SymbolDef>, strict: bool, s: State)
    requires Sound(defs, s)
    ensures Searched(defs, strict, s, s, None, [])
  {
    hide Sound;
  }

  // ----- entering a symbol or a whole choice, and leaving it -----

  function Group(defs: seq<SymbolDef>, i: nat): seq<nat>
    requires i < |defs|
  {
    if defs[i].role.Choice? then defs[i].role.members else []
  }

  function Elements(s: seq<nat>): set<nat> { set k | k in s }

  function Enter(s: State, i: nat, group: seq<nat>): State {
    s.(check := s.check + {i} + Elements(group), checked := s.checked + {i} + Elements(group), stack := s.stack + [i])
  }

  function Leave(s: State, i: nat, group: seq<nat>): State
    requires s.stack != []
  {
    s.(check := s.check - {i} - Elements(group), stack := s.stack[..|s.stack| - 1],
       done := if s.found then s.done else s.done + [i] + group)
  }

  lemma NextLinks(defs: seq<SymbolDef>, s: State, i: nat)
    requires Sound(defs, s) && s.stack != [] && Next(defs, s.stack, s.check, i) && i != s.stack[|s.stack| - 1]
    ensures Links(defs, s.stack[|s.stack| - 1], i)
  {
    hide Sound, Mentions, Inner;
  }

  lemma Unflagged(defs: seq<SymbolDef>, s: State, i: nat)
    requires Flagged(defs, s) && Closed(defs) && i !in s.checked && i < |defs| && !defs[i].role.Member?
    ensures i !in s.check && i !in s.stack
    ensures forall k :: k in Group(defs, i) ==>
      k < |defs| && defs[k].role == Member(i) && k !in s.check && k !in s.checked
  {
    hide Edges;
    if defs[i].role.Choice? { assert WellFormedChoice(defs, i); }
  }

  lemma EnterFlagged(defs: seq<SymbolDef>, s: State, i: nat)
    requires Flagged(defs, s) && Closed(defs) && i !in s.checked && i < |defs| && !defs[i].role.Member?
    ensures Flagged(defs, Enter(s, i, Group(defs, i)))
    ensures forall j :: OnPath(defs, s.stack + [i], j) <==> OnPath(defs, s.stack, j) || j == i || j in Group(defs, i)
  {
    hide Edges;
    Unflagged(defs, s, i);
    var t := Enter(s, i, Group(defs, i));
    forall k | 0 <= k < |defs| && defs[k].role == Member(i) ensures k in Group(defs, i) { }
    forall j | OnPath(defs, s.stack, j) ensures OnPath(defs, t.stack, j) { }
    assert i in t.stack;
    forall j | j in Group(defs, i) ensures OnPath(defs, t.stack, j) { }
  }

  lemma EnterSound(defs: seq<SymbolDef>, s: State, i: nat)
    requires Sound(defs, s) && Follows(defs, s.stack, s.check, [i]) && i !in s.checked && Rooted(defs, s, i)
    requires i < |defs| && !defs[i].role.Member?
    ensures Sound(defs, Enter(s, i, Group(defs, i)))
    ensures Follows(defs, s.stack + [i], s.check + {i} + Elements(Group(defs, i)), Edges(defs, i))
  {
    hide Edges, IsPath, Cyclic, Detour;
    var t := Enter(s, i, Group(defs, i));
    assert i in [i];
    Unflagged(defs, s, i);
    EnterFlagged(defs, s, i);
    EnterPath(defs, s, i);
    if s.plan.Some? { EnterQuiet(defs, s, i); }
    hide Excused, Quiet;
    forall j | j in Edges(defs, i)
      ensures j < |defs| && Next(defs, t.stack, t.check, j) &&
        (defs[j].role.Member? ==> Next(defs, t.stack, t.check, defs[j].role.choice))
    {
      assert Mentions(defs, i, j) && (defs[j].role.Member? ==> Mentions(defs, i, defs[j].role.choice));
    }
    hide Links, Inner, Topological;
  }

  lemma PathIsChecked(defs: seq<SymbolDef>, s: State)
    requires Sound(defs, s)
    ensures forall j :: j in s.stack ==> j in s.checked
  {
  }

  // ----- under a plan nothing is found -----

  lemma StepLinks(defs: seq<SymbolDef>, s: State, i: nat)
    requires s.stack != [] && Next(defs, s.stack, s.check, i) && i != s.stack[|s.stack| - 1]
    ensures Links(defs, s.stack[|s.stack| - 1], i)
  {
  }

  lemma NotGrouped(defs: seq<SymbolDef>, i: nat, c: nat)
    requires Closed(defs) && i < |defs| && c < |defs| && defs[c].role.Choice?
    ensures c !in Group(defs, i)
  {
    hide Edges;
    if defs[i].role.Choice? { assert WellFormedChoice(defs, i); }
  }

  /** What is entered next has a lower rank than the end of the path. */
  lemma EnteredFalls(defs: seq<SymbolDef>, s: State, p: Plan, top: nat, i: nat)
    requires Excused(defs, p) && Quiet(s, p) && top in s.stack && Links(defs, top, i) && i !in s.checked && top < |defs|
    ensures p.rank(i) < p.rank(top)
  {
    hide Links, Mentions;
    if i in p.choices { assert QuietFor(s, p, i) && Entered(defs, p, i); }
  }

  /** Below the choice, while it has its flag, only what it depends on itself is searched. */
  lemma OwnStep(defs: seq<SymbolDef>, s: State, p: Plan, c: nat, i: nat)
    requires Entered(defs, p, c) && QuietFor(s, p, c) && s.stack != [] && Next(defs, s.stack, s.check, i)
    requires c in s.check && c in s.stack && i != s.stack[|s.stack| - 1]
    ensures i in p.own(c)
  {
    StepLinks(defs, s, i);
    hide Links, Mentions, Inner;
    var a :| 0 <= a < |s.stack| && s.stack[a] == c;
  }

  /** Before the choice is entered only early symbols are. */
  lemma EarlyStep(defs: seq<SymbolDef>, s: State, p: Plan, c: nat, i: nat)
    requires Closed(defs) && Entered(defs, p, c) && QuietFor(s, p, c) && (s.stack == [] ==> RootedFor(defs, s, p, c, i))
    requires s.stack != [] ==> Links(defs, s.stack[|s.stack| - 1], i)
    requires i < |defs| && !defs[i].role.Member?
    ensures c in s.checked || i == c || i in p.early(c)
  {
    hide Links, Mentions, Edges;
    assert WellFormedChoice(defs, c);
    if s.stack != [] { assert s.stack[|s.stack| - 1] in s.stack; }
  }

  lemma EnterQuiet(defs: seq<SymbolDef>, s: State, i: nat)
    requires Closed(defs) && Flagged(defs, s) && s.plan.Some? && Excused(defs, s.plan.value) && Quiet(s, s.plan.value)
    requires s.stack != [] ==> Next(defs, s.stack, s.check, i)
    requires i !in s.checked && Rooted(defs, s, i) && i < |defs| && !defs[i].role.Member?
    ensures Quiet(Enter(s, i, Group(defs, i)), s.plan.value)
  {
    hide Edges, Passable;
    var p := s.plan.value;
    Unflagged(defs, s, i);
    if s.stack != [] {
      assert s.stack[|s.stack| - 1] in s.stack;
      StepLinks(defs, s, i);
      EnteredFalls(defs, s, p, s.stack[|s.stack| - 1], i);
    }
    hide Links, Mentions, Inner, Next;
    forall c | c in p.choices ensures QuietFor(Enter(s, i, Group(defs, i)), p, c) {
      assert Entered(defs, p, c) && QuietFor(s, p, c);
      NotGrouped(defs, i, c);
      FlaggedChoice(defs, s, c);
      if s.stack != [] && c in s.check { OwnStep(defs, s, p, c, i); }
      EarlyStep(defs, s, p, c, i);
      EnteredQuiet(s, p, c, i, Group(defs, i));
    }
  }

  /** A choice that has its flag is on the path itself. */
  lemma FlaggedChoice(defs: seq<SymbolDef>, s: State, c: nat)
    requires Flagged(defs, s) && c < |defs| && defs[c].role.Choice?
    ensures c in s.check ==> c in s.stack
  {
  }

  lemma EnteredQuiet(s: State, p: Plan, c: nat, i: nat, group: seq<nat>)
    requires QuietFor(s, p, c) && i !in s.stack && c !in group
    requires c in s.checked || i == c || i in p.early(c)
    requires s.stack != [] && c in s.check ==> i in p.own(c)
    requires c in s.check ==> c in s.stack
    ensures QuietFor(Enter(s, i, group), p, c)
  {
  }

  lemma PathRank(s: State, p: Plan, i: nat)
    requires Quiet(s, p) && i in s.stack
    ensures p.rank(s.stack[|s.stack| - 1]) <= p.rank(i)
    ensures i in p.choices && i in s.check && i != s.stack[|s.stack| - 1] ==> s.stack[|s.stack| - 1] in p.own(i)
  {
    var a :| 0 <= a < |s.stack| && s.stack[a] == i;
    if i in p.choices { assert QuietFor(s, p, i); }
  }

  /** What a plan says about one link: it falls, or it leads back to a choice from outside what that
      choice depends on; no symbol links to itself, and a member ranks above its choice. */
  lemma PlanLinks(defs: seq<SymbolDef>, p: Plan, i: nat, j: nat)
    requires Excused(defs, p) && i < |defs| && Links(defs, i, j)
    ensures i != j
    ensures j !in p.choices ==> p.rank(j) < p.rank(i)
    ensures j in p.choices ==> i !in p.own(j)
    ensures j < |defs| && defs[j].role.Choice? && i in defs[j].role.members ==> p.rank(j) < p.rank(i)
  {
    hide Links, Mentions;
    if j in p.choices { assert Entered(defs, p, j); }
  }

  /** Nothing on the path that has its flag is met again. */
  lemma NotMet(defs: seq<SymbolDef>, s: State, p: Plan, i: nat)
    requires Excused(defs, p) && Quiet(s, p) && s.stack != [] && Next(defs, s.stack, s.check, i)
    requires s.stack[|s.stack| - 1] < |defs|
    ensures i in s.check ==> i !in s.stack
  {
    hide Excused, Quiet, Inner, Mentions, Passable;
    if i in s.check && i in s.stack {
      MetLinks(defs, s, i);
      PathRank(s, p, i);
      PlanLinks(defs, p, s.stack[|s.stack| - 1], i);
    }
  }

  lemma MetLinks(defs: seq<SymbolDef>, s: State, i: nat)
    requires s.stack != [] && Next(defs, s.stack, s.check, i) && i in s.check
    ensures Links(defs, s.stack[|s.stack| - 1], i)
  {
  }

  /** Nor is a member of a choice on the path. */
  lemma MemberNotMet(defs: seq<SymbolDef>, s: State, p: Plan, i: nat)
    requires Closed(defs) && Excused(defs, p) && Quiet(s, p) && s.stack != [] && s.stack[|s.stack| - 1] < |defs|
    requires Next(defs, s.stack, s.check, i) && i in s.check && i < |defs| && defs[i].role.Member?
    ensures defs[i].role.choice !in s.stack
  {
    hide Excused, Quiet, Inner, Mentions, Passable, Next, Edges;
    var g, top := defs[i].role.choice, s.stack[|s.stack| - 1];
    MetLinks(defs, s, i);
    MemberBetween(defs, p, top, i, g);
    if g in s.stack { PathRank(s, p, g); }
  }

  lemma MemberBetween(defs: seq<SymbolDef>, p: Plan, top: nat, i: nat, g: nat)
    requires Closed(defs) && Excused(defs, p) && top < |defs| && Links(defs, top, i)
    requires i < |defs| && defs[i].role == Member(g)
    ensures p.rank(g) < p.rank(i) < p.rank(top)
  {
    hide Inner, Mentions, Passable, Edges;
    assert Links(defs, i, g) && i in defs[g].role.members;
    assert i in p.choices ==> Entered(defs, p, i);
    PlanLinks(defs, p, top, i);
    PlanLinks(defs, p, i, g);
  }

  lemma NoBackEdge(defs: seq<SymbolDef>, s: State, i: nat)
    requires Sound(defs, s) && i in s.check && Follows(defs, s.stack, s.check, [i])
    ensures s.plan.None?
  {
    hide Edges, IsPath, Cyclic, Detour, Ordered, Excused, Quiet, Next;
    assert i in [i] && i < |defs|;
    if s.plan.Some? {
      assert s.stack[|s.stack| - 1] in s.stack;
      NotMet(defs, s, s.plan.value, i);
      if defs[i].role.Member? { MemberNotMet(defs, s, s.plan.value, i); }
    }
  }

  lemma EnterPath(defs: seq<SymbolDef>, s: State, i: nat)
    requires Sound(defs, s) && Next(defs, s.stack, s.check, i) && i !in s.checked && i < |defs|
    ensures IsPath(defs, s.stack + [i])
    ensures Open(defs, s.stack + [i], s.check + {i} + Elements(Group(defs, i)))
  {
    hide Links, Inner, Ordered, Cyclic, Detour, Closed, Elements, IsPath, Flagged, Excused, Quiet, Mentions;
    PathIsChecked(defs, s);
    if s.stack != [] {
      assert s.stack[|s.stack| - 1] in s.stack;
      NextLinks(defs, s, i);
    }
    PathAppend(defs, s.stack, i);
  }

  lemma TopologicalAppend(defs: seq<SymbolDef>, done: seq<nat>, i: nat, group: seq<nat>)
    requires Topological(defs, done) && forall j :: Links(defs, i, j) ==> j in done
    requires forall k, j :: k in group && Links(defs, k, j) ==> j in done || j == i
    ensures Topological(defs, done + [i] + group)
  {
    hide Links;
    var d := done + [i] + group;
    forall k, j | 0 <= k < |d| && Links(defs, d[k], j) ensures j in d[..k] {
      if k < |done| {
        assert d[..k] == done[..k];
      } else if k == |done| {
        assert d[..k] == done;
      } else {
        assert d[k] in group;
        assert d[..k] == done + [i] + group[..k - |done| - 1];
      }
    }
  }

  lemma HardTopologicalAppend(defs: seq<SymbolDef>, done: seq<nat>, i: nat, group: seq<nat>)
    requires HardTopological(defs, done) && forall j :: HardLinks(defs, i, j) ==> j in done
    requires forall k, j :: k in group && HardLinks(defs, k, j) ==> j in done || j == i
    ensures HardTopological(defs, done + [i] + group)
  {
    hide HardLinks;
    var d := done + [i] + group;
    forall k, j | 0 <= k < |d| && HardLinks(defs, d[k], j) ensures j in d[..k] {
      if k < |done| {
        assert d[..k] == done[..k];
      } else if k == |done| {
        assert d[..k] == done;
      } else {
        assert d[k] in group;
        assert d[..k] == done + [i] + group[..k - |done| - 1];
      }
    }
  }

  /** Leaving a symbol or a choice whose links are all accounted for. */
  lemma LeaveSearched(defs: seq<SymbolDef>, strict: bool, s: State, s1: State, i: nat, r: Option<nat>)
    requires Sound(defs, s) && i !in s.checked && i < |defs| && !defs[i].role.Member?
    requires Sound(defs, s1) && s1.stack == s.stack + [i] && s1.check - {i} - Elements(Group(defs, i)) == s.check
    requires Enter(s, i, Group(defs, i)).checked <= s1.checked
    requires (s.found ==> s1.found) && (s.missed ==> s1.missed) && s1.plan == s.plan &&
      forall j :: j in s.done ==> j in s1.done
    requires (r.Some? ==> s1.found) && (strict && s1.found && !s.found ==> r.Some?) &&
      (!strict && r.Some? ==> r.value in s.check)
    requires !s1.found && !s1.missed ==>
      && (forall j :: Links(defs, i, j) ==> j in s1.done)
      && (forall k, j :: k in Group(defs, i) && Links(defs, k, j) ==> j in s1.done || j == i)
    requires !s1.found ==>
      && (forall j :: HardLinks(defs, i, j) ==> j in s1.done)
      && (forall k, j :: k in Group(defs, i) && HardLinks(defs, k, j) ==> j in s1.done || j == i)
    ensures Searched(defs, strict, s, Leave(s1, i, Group(defs, i)), r, [i])
  {
    hide Links, HardLinks, IsPath, Cyclic, Detour, Closed, Open;
    var t := Leave(s1, i, Group(defs, i));
    assert s1.stack[..|s1.stack| - 1] == s.stack;
    LeaveFlagged(defs, s, s1, i);
    hide Excused;
    if !s1.found {
      if !s1.missed { TopologicalAppend(defs, s1.done, i, Group(defs, i)); }
      HardTopologicalAppend(defs, s1.done, i, Group(defs, i));
      LeaveOrdered(defs, s, s1, i);
    }
  }

  lemma LeaveFlagged(defs: seq<SymbolDef>, s: State, s1: State, i: nat)
    requires Flagged(defs, s) && Flagged(defs, s1) && s.checked <= s1.checked && s1.stack == s.stack + [i]
    requires i < |defs| && s1.check - {i} - Elements(Group(defs, i)) == s.check
    ensures Flagged(defs, Leave(s1, i, Group(defs, i)))
  {
    assert s1.stack[..|s1.stack| - 1] == s.stack;
  }

  lemma LeaveOrdered(defs: seq<SymbolDef>, s: State, s1: State, i: nat)
    requires Closed(defs) && Flagged(defs, s) && i !in s.checked && i < |defs| && !defs[i].role.Member?
    requires Ordered(defs, s1) && s1.stack == s.stack + [i] && !s1.found
    requires !s1.missed ==> Topological(defs, s1.done + [i] + Group(defs, i))
    requires HardTopological(defs, s1.done + [i] + Group(defs, i))
    ensures Ordered(defs, Leave(s1, i, Group(defs, i)))
  {
    hide Links, HardLinks, Topological, HardTopological, Edges;
    assert s1.stack[..|s1.stack| - 1] == s.stack;
    EnterFlagged(defs, s, i);
    Unflagged(defs, s, i);
    PathChecked(defs, s);
  }

  lemma PathChecked(defs: seq<SymbolDef>, s: State)
    requires Flagged(defs, s)
    ensures forall j :: OnPath(defs, s.stack, j) ==> j in s.checked
  {
  }

  /** With a member its choice has been left behind. */
  lemma ChoiceDone(defs: seq<SymbolDef>, s: State, m: nat, c: nat)
    requires Closed(defs) && Flagged(defs, s) && Ordered(defs, s)
    requires m in s.done && m < |defs| && defs[m].role == Member(c)
    ensures c in s.done
  {
    hide Edges, Topological;
  }

  /** A symbol whose mentions are settled has all its links left behind. */
  lemma MentionsDone(defs: seq<SymbolDef>, s: State, i: nat, top: nat)
    requires Closed(defs) && Flagged(defs, s) && Ordered(defs, s) && top < |defs| && !defs[top].role.Member?
    requires forall j :: j in Edges(defs, i) ==> j in s.done || j == top
    ensures forall j :: Mentions(defs, i, j) ==> j in s.done || j == top
  {
    hide Edges, Topological;
    forall j | Mentions(defs, i, j) ensures j in s.done || j == top {
      if j !in Edges(defs, i) {
        var m :| m in Edges(defs, i) && m < |defs| && defs[m].role == Member(j);
        ChoiceDone(defs, s, m, j);
      }
    }
  }

  /** The links of a symbol that is no choice, when all it mentions is settled. */
  lemma OrdinaryLinks(defs: seq<SymbolDef>, s: State, i: nat)
    requires Closed(defs) && Flagged(defs, s) && Ordered(defs, s) && i < |defs| && defs[i].role.Ordinary?
    requires s.stack != [] && s.stack[|s.stack| - 1] == i && i in s.check
    requires forall j :: j in Edges(defs, i) ==> Settled(s.stack, s.check, s.done, s.missed, j)
    requires Open(defs, s.stack, s.check)
    ensures !s.missed ==> forall j :: Links(defs, i, j) ==> j in s.done
    ensures forall j :: HardLinks(defs, i, j) ==> j in s.done
  {
    hide Edges, Topological, HardTopological;
    forall j: nat | Mentions(defs, i, j) && !(j < |defs| && defs[j].role.Choice?) ensures j in s.done {
      HardMention(defs, s, i, j);
    }
    if s.missed { return; }
    forall j | Mentions(defs, i, j) ensures j in s.done {
      if j !in Edges(defs, i) {
        var m :| m in Edges(defs, i) && m < |defs| && defs[m].role == Member(j);
        ChoiceDone(defs, s, m, j);
      }
    }
  }

  /** A mention of something that is no choice is left behind. */
  lemma HardMention(defs: seq<SymbolDef>, s: State, i: nat, j: nat)
    requires Closed(defs) && Open(defs, s.stack, s.check) && i < |defs|
    requires Mentions(defs, i, j) && !(j < |defs| && defs[j].role.Choice?)
    requires forall j :: j in Edges(defs, i) ==> Settled(s.stack, s.check, s.done, s.missed, j)
    ensures j in s.done
  {
    hide Edges, Inner;
    assert forall m :: 0 <= m < |defs| && defs[m].role == Member(j) ==> j < |defs| && defs[j].role.Choice?;
  }

  /** The symbols mentioned by the members of a choice, one member after the other. */
  function InnerIds(defs: seq<SymbolDef>, ms: seq<nat>): seq<nat> {
    if ms == [] then [] else Edges(defs, ms[0]) + InnerIds(defs, ms[1..])
  }

  lemma {:induction false} InnerIdsIn(defs: seq<SymbolDef>, ms: seq<nat>, k: nat, j: nat)
    requires k in ms && j in Edges(defs, k)
    ensures j in InnerIds(defs, ms)
  {
    hide Edges;
    if k != ms[0] { InnerIdsIn(defs, ms[1..], k, j); }
  }

  lemma OwnLinksDone(defs: seq<SymbolDef>, s1: State, s: State, c: nat)
    requires Closed(defs) && Flagged(defs, s) && Ordered(defs, s) && c < |defs|
    requires s.stack != [] && s.stack[|s.stack| - 1] == c && s1.stack == s.stack && c in s1.check && !s1.missed
    requires forall j :: j in s1.done ==> j in s.done
    requires forall j :: j in Edges(defs, c) ==> Settled(s1.stack, s1.check, s1.done, s1.missed, j)
    ensures forall j :: Mentions(defs, c, j) ==> j in s.done
  {
    hide Edges, Topological, HardTopological, OnPath;
    forall j | Mentions(defs, c, j) ensures j in s.done {
      if j !in Edges(defs, c) {
        var m :| m in Edges(defs, c) && m < |defs| && defs[m].role == Member(j);
        ChoiceDone(defs, s, m, j);
      }
    }
  }

  lemma MemberLinksDone(defs: seq<SymbolDef>, s: State, c: nat, k: nat)
    requires Closed(defs) && Flagged(defs, s) && Ordered(defs, s) && c < |defs| && defs[c].role.Choice?
    requires s.stack != [] && s.stack[|s.stack| - 1] == c && !s.missed && k in defs[c].role.members
    requires forall j :: j in InnerIds(defs, defs[c].role.members) ==> Settled(s.stack, s.check, s.done, s.missed, j)
    ensures forall j :: Mentions(defs, k, j) ==> j in s.done || j == c
  {
    hide Edges, Closed, Flagged, Ordered, Mentions, InnerIds;
    forall j | j in Edges(defs, k) ensures j in s.done || j == c { InnerIdsIn(defs, defs[c].role.members, k, j); }
    MentionsDone(defs, s, k, c);
  }

  /** The links of a choice and of its members, after both parts of the search. */
  lemma ChoiceLinks(defs: seq<SymbolDef>, s1: State, s: State, c: nat)
    requires Closed(defs) && Flagged(defs, s) && Ordered(defs, s) && c < |defs| && defs[c].role.Choice?
    requires s.stack != [] && s.stack[|s.stack| - 1] == c && s1.stack == s.stack && c in s1.check &&
      s.check == s1.check - {c}
    requires forall j :: j in s1.done ==> j in s.done
    requires (s1.missed ==> s.missed) && Open(defs, s.stack, s.check)
    requires forall j :: j in Edges(defs, c) ==> Settled(s1.stack, s1.check, s1.done, s1.missed, j)
    requires forall j :: j in InnerIds(defs, defs[c].role.members) ==> Settled(s.stack, s.check, s.done, s.missed, j)
    ensures !s.missed ==> forall j :: Links(defs, c, j) ==> j in s.done
    ensures !s.missed ==> forall k, j :: k in defs[c].role.members && Links(defs, k, j) ==> j in s.done || j == c
    ensures forall j :: HardLinks(defs, c, j) ==> j in s.done
    ensures forall k, j :: k in defs[c].role.members && HardLinks(defs, k, j) ==> j in s.done || j == c
  {
    HardChoiceLinks(defs, s1, s, c);
    if s.missed { return; }
    hide Edges, Topological, HardTopological, HardLinks, InnerIds, OnPath, Open, Flagged, Ordered;
    assert WellFormedChoice(defs, c);
    OwnLinksDone(defs, s1, s, c);
    forall k | k in defs[c].role.members ensures forall j :: Mentions(defs, k, j) ==> j in s.done || j == c {
      MemberLinksDone(defs, s, c, k);
    }
  }

  lemma HardChoiceLinks(defs: seq<SymbolDef>, s1: State, s: State, c: nat)
    requires Closed(defs) && c < |defs| && defs[c].role.Choice? && Open(defs, s.stack, s.check)
    requires s.stack != [] && s.stack[|s.stack| - 1] == c && s1.stack == s.stack && c in s1.check &&
      s.check == s1.check - {c}
    requires (forall j :: j in s1.done ==> j in s.done) && (s1.missed ==> s.missed)
    requires forall j :: j in Edges(defs, c) ==> Settled(s1.stack, s1.check, s1.done, s1.missed, j)
    requires forall j :: j in InnerIds(defs, defs[c].role.members) ==> Settled(s.stack, s.check, s.done, s.missed, j)
    ensures forall j :: HardLinks(defs, c, j) ==> j in s.done
    ensures forall k, j :: k in defs[c].role.members && HardLinks(defs, k, j) ==> j in s.done || j == c
  {
    hide Edges, InnerIds;
    assert WellFormedChoice(defs, c);
    forall j: nat | Mentions(defs, c, j) && !(j < |defs| && defs[j].role.Choice?)
      ensures j in s.done
    {
      HardMention(defs, s, c, j);
    }
    forall k: nat, j: nat | k in defs[c].role.members && Mentions(defs, k, j) && !(j < |defs| && defs[j].role.Choice?)
      ensures j in s.done
    {
      forall x | x in Edges(defs, k) ensures Settled(s.stack, s.check, s.done, s.missed, x) {
        InnerIdsIn(defs, defs[c].role.members, k, x);
      }
      HardMention(defs, s, k, j);
    }
  }

  /** Between the two parts the choice loses its own flag. */
  lemma OpenChoice(defs: seq<SymbolDef>, s: State, c: nat)
    requires Sound(defs, s) && s.stack != [] && s.stack[|s.stack| - 1] == c && c < |defs| && defs[c].role.Choice?
    requires forall p :: 0 <= p < |s.stack| - 1 ==> s.stack[p] != c
    ensures Sound(defs, s.(check := s.check - {c}))
    ensures forall k :: k in defs[c].role.members ==> Follows(defs, s.stack, s.check - {c}, Edges(defs, k))
  {
    hide Edges, IsPath, Cyclic, Detour, Topological;
    assert WellFormedChoice(defs, c);
    forall k, j | k in defs[c].role.members && j in Edges(defs, k)
      ensures j < |defs| && Next(defs, s.stack, s.check - {c}, j)
      ensures defs[j].role.Member? ==> Next(defs, s.stack, s.check - {c}, defs[j].role.choice)
    {
      assert Mentions(defs, k, j) && (defs[j].role.Member? ==> Mentions(defs, k, defs[j].role.choice));
    }
  }

  // ----- meeting a symbol that has been entered before -----

  /** Following an edge back onto the search path closes a cycle. */
  lemma {:induction false} CloseCycle(defs: seq<SymbolDef>, p: seq<nat>, i: nat)
    requires IsPath(defs, p) && i in p && Links(defs, p[|p| - 1], i)
    ensures Cyclic(defs)
  {
    hide Links;
    if p[0] == i {
      PathAppend(defs, p, i);
      ClosedPath(defs, p + [i]);
    } else {
      assert |p| >= 2 && p[1..][|p[1..]| - 1] == p[|p| - 1];
      CloseCycle(defs, p[1..], i);
    }
  }

  lemma BackAndForth(defs: seq<SymbolDef>, c: nat, i: nat)
    requires Links(defs, c, i) && Links(defs, i, c)
    ensures Cyclic(defs)
  {
    hide Links;
    var p := [c, i, c];
    assert p[1..] == [i, c];
    ClosedPath(defs, p);
  }

  lemma BackEdgeCyclic(defs: seq<SymbolDef>, s: State, i: nat)
    requires Sound(defs, s) && i in s.check && Follows(defs, s.stack, s.check, [i])
    ensures Cyclic(defs)
  {
    hide Edges, IsPath, Cyclic, Detour, Ordered, Mentions;
    assert i in [i];
    var top := s.stack[|s.stack| - 1];
    if i in s.stack {
      CloseCycle(defs, s.stack, i);
    } else {
      var c := defs[i].role.choice;
      if c == top && top !in s.check {
        assert Links(defs, c, i) && Links(defs, i, c);
        BackAndForth(defs, c, i);
      } else {
        CloseCycle(defs, s.stack, c);
      }
    }
  }

  lemma BackEdge(defs: seq<SymbolDef>, strict: bool, s: State, i: nat)
    requires Sound(defs, s) && i in s.check && Follows(defs, s.stack, s.check, [i])
    ensures Searched(defs, strict, s, s.(found := true), Some(i), [i])
  {
    BackEdgeCyclic(defs, s, i);
    NoBackEdge(defs, s, i);
    hide Cyclic, IsPath, Closed, Detour, Next, Excused;
  }

  /** An open choice that is met again, from deeper down than its members. */
  lemma PassedOver(defs: seq<SymbolDef>, s: State, i: nat)
    requires Sound(defs, s) && i in s.stack && i !in s.check && Follows(defs, s.stack, s.check, [i])
    requires i != s.stack[|s.stack| - 1]
    ensures exists p: seq<nat> :: DetourPath(defs, i, p)
  {
    hide Edges, Links, Ordered, Cyclic, Closed, Excused, Quiet, Flagged, IsPath, Mentions;
    assert i in [i];
    NextLinks(defs, s, i);
    var p :| 0 <= p < |s.stack| && s.stack[p] == i;
    var q := s.stack[p + 1..];
    PathSuffix(defs, s.stack, p + 1);
    PathAppend(defs, q, i);
    var r := q + [i];
    assert DetourPath(defs, i, r);
  }

  lemma {:induction false} PathSuffix(defs: seq<SymbolDef>, p: seq<nat>, k: nat)
    requires IsPath(defs, p) && k < |p|
    ensures IsPath(defs, p[k..])
  {
    hide Links;
    if k > 0 { PathSuffix(defs, p[1..], k - 1); }
  }

  lemma AlreadyChecked(defs: seq<SymbolDef>, strict: bool, s: State, i: nat)
    requires Sound(defs, s) && i in s.checked && i !in s.check && Follows(defs, s.stack, s.check, [i])
    ensures var passed := i in s.stack && i != s.stack[|s.stack| - 1];
      Searched(defs, strict, s, s.(missed := s.missed || passed), None, [i])
  {
    hide Sound, Next;
    if i in s.stack && i != s.stack[|s.stack| - 1] {
      PassedOver(defs, s, i);
      MissedSound(defs, s);
    } else {
      assert s.(missed := s.missed || false) == s;
    }
    DoneOrOpen(defs, s, i);
  }

  lemma MissedSound(defs: seq<SymbolDef>, s: State)
    requires Sound(defs, s) && Detour(defs)
    ensures Sound(defs, s.(missed := true))
  {
    hide IsPath, Closed, Flagged, Open, Detour, Cyclic, Topological, HardTopological, OnPath, Excused;
    assert Flagged(defs, s.(missed := true)) by { FlaggedOnly(defs, s, s.(missed := true)); }
  }

  lemma FlaggedOnly(defs: seq<SymbolDef>, s: State, t: State)
    requires Flagged(defs, s) && t.check == s.check && t.checked == s.checked && t.stack == s.stack
    ensures Flagged(defs, t)
  {
  }

  lemma DoneOrOpen(defs: seq<SymbolDef>, s: State, i: nat)
    requires Sound(defs, s) && i in s.checked && i !in s.check
    ensures !s.found ==>
      Settled(s.stack, s.check, s.done, s.missed || (i in s.stack && i != s.stack[|s.stack| - 1]), i)
  {
    hide IsPath, Closed, Open, Detour, Cyclic, Topological;
  }

  /** Asking for a member is asking for its choice. */
  lemma MemberSearched(defs: seq<SymbolDef>, strict: bool, s: State, s1: State, m: nat, r: Option<nat>)
    requires Sound(defs, s) && m !in s.checked && m < |defs| && defs[m].role.Member?
    requires Searched(defs, strict, s, s1, r, [defs[m].role.choice])
    ensures Searched(defs, strict, s, s1, r, [m])
    ensures !strict ==> r != Some(m)
  {
    hide IsPath, Cyclic, Detour, Topological, Edges;
    var c := defs[m].role.choice;
    assert c in [c];
    PathChecked(defs, s);
  }

  ghost function Position(order: seq<nat>, i: nat): nat {
    if order == [] || order[0] == i then 0 else 1 + Position(order[1..], i)
  }

  lemma {:induction false} PositionIn(order: seq<nat>, i: nat, k: nat)
    requires k <= |order|
    ensures i in order[..k] <==> Position(order, i) < k
  {
    if order != [] && k > 0 {
      assert order[..k] == [order[0]] + order[1..][..k - 1];
      PositionIn(order[1..], i, k - 1);
    }
  }

  lemma {:induction false} AtPosition(order: seq<nat>, i: nat)
    requires i in order
    ensures Position(order, i) < |order| && order[Position(order, i)] == i
  {
    if order[0] != i { AtPosition(order[1..], i); }
  }

  lemma TopologicalRanked(defs: seq<SymbolDef>, done: seq<nat>)
    requires Topological(defs, done) && forall i :: 0 <= i < |defs| ==> i in done
    ensures Ranked(defs, (i: nat) => Position(done, i))
  {
    hide Links;
    forall i, j | 0 <= i < |defs| && Links(defs, i, j) ensures Position(done, j) < Position(done, i) {
      AtPosition(done, i);
      PositionIn(done, j, Position(done, i));
    }
  }

  lemma StartSound(defs: seq<SymbolDef>)
    requires Closed(defs)
    ensures Sound(defs, State({}, {}, [], [], false, false, None))
    ensures forall p :: Excused(defs, p) ==> Sound(defs, State({}, {}, [], [], false, false, Some(p)))
  {
  }

  /** Every choice of the plan that comes before place i has been entered. */
  ghost predicate Reached(s: State, i: nat) {
    s.plan.Some? ==> forall c :: c in s.plan.value.choices && s.plan.value.first(c) < i ==> c in s.checked
  }

  /** The loop starts a search at i only when it may. */
  lemma RootedAt(defs: seq<SymbolDef>, s: State, i: nat)
    requires Sound(defs, s) && i < |defs| && Reached(s, i)
    ensures Rooted(defs, s, i)
  {
    hide IsPath, Flagged, Open, Cyclic, Detour, Ordered, Edges, Links, Quiet, Mentions;
    if s.plan.Some? {
      var p := s.plan.value;
      forall c | c in p.choices ensures RootedFor(defs, s, p, c, i) {
        assert Entered(defs, p, c) && WellFormedChoice(defs, c);
      }
    }
  }

  lemma ReachedNext(defs: seq<SymbolDef>, s: State, s1: State, i: nat)
    requires Reached(s, i) && s.checked <= s1.checked && s1.plan == s.plan
    requires Sound(defs, s1) && i < |defs| && s1.stack == [] && (!s1.found ==> i in s1.done)
    ensures Reached(s1, i + 1)
  {
    hide IsPath, Open, Cyclic, Detour, Topological, HardTopological, Edges, Links, Mentions;
    if s1.plan.Some? {
      var p := s1.plan.value;
      forall c | c in p.choices && p.first(c) == i ensures c in s1.checked {
        assert Entered(defs, p, c) && WellFormedChoice(defs, c);
      }
    }
  }

  lemma QuietCounts(defs: seq<SymbolDef>, s: State)
    requires Sound(defs, s)
    ensures s.found ==> s.plan.None?
  {
    hide IsPath, Open, Cyclic, Detour, Ordered, Edges, Links, Flagged;
  }

  lemma FollowsChoice(defs: seq<SymbolDef>, s: State, m: nat)
    requires Sound(defs, s) && Follows(defs, s.stack, s.check, [m]) && m < |defs| && defs[m].role.Member?
    ensures defs[m].role.choice < |defs| && defs[defs[m].role.choice].role.Choice?
    ensures Follows(defs, s.stack, s.check, [defs[m].role.choice])
    ensures Rooted(defs, s, m) && m !in s.checked ==> Rooted(defs, s, defs[m].role.choice)
  {
    hide Edges, Next;
    assert m in [m];
  }

  lemma OrdinaryLeft(defs: seq<SymbolDef>, strict: bool, s: State, s1: State, i: nat, r: Option<nat>)
    requires Sound(defs, s) && i !in s.checked && i < |defs| && defs[i].role.Ordinary?
    requires Searched(defs, strict, Enter(s, i, []), s1, r, Edges(defs, i))
    ensures Searched(defs, strict, s, Leave(s1, i, []), if !strict && r == Some(i) then None else r, [i])
    ensures s1.stack != []
  {
    hide Edges, Links, IsPath, Cyclic, Detour, Topological, Next;
    Unflagged(defs, s, i);
    if !s1.found { OrdinaryLinks(defs, s1, i); }
    LeaveSearched(defs, strict, s, s1, i, if !strict && r == Some(i) then None else r);
  }

  lemma OpenedChoice(defs: seq<SymbolDef>, s: State, s1: State, c: nat)
    requires Sound(defs, s) && c !in s.checked && c < |defs| && defs[c].role.Choice?
    requires Sound(defs, s1) && s1.stack == s.stack + [c]
    ensures Sound(defs, s1.(check := s1.check - {c}))
    ensures forall k :: k in defs[c].role.members ==>
      k < |defs| && Follows(defs, s1.stack, s1.check - {c}, Edges(defs, k))
  {
    hide Edges, Links, IsPath, Cyclic, Detour, Topological, Next, Follows;
    Unflagged(defs, s, c);
    OpenChoice(defs, s1, c);
  }

  lemma ChoiceEntered(defs: seq<SymbolDef>, s: State, c: nat)
    requires Sound(defs, s) && Follows(defs, s.stack, s.check, [c]) && c !in s.checked && Rooted(defs, s, c)
    requires c < |defs| && defs[c].role.Choice?
    ensures var ms := defs[c].role.members;
      && Enter(s, c, ms).stack == s.stack + [c]
      && c in Enter(s, c, ms).checked && s.checked <= Enter(s, c, ms).checked
      && Sound(defs, Enter(s, c, ms)) && Follows(defs, Enter(s, c, ms).stack, Enter(s, c, ms).check, Edges(defs, c))
  {
    hide Sound, Follows, Edges;
    EnterSound(defs, s, c);
  }

  lemma Shrinks(n: nat, a: set<nat>, b: set<nat>, c: nat)
    requires c < n && c !in a && c in b && a <= b
    ensures AllIds(n) - b < AllIds(n) - a
  {
    assert c in AllIds(n);
  }

  /** The report that leaves a choice: a member stands for its choice. */
  function Report(members: seq<nat>, c: nat, r: Option<nat>): Option<nat> {
    if r.Some? && r.value in members then Some(c) else r
  }

  /** The two parts of the search through a choice, put together. */
  lemma ChoiceLeft(defs: seq<SymbolDef>, strict: bool, s: State, s1: State, s3: State, c: nat, own: Option<nat>,
      r: Option<nat>)
    requires Sound(defs, s) && c !in s.checked && c < |defs| && defs[c].role.Choice?
    requires Searched(defs, strict, Enter(s, c, defs[c].role.members), s1, own, Edges(defs, c))
    requires if own.Some? then s3 == s1.(check := s1.check - {c}) && r == own
             else Searched(defs, strict, s1.(check := s1.check - {c}), s3, r, InnerIds(defs, defs[c].role.members))
    ensures var r' := Report(defs[c].role.members, c, r);
      Searched(defs, strict, s, Leave(s3, c, defs[c].role.members), if !strict && r' == Some(c) then None else r', [c])
    ensures s3.stack != [] && s3.check == s1.check - {c}
    ensures s3.check - Elements(defs[c].role.members) == s3.check - {c} - Elements(defs[c].role.members)
  {
    hide Edges, Links, HardLinks, IsPath, Cyclic, Detour, Topological, HardTopological, Next, InnerIds, OnPath;
    Unflagged(defs, s, c);
    OpenedChoice(defs, s, s1, c);
    if !s3.found { ChoiceLinks(defs, s1, s3, c); }
    var r' := Report(defs[c].role.members, c, r);
    LeaveSearched(defs, strict, s, s3, c, if !strict && r' == Some(c) then None else r');
  }

  lemma HardRanked(defs: seq<SymbolDef>, done: seq<nat>)
    requires HardTopological(defs, done) && forall i :: 0 <= i < |defs| ==> i in done
    ensures forall i, j :: 0 <= i < |defs| && HardLinks(defs, i, j) ==> Position(done, j) < Position(done, i)
  {
    hide HardLinks;
    forall i, j | 0 <= i < |defs| && HardLinks(defs, i, j) ensures Position(done, j) < Position(done, i) {
      AtPosition(done, i);
      PositionIn(done, j, Position(done, i));
    }
  }

  lemma HardTopologicalAcyclic(defs: seq<SymbolDef>, done: seq<nat>)
    requires Closed(defs) && HardTopological(defs, done) && forall i :: 0 <= i < |defs| ==> i in done
    ensures !HardCyclic(defs)
  {
    hide Mentions, Inner, Position, Closed;
    HardRanked(defs, done);
    if HardCyclic(defs) {
      var p: seq<nat> :| |p| >= 2 && IsHardPath(defs, p) && p[0] == p[|p| - 1];
      StartsInside(defs, p[0], p[1]);
      HardRankFalls(defs, (i: nat) => Position(done, i), p);
    }
  }

  lemma StartsInside(defs: seq<SymbolDef>, i: nat, j: nat)
    requires Links(defs, i, j)
    ensures i < |defs|
  {
  }

  ghost function AllIds(n: nat): (s: set<nat>)
    ensures forall i: nat :: i in s <==> i < n
  {
    if n == 0 then {} else AllIds(n - 1) + {n - 1}
  }

  class Checker {
    const defs: seq<SymbolDef>
    const recursiveIsError: bool
    var check: set<nat>      // SYMBOL_CHECK: on the current search path
    var checked: set<nat>    // SYMBOL_CHECKED: entered at some time
    ghost var stack: seq<nat>
    ghost var done: seq<nat>
    ghost var found: bool
    ghost var missed: bool
    ghost var plan: Option<Plan>

    ghost function Now(): State
      reads this
    {
      State(check, checked, stack, done, found, missed, plan)
    }

    constructor (defs: seq<SymbolDef>, recursiveIsError: bool)
      requires Closed(defs)
      ensures this.defs == defs && this.recursiveIsError == recursiveIsError
      ensures Now() == State({}, {}, [], [], false, false, None)
    {
      this.defs, this.recursiveIsError := defs, recursiveIsError;
      check, checked, stack, done, found, missed, plan := {}, {}, [], [], false, false, None;
    }

    /** sym_check_expr_deps. */
    method CheckExprDeps(e: Expr) returns (r: Option<nat>)
      requires stack != [] && Sound(defs, Now()) && Follows(defs, stack, check, Ids(e))
      modifies this
      ensures Searched(defs, recursiveIsError, old(Now()), Now(), r, Ids(e))
      decreases AllIds(|defs|) - checked, 2, e
    {
      hide Sound, Searched, Follows;
      ghost var s0 := Now();
      match e
      case Not(a) =>
        r := CheckExprDeps(a);
      case Bin(_, left, right) =>
        FollowsParts(defs, stack, check, Ids(left), Ids(right));
        r := CheckExprDeps(left);
        ghost var s1 := Now();
        SearchKeeps(defs, recursiveIsError, s0, s1, r, Ids(left));
        if r.Some? {
          SearchStopped(defs, recursiveIsError, s0, s1, r, Ids(left), Ids(e));
          return;
        }
        r := CheckExprDeps(right);
        SearchBoth(defs, recursiveIsError, s0, s1, Now(), r, Ids(left), Ids(right));
      case Compare(_, lhs, rhs) =>
        FollowsParts(defs, stack, check, IdOf(lhs), IdOf(rhs));
        r := CheckSymbol(lhs);
        ghost var s1 := Now();
        SearchKeeps(defs, recursiveIsError, s0, s1, r, IdOf(lhs));
        if r.Some? {
          SearchStopped(defs, recursiveIsError, s0, s1, r, IdOf(lhs), Ids(e));
          return;
        }
        r := CheckSymbol(rhs);
        SearchBoth(defs, recursiveIsError, s0, s1, Now(), r, IdOf(lhs), IdOf(rhs));
      case Sym(s) =>
        r := CheckSymbol(s);
    }
    /** sym_check_deps on any symbol; constants have no dependencies. */
    method CheckSymbol(s: Symbol) returns (r: Option<nat>)
      requires stack != [] && Sound(defs, Now()) && Follows(defs, stack, check, IdOf(s))
      modifies this
      ensures Searched(defs, recursiveIsError, old(Now()), Now(), r, IdOf(s))
      decreases AllIds(|defs|) - checked, 1
    {
      if s.Config? {
        assert s.id in IdOf(s);
        r := CheckDeps(s.id);
      } else {
        r := None;
      }
    }

    /** sym_check_deps. */
    method CheckDeps(i: nat) returns (r: Option<nat>)
      requires Rooted(defs, Now(), i) && Sound(defs, Now()) && Follows(defs, stack, check, [i]) && i < |defs|
      modifies this
      ensures Searched(defs, recursiveIsError, old(Now()), Now(), r, [i])
      decreases AllIds(|defs|) - checked, 0, if defs[i].role.Member? then 2 else 1
    {
      hide Sound, Searched, Follows, Edges;
      ghost var s0 := Now();
      if i in check {
        BackEdge(defs, recursiveIsError, s0, i);
        found := true;
        assert Now() == s0.(found := true);
        return Some(i);
      }
      if i in checked {
        AlreadyChecked(defs, recursiveIsError, s0, i);
        missed := missed || (i in stack && i != stack[|stack| - 1]);
        return None;
      }
      if defs[i].role.Member? {
        FollowsChoice(defs, s0, i);
        r := CheckDeps(defs[i].role.choice);
        MemberSearched(defs, recursiveIsError, s0, Now(), i, r);
      } else if defs[i].role.Choice? {
        r := CheckChoiceDeps(i);
      } else {
        r := CheckOrdinary(i);
      }
      if !recursiveIsError && r == Some(i) {
        r := None;
      }
    }

    /** The part of sym_check_deps for a symbol that is neither a choice nor a member. */
    method CheckOrdinary(i: nat) returns (r: Option<nat>)
      requires Rooted(defs, Now(), i) && Sound(defs, Now()) && Follows(defs, stack, check, [i]) && i !in checked
      requires i < |defs| && defs[i].role.Ordinary?
      modifies this
      ensures Searched(defs, recursiveIsError, old(Now()), Now(),
        if !recursiveIsError && r == Some(i) then None else r, [i])
      decreases AllIds(|defs|) - checked, 0, 0
    {
      hide Sound, Searched, Follows, Edges;
      ghost var s0 := Now();
      EnterSound(defs, s0, i);
      check, checked, stack := check + {i}, checked + {i}, stack + [i];
      assert Now() == Enter(s0, i, []);
      r := CheckSymDeps(i);
      ghost var s1 := Now();
      OrdinaryLeft(defs, recursiveIsError, s0, s1, i, r);
      check, stack := check - {i}, stack[..|stack| - 1];
      done := if found then done else done + [i];
      assert Now() == Leave(s1, i, []);
    }

    /** sym_check_choice_deps: the choice and its members are flagged together; first the choice is
        searched, then, with its own flag cleared, its members. */
    method CheckChoiceDeps(c: nat) returns (r: Option<nat>)
      requires Rooted(defs, Now(), c) && Sound(defs, Now()) && Follows(defs, stack, check, [c]) && c !in checked
      requires c < |defs| && defs[c].role.Choice?
      modifies this
      ensures Searched(defs, recursiveIsError, old(Now()), Now(),
        if !recursiveIsError && r == Some(c) then None else r, [c])
      decreases AllIds(|defs|) - checked, 0, 0
    {
      hide Sound, Searched, Follows, Edges, InnerIds, Elements, AllIds, Enter, Leave;
      ghost var s0 := Now();
      var members := defs[c].role.members;
      ChoiceEntered(defs, s0, c);
      Flag(c, members);
      Shrinks(|defs|, s0.checked, checked, c);
      r := CheckSymDeps(c);
      ghost var s1 := Now();
      SearchKeeps(defs, recursiveIsError, Enter(s0, c, members), s1, r, Edges(defs, c));
      OpenedChoice(defs, s0, s1, c);
      check := check - {c};
      Shrinks(|defs|, s0.checked, checked, c);
      ghost var own := r;
      if r.None? {
        r := CheckMembers(c);
      }
      ChoiceLeft(defs, recursiveIsError, s0, s1, Now(), c, own, r);
      Unflag(c, members);
      if r.Some? && r.value in members {
        r := Some(c);
      }
    }

    /** The flags of a choice and of its members. */
    method Flag(c: nat, members: seq<nat>)
      modifies this
      ensures Now() == Enter(old(Now()), c, members)
    {
      check, checked, stack := check + {c} + Elements(members), checked + {c} + Elements(members), stack + [c];
    }

    method Unflag(c: nat, members: seq<nat>)
      requires stack != [] && check - Elements(members) == check - {c} - Elements(members)
      modifies this
      ensures Now() == Leave(old(Now()), c, members)
    {
      check, stack := check - Elements(members), stack[..|stack| - 1];
      done := if found then done else done + [c] + members;
    }

    /** The loop over the members of an open choice. */
    method CheckMembers(c: nat) returns (r: Option<nat>)
      requires stack != [] && Sound(defs, Now()) && c < |defs| && defs[c].role.Choice?
      requires forall k :: k in defs[c].role.members ==> Follows(defs, stack, check, Edges(defs, k))
      requires forall k :: k in defs[c].role.members ==> k < |defs|
      modifies this
      ensures Searched(defs, recursiveIsError, old(Now()), Now(), r, InnerIds(defs, defs[c].role.members))
      decreases AllIds(|defs|) - checked, 7
    {
      hide Sound, Searched, Follows, Edges;
      ghost var s0, ids := Now(), [];
      var members := defs[c].role.members;
      r := None;
      var k := 0;
      SearchNothing(defs, recursiveIsError, s0);
      SearchKeeps(defs, recursiveIsError, s0, s0, r, []);
      while k < |members|
        invariant k <= |members| && r == None
        invariant InnerIds(defs, members) == ids + InnerIds(defs, members[k..])
        invariant Searched(defs, recursiveIsError, s0, Now(), None, ids)
        invariant Sound(defs, Now()) && stack == s0.stack && check == s0.check && s0.checked <= checked
      {
        ghost var s1, mine := Now(), Edges(defs, members[k]);
        assert members[k..][0] == members[k] && members[k..][1..] == members[k + 1..];
        assert InnerIds(defs, members) == ids + mine + InnerIds(defs, members[k + 1..]);
        assert members[k] in members;
        r := CheckSymDeps(members[k]);
        SearchBoth(defs, recursiveIsError, s0, s1, Now(), r, ids, mine);
        SearchKeeps(defs, recursiveIsError, s0, Now(), r, ids + mine);
        if r.Some? {
          SearchStopped(defs, recursiveIsError, s0, Now(), r, ids + mine, InnerIds(defs, members));
          return;
        }
        ids := ids + mine;
        k := k + 1;
      }
      assert InnerIds(defs, members) == ids;
    }

    /** sym_check_sym_deps. */
    method CheckSymDeps(i: nat) returns (r: Option<nat>)
      requires stack != [] && Sound(defs, Now()) && i < |defs| && Follows(defs, stack, check, Edges(defs, i))
      modifies this
      ensures Searched(defs, recursiveIsError, old(Now()), Now(), r, Edges(defs, i))
      decreases AllIds(|defs|) - checked, 6
    {
      hide Sound, Searched, Follows;
      ghost var s0 := Now();
      var d := defs[i];
      ghost var dir, rev, imp, props := OptIds(d.dirDep), OptIds(d.revDep), OptIds(d.implied), PropsIds(d.props);
      FollowsParts(defs, stack, check, dir + rev + imp, props);
      FollowsParts(defs, stack, check, dir + rev, imp);
      FollowsParts(defs, stack, check, dir, rev);
      r := CheckOpt(d.dirDep);
      ghost var s1 := Now();
      SearchKeeps(defs, recursiveIsError, s0, s1, r, dir);
      if r.Some? {
        SearchStopped(defs, recursiveIsError, s0, s1, r, dir, Edges(defs, i));
        return;
      }
      r := CheckOpt(d.revDep);
      ghost var s2 := Now();
      SearchBoth(defs, recursiveIsError, s0, s1, s2, r, dir, rev);
      SearchKeeps(defs, recursiveIsError, s0, s2, r, dir + rev);
      if r.Some? {
        SearchStopped(defs, recursiveIsError, s0, s2, r, dir + rev, Edges(defs, i));
        return;
      }
      r := CheckOpt(d.implied);
      ghost var s3 := Now();
      SearchBoth(defs, recursiveIsError, s0, s2, s3, r, dir + rev, imp);
      SearchKeeps(defs, recursiveIsError, s0, s3, r, dir + rev + imp);
      if r.Some? {
        SearchStopped(defs, recursiveIsError, s0, s3, r, dir + rev + imp, Edges(defs, i));
        return;
      }
      r := CheckProps(d.props);
      SearchBoth(defs, recursiveIsError, s0, s3, Now(), r, dir + rev + imp, props);
    }

    method CheckOpt(e: Option<Expr>) returns (r: Option<nat>)
      requires stack != [] && Sound(defs, Now()) && Follows(defs, stack, check, OptIds(e))
      modifies this
      ensures Searched(defs, recursiveIsError, old(Now()), Now(), r, OptIds(e))
      decreases AllIds(|defs|) - checked, 3
    {
      if e.None? { r := None; } else { r := CheckExprDeps(e.value); }
    }

    /** The loop over the property list. */
    method CheckProps(ps: seq<Property>) returns (r: Option<nat>)
      requires stack != [] && Sound(defs, Now()) && Follows(defs, stack, check, PropsIds(ps))
      modifies this
      ensures Searched(defs, recursiveIsError, old(Now()), Now(), r, PropsIds(ps))
      decreases AllIds(|defs|) - checked, 5
    {
      hide Sound, Searched, Follows;
      ghost var s0, ids := Now(), [];
      r := None;
      var k := 0;
      SearchNothing(defs, recursiveIsError, s0);
      SearchKeeps(defs, recursiveIsError, s0, s0, r, []);
      while k < |ps|
        invariant k <= |ps| && r == None
        invariant PropsIds(ps) == ids + PropsIds(ps[k..])
        invariant Searched(defs, recursiveIsError, s0, Now(), None, ids)
        invariant Sound(defs, Now()) && stack == s0.stack && check == s0.check && s0.checked <= checked
      {
        ghost var s1, mine, rest := Now(), PropertyIds(ps[k]), PropsIds(ps[k + 1..]);
        assert ps[k..][0] == ps[k] && ps[k..][1..] == ps[k + 1..];
        assert PropsIds(ps) == ids + mine + rest;
        FollowsParts(defs, stack, check, ids + mine, rest);
        FollowsParts(defs, stack, check, ids, mine);
        r := CheckProperty(ps[k]);
        SearchBoth(defs, recursiveIsError, s0, s1, Now(), r, ids, mine);
        SearchKeeps(defs, recursiveIsError, s0, Now(), r, ids + mine);
        if r.Some? {
          SearchStopped(defs, recursiveIsError, s0, Now(), r, ids + mine, PropsIds(ps));
          return;
        }
        ids := ids + mine;
        k := k + 1;
      }
      assert PropsIds(ps) == ids;
    }

    method CheckProperty(p: Property) returns (r: Option<nat>)
      requires stack != [] && Sound(defs, Now()) && Follows(defs, stack, check, PropertyIds(p))
      modifies this
      ensures Searched(defs, recursiveIsError, old(Now()), Now(), r, PropertyIds(p))
      decreases AllIds(|defs|) - checked, 4
    {
      hide Sound, Searched, Follows;
      ghost var s0 := Now();
      if p.kind == Select || p.kind == Imply {
        SearchNothing(defs, recursiveIsError, s0);
        return None;
      }
      if p.kind == Default { FollowsParts(defs, stack, check, OptIds(p.cond), OptIds(p.value)); }
      r := CheckOpt(p.cond);
      ghost var s1 := Now();
      if p.kind != Default {
        return;
      }
      SearchKeeps(defs, recursiveIsError, s0, s1, r, OptIds(p.cond));
      if r.Some? {
        SearchStopped(defs, recursiveIsError, s0, s1, r, OptIds(p.cond), PropertyIds(p));
        return;
      }
      r := CheckOpt(p.value);
      SearchBoth(defs, recursiveIsError, s0, s1, Now(), r, OptIds(p.cond), OptIds(p.value));
    }

    /** The loop of conf_parse over all symbols. With recursive_is_error set it counts no error when
        the dependencies are acyclic, and if it counts none they are, unless a member of a choice
        depends on that choice through other symbols; a cycle in which choices are entered through
        their members only is counted in any case, and cycles that are all excused by one plan are
        never counted. Without the flag no error is ever counted. Acyclic are exactly the tables whose
        symbols can be put in an order. */
    method CheckAll() returns (errors: nat)
      requires Closed(defs) && Now() == State({}, {}, [], [], false, false, None)
      modifies this
      ensures !Cyclic(defs) ==> errors == 0
      ensures Ordering.Orderable(defs) <==> !Cyclic(defs)
      ensures recursiveIsError ==> (!Cyclic(defs) <==> errors == 0 && !Detour(defs))
      ensures recursiveIsError && HardCyclic(defs) ==> errors > 0
      ensures Excusable(defs) ==> errors == 0
      ensures !recursiveIsError ==> errors == 0
      ensures !Detour(defs) ==> ((errors == 0 <==> !Cyclic(defs)) <==> (recursiveIsError || !Cyclic(defs)))
      ensures var order := done; !Cyclic(defs) ==> Ranked(defs, (i: nat) => Position(order, i))
    {
      hide Cyclic, Detour, IsPath, Links, Edges, Topological, HardTopological, HardCyclic, HardLinks, Excused, Quiet,
        Inner, Mentions, Ordering.Orderable;
      errors := 0;
      var i := 0;
      StartSound(defs);
      if Excusable(defs) {
        ghost var p :| Excused(defs, p);
        plan := Some(p);
      }
      ghost var plan0 := plan;
      while i < |defs|
        invariant i <= |defs| && Sound(defs, Now()) && stack == [] && check == {}
        invariant errors > 0 ==> found
        invariant plan == plan0 && Reached(Now(), i)
        invariant recursiveIsError && found ==> errors > 0
        invariant !recursiveIsError ==> errors == 0
        invariant !found ==> forall j :: 0 <= j < i ==> j in done
      {
        ghost var before := Now();
        RootedAt(defs, before, i);
        var r := CheckDeps(i);
        if r.Some? { errors := errors + 1; }
        assert i in [i];
        ReachedNext(defs, before, Now(), i);
        i := i + 1;
      }
      ghost var order := done;
      QuietCounts(defs, Now());
      if Detour(defs) { DetourCyclic(defs); }
      if !found { HardTopologicalAcyclic(defs, order); }
      if !found && !missed {
        TopologicalRanked(defs, order);
        RankedAcyclic(defs, (i: nat) => Position(order, i));
        Ordering.RankedOrderable(defs, (i: nat) => Position(order, i));
      }
      if Ordering.Orderable(defs) { Ordering.OrderableAcyclic(defs); }
    }
  }
}
