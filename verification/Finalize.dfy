/** The propagation part of menu_finalize (scripts/config/menu.c) over a whole menu tree: what the
    dependencies, conditions and selects of all symbols are in the end. */
module Finalize {
  import opened Expressions
  import opened Dups
  import opened Symbols
  import opened Choices
  import opened Propagate

  /** A menu tree before it is finalized: config entries, boxes (menus and ifs), and choices. */
  datatype Node =
    | Entry(sym: nat, dep: Option<Expr>)
    | Box(dep: Option<Expr>, kids: seq<Node>)
    | Group(sym: nat, optional: bool, dep: Option<Expr>, kids: seq<Node>)

  /** The properties of a symbol are handled; a choice that is not optional gets its own demand. */
  datatype Event = Visit(sym: nat) | Close(sym: nat)

  /** In the order of the source: all nodes of a level first, then what is below each of them. */
  function Visited(nodes: seq<Node>): seq<Event>
    decreases nodes, 1
  {
    Direct(nodes) + Deeper(nodes)
  }

  function Direct(nodes: seq<Node>): seq<Event> {
    if nodes == [] then [] else Own(nodes[0]) + Direct(nodes[1..])
  }

  function Own(node: Node): seq<Event> { if node.Box? then [] else [Visit(node.sym)] }

  function Deeper(nodes: seq<Node>): seq<Event>
    decreases nodes, 0
  {
    if nodes == [] then []
    else (if nodes[0].Entry? then [] else Visited(nodes[0].kids) + Closing(nodes[0])) + Deeper(nodes[1..])
  }

  function Closing(node: Node): seq<Event> { if node.Group? && !node.optional then [Close(node.sym)] else [] }

  predicate Touches(vis: seq<Event>, i: nat) { Visit(i) in vis || Close(i) in vis }

  /** No symbol is defined twice. */
  predicate Unique(s: seq<Event>) { forall a, b :: 0 <= a < b < |s| ==> s[a] != s[b] }

  // ----- collecting selects -----

  function Target(p: Property, kind: PropertyType): Option<nat> {
    if p.kind == kind && p.value.Some? && p.value.value.Sym? && p.value.value.sym.Config?
    then Some(p.value.value.sym.id) else None
  }

  /** The selects (or implies) of symbol j among the properties of symbol i. */
  function Aimed(i: nat, ps: seq<Property>, kind: PropertyType, j: nat): seq<Selector> {
    if ps == [] then []
    else (if Target(ps[0], kind) == Some(j) then [Selector(Config(i), ps[0].cond)] else []) + Aimed(i, ps[1..], kind, j)
  }

  /** The condition of the prompt of a menu: the last one given. */
  function PromptOf(ps: seq<Property>): Option<Property> {
    if ps == [] then None
    else if ps[|ps| - 1].kind == Prompt then Some(ps[|ps| - 1])
    else PromptOf(ps[..|ps| - 1])
  }

  function OwnDemand(ps: seq<Property>): seq<Selector> {
    if PromptOf(ps).None? then [] else [OwnPrompt(PromptOf(ps).value.cond)]
  }

  /** What one event adds for symbol j. */
  function Added(defs: seq<SymbolDef>, e: Event, kind: PropertyType, j: nat): seq<Selector> {
    if e.sym >= |defs| then []
    else if e.Visit? then Aimed(e.sym, defs[e.sym].props, kind, j)
    else if kind == Select && e.sym == j then OwnDemand(defs[j].props)
    else []
  }

  /** Those of all events, in order. */
  function Selectors(defs: seq<SymbolDef>, vis: seq<Event>, kind: PropertyType, j: nat): seq<Selector> {
    if vis == [] then []
    else Selectors(defs, vis[..|vis| - 1], kind, j) + Added(defs, vis[|vis| - 1], kind, j)
  }

  lemma {:induction false} CollectedAppend(rev: Option<Expr>, a: seq<Selector>, b: seq<Selector>)
    ensures Collected(rev, a + b) == Collected(Collected(rev, a), b)
    decreases |a|
  {
    if a == [] {
      assert a + b == b;
    } else {
      assert (a + b)[1..] == a[1..] + b;
      CollectedAppend(Alloc(OrOp, rev, DemandExpr(a[0])), a[1..], b);
    }
  }

  /** The table after the selects and implies of 'ps', properties of i, have been handed out. */
  function HandOut(defs: seq<SymbolDef>, i: nat, p: Property): (r: seq<SymbolDef>)
    ensures |r| == |defs|
  {
    var demand := Alloc(AndOp, Some(Sym(Config(i))), p.cond);
    var s, m := Target(p, Select), Target(p, Imply);
    if s.Some? && s.value < |defs| then
      defs[s.value := defs[s.value].(revDep := Alloc(OrOp, defs[s.value].revDep, demand))]
    else if m.Some? && m.value < |defs| then
      defs[m.value := defs[m.value].(implied := Alloc(OrOp, defs[m.value].implied, demand))]
    else defs
  }

  /** Only reverse and implied dependencies change, by what is aimed at the symbol. */
  ghost predicate HandedOut(defs: seq<SymbolDef>, defs': seq<SymbolDef>, i: nat, ps: seq<Property>) {
    && |defs'| == |defs|
    && forall j :: 0 <= j < |defs| ==>
      && defs'[j] == defs[j].(revDep := defs'[j].revDep, implied := defs'[j].implied)
      && defs'[j].revDep == Collected(defs[j].revDep, Aimed(i, ps, Select, j))
      && defs'[j].implied == Collected(defs[j].implied, Aimed(i, ps, Imply, j))
  }

  lemma OneAimed(i: nat, p: Property, kind: PropertyType, j: nat, rev: Option<Expr>)
    ensures Collected(rev, Aimed(i, [p], kind, j)) ==
      if Target(p, kind) == Some(j) then Alloc(OrOp, rev, Alloc(AndOp, Some(Sym(Config(i))), p.cond)) else rev
  {
    assert [p][1..] == [];
    assert [Selector(Config(i), p.cond)][1..] == [];
  }

  lemma {:induction false} AimedAppend(i: nat, a: seq<Property>, p: Property, kind: PropertyType, j: nat)
    ensures Aimed(i, a + [p], kind, j) == Aimed(i, a, kind, j) + Aimed(i, [p], kind, j)
  {
    hide Target;
    if a == [] {
      assert a + [p] == [p];
    } else {
      var own := if Target(a[0], kind) == Some(j) then [Selector(Config(i), a[0].cond)] else [];
      assert (a + [p])[1..] == a[1..] + [p];
      AimedAppend(i, a[1..], p, kind, j);
      assert own + (Aimed(i, a[1..], kind, j) + Aimed(i, [p], kind, j)) ==
        Aimed(i, a, kind, j) + Aimed(i, [p], kind, j);
    }
  }

  lemma HandOutNext(defs: seq<SymbolDef>, mid: seq<SymbolDef>, i: nat, ps: seq<Property>, p: Property)
    requires HandedOut(defs, mid, i, ps)
    ensures HandedOut(defs, HandOut(mid, i, p), i, ps + [p])
  {
    hide Collected, Aimed, Alloc;
    var after := HandOut(mid, i, p);
    forall j | 0 <= j < |defs|
      ensures after[j] == defs[j].(revDep := after[j].revDep, implied := after[j].implied)
      ensures after[j].revDep == Collected(defs[j].revDep, Aimed(i, ps + [p], Select, j))
      ensures after[j].implied == Collected(defs[j].implied, Aimed(i, ps + [p], Imply, j))
    {
      AimedAppend(i, ps, p, Select, j);
      AimedAppend(i, ps, p, Imply, j);
      CollectedAppend(defs[j].revDep, Aimed(i, ps, Select, j), Aimed(i, [p], Select, j));
      CollectedAppend(defs[j].implied, Aimed(i, ps, Imply, j), Aimed(i, [p], Imply, j));
      OneAimed(i, p, Select, j, mid[j].revDep);
      OneAimed(i, p, Imply, j, mid[j].implied);
    }
  }

  // ----- what has been reached -----

  /** After the events in 'vis': properties and direct dependencies of other symbols are untouched,
      and reverse and implied dependencies are those collected from the events. */
  ghost predicate Progress(defs0: seq<SymbolDef>, defs: seq<SymbolDef>, vis: seq<Event>) {
    && |defs| == |defs0|
    && (forall c :: Close(c) in vis ==> Visit(c) in vis)
    && (forall j :: 0 <= j < |defs| ==> ProgressAt(defs0, defs, vis, j))
  }

  ghost predicate ProgressAt(defs0: seq<SymbolDef>, defs: seq<SymbolDef>, vis: seq<Event>, j: nat)
    requires j < |defs| == |defs0|
  {
    var d0, d := defs0[j], defs[j];
    && d == d0.(dirDep := d.dirDep, revDep := d.revDep, implied := d.implied, props := d.props)
    && (!Touches(vis, j) ==> d.dirDep == d0.dirDep && d.props == d0.props)
    && d.revDep == Collected(d0.revDep, Selectors(defs, vis, Select, j))
    && d.implied == Collected(d0.implied, Selectors(defs, vis, Imply, j))
  }

  /** The direct dependency and the conditions of a symbol are settled. */
  ghost predicate SameConditions(defs: seq<SymbolDef>, defs': seq<SymbolDef>, vis: seq<Event>) {
    |defs| == |defs'| && forall i: nat :: Touches(vis, i) && i < |defs| ==>
      defs'[i].dirDep == defs[i].dirDep && defs'[i].props == defs[i].props
  }

  lemma {:induction false} SelectorsKept(defs: seq<SymbolDef>, defs': seq<SymbolDef>, vis: seq<Event>,
      kind: PropertyType, j: nat)
    requires SameConditions(defs, defs', vis)
    ensures Selectors(defs', vis, kind, j) == Selectors(defs, vis, kind, j)
  {
    if vis != [] {
      var last := vis[|vis| - 1];
      assert last in vis && (last == Visit(last.sym) || last == Close(last.sym)) && Touches(vis, last.sym);
      forall i | Touches(vis[..|vis| - 1], i) ensures Touches(vis, i) { }
      SelectorsKept(defs, defs', vis[..|vis| - 1], kind, j);
    }
  }

  lemma ProgressNext(defs0: seq<SymbolDef>, defs: seq<SymbolDef>, mid: seq<SymbolDef>, defs': seq<SymbolDef>,
      vis: seq<Event>, i: nat)
    requires Progress(defs0, defs, vis) && i < |defs| && Visit(i) !in vis
    requires |mid| == |defs| && mid == defs[i := defs[i].(dirDep := mid[i].dirDep, props := mid[i].props)]
    requires HandedOut(mid, defs', i, mid[i].props)
    ensures Progress(defs0, defs', vis + [Visit(i)]) && SameConditions(defs, defs', vis) &&
      SameConditions(mid, defs', [Visit(i)])
  {
    hide Collected, Aimed, Selectors;
    forall j | 0 <= j < |defs| ensures ProgressAt(defs0, defs', vis + [Visit(i)], j) {
      assert ProgressAt(defs0, defs, vis, j);
      SelectorsKept(defs, defs', vis, Select, j);
      SelectorsKept(defs, defs', vis, Imply, j);
      SelectorsNext(defs', vis, Visit(i), Select, j);
      SelectorsNext(defs', vis, Visit(i), Imply, j);
      CollectedAppend(defs0[j].revDep, Selectors(defs, vis, Select, j), Aimed(i, mid[i].props, Select, j));
      CollectedAppend(defs0[j].implied, Selectors(defs, vis, Imply, j), Aimed(i, mid[i].props, Imply, j));
    }
  }

  /** The reverse dependency of a choice that is not optional, extended by its own prompt. */
  function Demanding(d: SymbolDef): SymbolDef {
    var p := PromptOf(d.props);
    if p.None? then d else d.(revDep := Alloc(OrOp, d.revDep, DemandExpr(OwnPrompt(p.value.cond))))
  }

  lemma ProgressClosed(defs0: seq<SymbolDef>, defs: seq<SymbolDef>, vis: seq<Event>, c: nat)
    requires Progress(defs0, defs, vis) && c < |defs| && Visit(c) in vis
    ensures var defs' := defs[c := Demanding(defs[c])];
      Progress(defs0, defs', vis + [Close(c)]) && forall ids: seq<Event> :: SameConditions(defs, defs', ids)
  {
    hide Aimed, Selectors, Alloc;
    var defs' := defs[c := Demanding(defs[c])];
    forall j | 0 <= j < |defs| ensures ProgressAt(defs0, defs', vis + [Close(c)], j) {
      assert ProgressAt(defs0, defs, vis, j);
      SelectorsKept(defs, defs', vis, Select, j);
      SelectorsKept(defs, defs', vis, Imply, j);
      SelectorsNext(defs', vis, Close(c), Select, j);
      SelectorsNext(defs', vis, Close(c), Imply, j);
      assert Added(defs', Close(c), Select, j) == if c == j then OwnDemand(defs[c].props) else [];
      CollectedAppend(defs0[j].revDep, Selectors(defs, vis, Select, j), Added(defs', Close(c), Select, j));
      CollectedAppend(defs0[j].implied, Selectors(defs, vis, Imply, j), []);
      if c == j { CollectedOne(defs[c].revDep, defs[c].props); }
    }
  }

  lemma CollectedOne(rev: Option<Expr>, ps: seq<Property>)
    ensures Collected(rev, OwnDemand(ps)) ==
      if PromptOf(ps).None? then rev else Alloc(OrOp, rev, DemandExpr(OwnPrompt(PromptOf(ps).value.cond)))
  {
    var one := OwnDemand(ps);
    if one != [] { assert one[1..] == []; }
  }

  lemma SelectorsNext(defs: seq<SymbolDef>, vis: seq<Event>, e: Event, kind: PropertyType, j: nat)
    ensures Selectors(defs, vis + [e], kind, j) == Selectors(defs, vis, kind, j) + Added(defs, e, kind, j)
  {
    hide Aimed, OwnDemand;
    assert (vis + [e])[..|vis|] == vis;
  }

  // ----- the conditions of a whole tree -----

  /** 'spec' && dep, with bare m rewritten, not simplified. */
  function Narrower(modules: Symbol, spec: Option<Expr>, dep: Option<Expr>): Option<Expr> {
    Alloc(AndOp, spec, RewriteOpt(modules, dep))
  }

  /** The simplified dependency has the value of the unsimplified one. */
  ghost predicate SameOpt(t: SymbolTable, a: Option<Expr>, b: Option<Expr>) {
    forall env :: Consistent(t, env) ==> EvalOpt(env, a) == EvalOpt(env, b)
  }

  /** What the node itself must have become below the dependency 'spec': an entry has as direct
      dependency the conjunction of all dependencies around it, and its prompts and defaults, like
      those of a choice, never exceed that. */
  ghost predicate HeadDone(t: SymbolTable, modules: Symbol, spec: Option<Expr>, node: Node, defs: seq<SymbolDef>) {
    match node
    case Entry(i, dep) => i < |defs| && SameOpt(t, defs[i].dirDep, Narrower(modules, spec, dep)) &&
      GuardedDef(t, defs[i])
    case Box(_, _) => true
    case Group(c, _, dep, kids) =>
      && c < |defs| && (kids != [] ==> defs[c].dirDep.None?)
      && forall p :: p in defs[c].props && p.kind in {Prompt, Preset} ==>
        Guarded(t, Narrower(modules, spec, dep), p.cond)
  }

  /** The dependency of what is below a node: that of a choice is the choice itself. */
  function Inherited(modules: Symbol, spec: Option<Expr>, node: Node): Option<Expr> {
    if node.Group? then Some(Sym(Config(node.sym))) else Narrower(modules, spec, node.dep)
  }

  ghost predicate LevelDone(t: SymbolTable, modules: Symbol, spec: Option<Expr>, nodes: seq<Node>, defs: seq<SymbolDef>)
    decreases nodes
  {
    forall k :: 0 <= k < |nodes| ==>
      HeadDone(t, modules, spec, nodes[k], defs)
      && (!nodes[k].Entry? ==> LevelDone(t, modules, Inherited(modules, spec, nodes[k]), nodes[k].kids, defs))
  }

  lemma {:induction false} DirectSplit(a: seq<Node>, b: seq<Node>)
    ensures Direct(a + b) == Direct(a) + Direct(b)
  {
    if a == [] {
      assert a + b == b;
    } else {
      assert (a + b)[1..] == a[1..] + b;
      DirectSplit(a[1..], b);
    }
  }

  lemma {:induction false} DeeperSplit(a: seq<Node>, b: seq<Node>)
    ensures Deeper(a + b) == Deeper(a) + Deeper(b)
    decreases |a|
  {
    hide Direct;
    if a == [] {
      assert a + b == b;
    } else {
      assert (a + b)[1..] == a[1..] + b;
      DeeperSplit(a[1..], b);
      var first := Kids(a[0]);
      assert first + (Deeper(a[1..]) + Deeper(b)) == first + Deeper(a[1..]) + Deeper(b);
    }
  }

  function Kids(node: Node): seq<Event> { if node.Entry? then [] else Visited(node.kids) + Closing(node) }

  /** Node k in the order of its level: behind the nodes before it, in front of the rest. */
  lemma NodeAt(nodes: seq<Node>, k: nat)
    requires k < |nodes|
    ensures Direct(nodes[..k + 1]) == Direct(nodes[..k]) + Own(nodes[k])
    ensures Deeper(nodes[..k + 1]) == Deeper(nodes[..k]) + Kids(nodes[k])
    ensures Direct(nodes) == Direct(nodes[..k + 1]) + Direct(nodes[k + 1..])
    ensures Deeper(nodes) == Deeper(nodes[..k + 1]) + Deeper(nodes[k + 1..])
  {
    hide *;
    SliceAt(nodes, k);
    OneNode(nodes[k]);
    DirectSplit(nodes[..k], [nodes[k]]);
    DeeperSplit(nodes[..k], [nodes[k]]);
    DirectSplit(nodes[..k + 1], nodes[k + 1..]);
    DeeperSplit(nodes[..k + 1], nodes[k + 1..]);
  }

  lemma SliceAt<T>(s: seq<T>, k: nat)
    requires k < |s|
    ensures s[..k + 1] == s[..k] + [s[k]] && s[..k + 1] + s[k + 1..] == s
  {
  }

  lemma OneNode(node: Node)
    ensures Direct([node]) == Own(node) && Deeper([node]) == Kids(node)
  {
    var one := [node];
    assert one[1..] == [];
    assert Direct([]) == [] && Deeper([]) == [];
    assert Own(node) + [] == Own(node) && Kids(node) + [] == Kids(node);
    assert Direct(one) == Own(node) + Direct(one[1..]);
    assert Deeper(one) == Kids(node) + Deeper(one[1..]);
  }

  /** When a level is entered none of its symbols has been visited. */
  lemma FreshHead(vis: seq<Event>, nodes: seq<Node>, k: nat)
    requires Unique(vis + Visited(nodes)) && k < |nodes| && !nodes[k].Box?
    ensures Visit(nodes[k].sym) !in vis + Direct(nodes[..k])
  {
    hide Unique, Direct, Deeper;
    NodeAt(nodes, k);
    var a := vis + Direct(nodes[..k]);
    var rest := Direct(nodes[k + 1..]) + Deeper(nodes);
    assert vis + Visited(nodes) == a + [Visit(nodes[k].sym)] + rest;
    UniqueParts(a, [Visit(nodes[k].sym)], rest);
    UniqueLast(a, Visit(nodes[k].sym));
  }

  lemma FreshKids(vis: seq<Event>, nodes: seq<Node>, k: nat)
    requires Unique(vis + Visited(nodes)) && k < |nodes| && !nodes[k].Entry?
    ensures Unique(vis + Direct(nodes) + Deeper(nodes[..k]) + Visited(nodes[k].kids))
  {
    hide Unique, Direct, Deeper;
    NodeAt(nodes, k);
    var a, b, rest := vis + Direct(nodes) + Deeper(nodes[..k]), Visited(nodes[k].kids),
      Closing(nodes[k]) + Deeper(nodes[k + 1..]);
    assert vis + Visited(nodes) == a + b + rest;
    UniqueParts(a, b, rest);
  }

  lemma {:induction false} DirectIn(nodes: seq<Node>, k: nat)
    requires k < |nodes| && !nodes[k].Box?
    ensures Visit(nodes[k].sym) in Direct(nodes)
  {
    if k > 0 { DirectIn(nodes[1..], k - 1); }
  }

  lemma {:induction false} DeeperIn(nodes: seq<Node>, k: nat, e: Event)
    requires k < |nodes| && !nodes[k].Entry? && e in Visited(nodes[k].kids)
    ensures e in Deeper(nodes)
  {
    hide Direct;
    if k > 0 { DeeperIn(nodes[1..], k - 1, e); }
  }

  /** Later steps do not touch what a level has become. */
  lemma {:induction false} LevelKept(t: SymbolTable, modules: Symbol, spec: Option<Expr>, nodes: seq<Node>,
      defs: seq<SymbolDef>, defs': seq<SymbolDef>)
    requires LevelDone(t, modules, spec, nodes, defs) && SameConditions(defs, defs', Visited(nodes))
    ensures LevelDone(t, modules, spec, nodes, defs')
    decreases nodes
  {
    hide GuardedDef, SameOpt, Direct, Deeper;
    forall k | 0 <= k < |nodes|
      ensures HeadDone(t, modules, spec, nodes[k], defs')
      ensures !nodes[k].Entry? ==> LevelDone(t, modules, Inherited(modules, spec, nodes[k]), nodes[k].kids, defs')
    {
      if !nodes[k].Box? {
        DirectIn(nodes, k);
        HeadKept(t, modules, spec, nodes[k], defs, defs');
      }
      if !nodes[k].Entry? {
        forall e | e in Visited(nodes[k].kids) ensures e in Visited(nodes) { DeeperIn(nodes, k, e); }
        LevelKept(t, modules, Inherited(modules, spec, nodes[k]), nodes[k].kids, defs, defs');
      }
    }
  }

  lemma HeadKept(t: SymbolTable, modules: Symbol, spec: Option<Expr>, node: Node, defs: seq<SymbolDef>,
      defs': seq<SymbolDef>)
    requires HeadDone(t, modules, spec, node, defs) && |defs'| == |defs|
    requires !node.Box? && node.sym < |defs| ==>
      defs'[node.sym].dirDep == defs[node.sym].dirDep && defs'[node.sym].props == defs[node.sym].props
    ensures HeadDone(t, modules, spec, node, defs')
  {
    hide SameOpt, Guarded;
  }

  /** Fit for the optimiser, at every depth. */
  ghost predicate PlainLevel(t: SymbolTable, defs: seq<SymbolDef>, nodes: seq<Node>)
    decreases nodes
  {
    forall k :: 0 <= k < |nodes| ==>
      && PlainOpt(t, nodes[k].dep)
      && (!nodes[k].Box? ==> nodes[k].sym < |defs| && Fresh(t, defs[nodes[k].sym]))
      && (!nodes[k].Entry? ==> PlainLevel(t, defs, nodes[k].kids))
  }

  /** As the parser leaves a symbol: no direct dependency yet, and plain conditions. */
  ghost predicate Fresh(t: SymbolTable, d: SymbolDef) {
    d.dirDep.None? && forall p :: p in d.props ==> PlainOpt(t, p.cond)
  }

  lemma UniqueParts(a: seq<Event>, b: seq<Event>, c: seq<Event>)
    requires Unique(a + b + c)
    ensures Unique(a + b)
  {
    var s := a + b + c;
    forall x, y | 0 <= x < y < |a + b| ensures (a + b)[x] != (a + b)[y] { assert s[x] != s[y]; }
  }

  lemma UniqueLast(a: seq<Event>, e: Event)
    requires Unique(a + [e])
    ensures e !in a
  {
    var s := a + [e];
    forall x | 0 <= x < |a| ensures a[x] != e { assert s[x] != s[|a|]; }
  }

  ghost predicate Heads(t: SymbolTable, modules: Symbol, spec: Option<Expr>, nodes: seq<Node>, k: nat,
      defs: seq<SymbolDef>) {
    forall j :: 0 <= j < k && j < |nodes| ==> HeadDone(t, modules, spec, nodes[j], defs)
  }

  ghost predicate Bodies(t: SymbolTable, modules: Symbol, spec: Option<Expr>, nodes: seq<Node>, k: nat,
      defs: seq<SymbolDef>) {
    forall j :: 0 <= j < k && j < |nodes| && !nodes[j].Entry? ==>
      LevelDone(t, modules, Inherited(modules, spec, nodes[j]), nodes[j].kids, defs)
  }

  /** The dependencies worked out for what is below the nodes. */
  ghost predicate Bases(t: SymbolTable, modules: Symbol, spec: Option<Expr>, nodes: seq<Node>,
      bases: seq<Option<Expr>>) {
    forall j :: 0 <= j < |bases| && j < |nodes| && !nodes[j].Entry? ==>
      PlainOpt(t, bases[j]) && Simple(bases[j]) && SameOpt(t, bases[j], Inherited(modules, spec, nodes[j]))
  }

  lemma HeadsKept(t: SymbolTable, modules: Symbol, spec: Option<Expr>, nodes: seq<Node>, k: nat, defs: seq<SymbolDef>,
      defs': seq<SymbolDef>)
    requires k <= |nodes| && Heads(t, modules, spec, nodes, k, defs) && SameConditions(defs, defs', Direct(nodes[..k]))
    ensures Heads(t, modules, spec, nodes, k, defs')
  {
    hide HeadDone, Direct;
    forall j | 0 <= j < k ensures HeadDone(t, modules, spec, nodes[j], defs') {
      if !nodes[j].Box? {
        DirectIn(nodes[..k], j);
      }
      HeadKept(t, modules, spec, nodes[j], defs, defs');
    }
  }

  lemma BodiesKept(t: SymbolTable, modules: Symbol, spec: Option<Expr>, nodes: seq<Node>, k: nat,
      defs: seq<SymbolDef>, defs': seq<SymbolDef>)
    requires k <= |nodes| && Bodies(t, modules, spec, nodes, k, defs) && SameConditions(defs, defs', Deeper(nodes[..k]))
    ensures Bodies(t, modules, spec, nodes, k, defs')
  {
    hide LevelDone, Deeper, Direct;
    forall j | 0 <= j < k && !nodes[j].Entry?
      ensures LevelDone(t, modules, Inherited(modules, spec, nodes[j]), nodes[j].kids, defs')
    {
      forall e | e in Visited(nodes[j].kids) ensures e in Deeper(nodes[..k]) { DeeperIn(nodes[..k], j, e); }
      LevelKept(t, modules, Inherited(modules, spec, nodes[j]), nodes[j].kids, defs, defs');
    }
  }

  lemma SameParts(defs: seq<SymbolDef>, defs': seq<SymbolDef>, a: seq<Event>, b: seq<Event>)
    requires SameConditions(defs, defs', a + b)
    ensures SameConditions(defs, defs', a) && SameConditions(defs, defs', b)
  {
    forall i | Touches(a, i) ensures Touches(a + b, i) { }
    forall i | Touches(b, i) ensures Touches(a + b, i) { }
  }

  lemma SameTrans(a: seq<SymbolDef>, b: seq<SymbolDef>, c: seq<SymbolDef>, ids: seq<Event>)
    requires SameConditions(a, b, ids) && SameConditions(b, c, ids)
    ensures SameConditions(a, c, ids)
  {
  }

  lemma SameSelf(a: seq<SymbolDef>, ids: seq<Event>)
    ensures SameConditions(a, a, ids)
  {
  }

  lemma PlainHead(t: SymbolTable, defs0: seq<SymbolDef>, defs: seq<SymbolDef>, nodes: seq<Node>, vis: seq<Event>,
      k: nat)
    requires PlainLevel(t, defs0, nodes) && Progress(defs0, defs, vis) && k < |nodes|
    requires !nodes[k].Box? ==> Visit(nodes[k].sym) !in vis
    ensures PlainOpt(t, nodes[k].dep) && (!nodes[k].Entry? ==> PlainLevel(t, defs0, nodes[k].kids))
    ensures !nodes[k].Box? ==> nodes[k].sym < |defs| && Fresh(t, defs[nodes[k].sym])
  {
    hide Selectors, Collected, PlainConstants;
    if !nodes[k].Box? { assert ProgressAt(defs0, defs, vis, nodes[k].sym); }
  }

  class Finalizer {
    const opt: Optimizer
    const modules: Symbol
    var defs: seq<SymbolDef>

    constructor (opt: Optimizer, modules: Symbol, defs: seq<SymbolDef>)
      ensures this.opt == opt && this.modules == modules && this.defs == defs
    {
      this.opt, this.modules, this.defs := opt, modules, defs;
    }

    /** The selects and implies among the properties of a symbol. */
    method HandOutAll(i: nat)
      requires i < |defs|
      modifies `defs
      ensures HandedOut(old(defs), defs, i, old(defs)[i].props)
    {
      hide HandOut, HandedOut;
      var ps, k := defs[i].props, 0;
      NothingHandedOut(defs, i);
      while k < |ps|
        invariant k <= |ps| && HandedOut(old(defs), defs, i, ps[..k])
      {
        HandOutNext(old(defs), defs, i, ps[..k], ps[k]);
        assert ps[..k + 1] == ps[..k] + [ps[k]];
        defs := HandOut(defs, i, ps[k]);
        k := k + 1;
      }
      assert ps[..k] == ps;
    }

    /** The properties of the symbol of a node: those of an entry or of a choice. */
    method FinalizeHead(node: Node, outer: Option<Expr>, ghost spec: Option<Expr>, ghost defs0: seq<SymbolDef>,
        ghost vis: seq<Event>)
      requires !node.Box? && node.sym < |defs| && Visit(node.sym) !in vis && Progress(defs0, defs, vis)
      requires PlainOpt(opt.t, outer) && Simple(outer) && SameOpt(opt.t, outer, spec) && PlainOpt(opt.t, node.dep)
      requires Fresh(opt.t, defs[node.sym])
      modifies `defs, opt`transCount
      ensures Progress(defs0, defs, vis + [Visit(node.sym)]) && SameConditions(old(defs), defs, vis)
      ensures HeadDone(opt.t, modules, spec, node, defs)
    {
      hide Progress, HandedOut, GuardedDef;
      var i := node.sym;
      ProgressLength(defs0, defs, vis);
      var r := FinalizeSymbol(opt, modules, outer, node.dep, defs[i]);
      SpecNarrower(opt.t, modules, outer, spec, node.dep, r);
      ghost var before := defs;
      if node.Entry? || node.kids == [] {
        defs := defs[i := r];
      } else {
        defs := defs[i := defs[i].(props := r.props)];
      }
      ghost var mid := defs;
      HandOutAll(i);
      assert mid == before[i := before[i].(dirDep := mid[i].dirDep, props := mid[i].props)];
      ProgressNext(defs0, before, mid, defs, vis, i);
      assert Touches([Visit(i)], i);
      HeadKept(opt.t, modules, spec, node, mid, defs);
    }

    /** One level of the tree: first every node of it, then what is below them. 'outer' is the
        dependency of the level, simplified; 'spec' the same, not simplified. */
    method FinalizeLevel(outer: Option<Expr>, ghost spec: Option<Expr>, nodes: seq<Node>, ghost defs0: seq<SymbolDef>,
        ghost vis: seq<Event>)
      requires PlainOpt(opt.t, outer) && Simple(outer) && SameOpt(opt.t, outer, spec)
      requires PlainLevel(opt.t, defs0, nodes) && Unique(vis + Visited(nodes)) && Progress(defs0, defs, vis)
      modifies `defs, opt`transCount
      ensures Progress(defs0, defs, vis + Visited(nodes)) && SameConditions(old(defs), defs, vis)
      ensures LevelDone(opt.t, modules, spec, nodes, defs)
      decreases nodes
    {
      hide Progress, PlainLevel, Unique, SameOpt, SameConditions, HeadDone, LevelDone, Direct, Deeper, Heads, Bodies,
        Bases, PlainOpt, Simple;
      ghost var start := defs;
      var bases := FinalizeHeads(outer, spec, nodes, defs0, vis);
      ghost var heads := vis + Direct(nodes);
      var k := 0;
      NoBodies(opt.t, modules, spec, nodes, defs);
      SameSelf(defs, heads);
      ghost var mid := defs;
      assert heads + [] == heads;
      while k < |nodes|
        invariant k <= |nodes| == |bases| && Bases(opt.t, modules, spec, nodes, bases)
        invariant Progress(defs0, defs, heads + Deeper(nodes[..k])) && SameConditions(mid, defs, heads)
        invariant Bodies(opt.t, modules, spec, nodes, k, defs) && |defs| == |mid|
      {
        ghost var before, now := defs, heads + Deeper(nodes[..k]);
        NodeAt(nodes, k);
        if !nodes[k].Entry? {
          FreshKids(vis, nodes, k);
          PlainKids(opt.t, defs0, nodes, k);
          BaseAt(opt.t, modules, spec, nodes, bases, k);
          FinalizeLevel(bases[k], Inherited(modules, spec, nodes[k]), nodes[k].kids, defs0, now);
          SameParts(before, defs, heads, Deeper(nodes[..k]));
          SameTrans(mid, before, defs, heads);
          ghost var inside := now + Visited(nodes[k].kids);
          assert inside + Closing(nodes[k]) == heads + Deeper(nodes[..k + 1]);
          if nodes[k].Group? && !nodes[k].optional {
            ProgressLength(defs0, defs, inside);
            CloseReady(opt.t, modules, spec, nodes, defs0, defs, vis, k);
            ghost var open := defs;
            ProgressClosed(defs0, defs, inside, nodes[k].sym);
            defs := defs[nodes[k].sym := Demanding(defs[nodes[k].sym])];
            SameTrans(mid, open, defs, heads);
            SameTrans(before, open, defs, Deeper(nodes[..k]));
            LevelKept(opt.t, modules, Inherited(modules, spec, nodes[k]), nodes[k].kids, open, defs);
          } else {
            assert inside + [] == inside;
          }
          BodiesKept(opt.t, modules, spec, nodes, k, before, defs);
        } else {
          assert now == heads + Deeper(nodes[..k + 1]);
        }
        BodiesNext(opt.t, modules, spec, nodes, k, defs);
        k := k + 1;
      }
      assert nodes[..k] == nodes;
      SameParts(mid, defs, vis, Direct(nodes));
      SameTrans(start, mid, defs, vis);
      HeadsKept(opt.t, modules, spec, nodes, k, mid, defs);
      LevelFinished(opt.t, modules, spec, nodes, defs);
      assert heads + Deeper(nodes) == vis + Visited(nodes);
    }

    /** The loop over the nodes of a level; returns the dependencies of what is below them. */
    method FinalizeHeads(outer: Option<Expr>, ghost spec: Option<Expr>, nodes: seq<Node>, ghost defs0: seq<SymbolDef>,
        ghost vis: seq<Event>)
      returns (bases: seq<Option<Expr>>)
      requires PlainOpt(opt.t, outer) && Simple(outer) && SameOpt(opt.t, outer, spec)
      requires PlainLevel(opt.t, defs0, nodes) && Unique(vis + Visited(nodes)) && Progress(defs0, defs, vis)
      modifies `defs, opt`transCount
      ensures Progress(defs0, defs, vis + Direct(nodes)) && SameConditions(old(defs), defs, vis)
      ensures Heads(opt.t, modules, spec, nodes, |nodes|, defs)
      ensures |bases| == |nodes| && Bases(opt.t, modules, spec, nodes, bases)
    {
      hide Progress, PlainLevel, Unique, SameOpt, SameConditions, HeadDone, Direct, Deeper, Heads, Bases, PlainOpt,
        Simple;
      ghost var start := defs;
      bases := [];
      var k := 0;
      NoHeads(opt.t, modules, spec, nodes, defs);
      SameSelf(defs, vis);
      assert nodes[..0] == [] && vis + [] == vis;
      while k < |nodes|
        invariant k <= |nodes| && |bases| == k && Bases(opt.t, modules, spec, nodes, bases)
        invariant Progress(defs0, defs, vis + Direct(nodes[..k])) && SameConditions(start, defs, vis)
        invariant Heads(opt.t, modules, spec, nodes, k, defs)
      {
        ghost var before, now := defs, vis + Direct(nodes[..k]);
        NodeAt(nodes, k);
        if !nodes[k].Box? { FreshHead(vis, nodes, k); }
        PlainHead(opt.t, defs0, defs, nodes, now, k);
        var base := None;
        if nodes[k].Box? {
          base := Narrow(opt, modules, outer, nodes[k].dep);
          assert now == vis + Direct(nodes[..k + 1]);
        } else {
          FinalizeHead(nodes[k], outer, spec, defs0, now);
          SameParts(before, defs, vis, Direct(nodes[..k]));
          SameTrans(start, before, defs, vis);
          HeadsKept(opt.t, modules, spec, nodes, k, before, defs);
          base := Some(Sym(Config(nodes[k].sym)));
          assert now + [Visit(nodes[k].sym)] == vis + Direct(nodes[..k + 1]);
        }
        HeadsNext(opt.t, modules, spec, nodes, k, defs);
        BasesNext(opt.t, modules, outer, spec, nodes, bases, base, k);
        bases := bases + [base];
        k := k + 1;
      }
      assert nodes[..k] == nodes;
    }
  }

  /** The choice that is closed has been visited. */
  lemma CloseReady(t: SymbolTable, modules: Symbol, spec: Option<Expr>, nodes: seq<Node>, defs0: seq<SymbolDef>,
                   defs: seq<SymbolDef>, vis: seq<Event>, k: nat)
    requires k < |nodes| && nodes[k].Group? && PlainLevel(t, defs0, nodes) && |defs| == |defs0|
    ensures nodes[k].sym < |defs|
    ensures Visit(nodes[k].sym) in vis + Direct(nodes) + Deeper(nodes[..k]) + Visited(nodes[k].kids)
  {
    hide Direct, Deeper, Visited;
    DirectIn(nodes, k);
  }

  lemma NoHeads(t: SymbolTable, modules: Symbol, spec: Option<Expr>, nodes: seq<Node>, defs: seq<SymbolDef>)
    ensures Heads(t, modules, spec, nodes, 0, defs) && Bases(t, modules, spec, nodes, []) && Direct([]) == []
  {
  }

  lemma NoBodies(t: SymbolTable, modules: Symbol, spec: Option<Expr>, nodes: seq<Node>, defs: seq<SymbolDef>)
    ensures Bodies(t, modules, spec, nodes, 0, defs) && Deeper(nodes[..0]) == []
  {
  }

  lemma HeadsNext(t: SymbolTable, modules: Symbol, spec: Option<Expr>, nodes: seq<Node>, k: nat, defs: seq<SymbolDef>)
    requires k < |nodes| && Heads(t, modules, spec, nodes, k, defs) &&
      (nodes[k].Box? || HeadDone(t, modules, spec, nodes[k], defs))
    ensures Heads(t, modules, spec, nodes, k + 1, defs)
  {
  }

  lemma BodiesNext(t: SymbolTable, modules: Symbol, spec: Option<Expr>, nodes: seq<Node>, k: nat, defs: seq<SymbolDef>)
    requires k < |nodes| && Bodies(t, modules, spec, nodes, k, defs)
    requires nodes[k].Entry? || LevelDone(t, modules, Inherited(modules, spec, nodes[k]), nodes[k].kids, defs)
    ensures Bodies(t, modules, spec, nodes, k + 1, defs)
  {
    hide LevelDone;
  }

  lemma BasesNext(t: SymbolTable, modules: Symbol, outer: Option<Expr>, spec: Option<Expr>, nodes: seq<Node>,
                  bases: seq<Option<Expr>>, base: Option<Expr>, k: nat)
    requires k < |nodes| && |bases| == k && Bases(t, modules, spec, nodes, bases)
    requires PlainOpt(t, outer) && Simple(outer) && SameOpt(t, outer, spec)
    requires if nodes[k].Box? then
        && PlainOpt(t, base) && Simple(base)
        && forall env :: Consistent(t, env) ==>
             EvalOpt(env, base) == Combine(AndOp, EvalOpt(env, outer), EvalOpt(env, RewriteOpt(modules, nodes[k].dep)))
      else base == Some(Sym(Config(nodes[k].sym)))
    ensures Bases(t, modules, spec, nodes, bases + [base])
  {
    if nodes[k].Box? {
      forall env | Consistent(t, env)
        ensures EvalOpt(env, base) == EvalOpt(env, Narrower(modules, spec, nodes[k].dep))
      {
        AllocAndExact(env, spec, RewriteOpt(modules, nodes[k].dep));
      }
    }
  }

  lemma BaseAt(t: SymbolTable, modules: Symbol, spec: Option<Expr>, nodes: seq<Node>, bases: seq<Option<Expr>>, k: nat)
    requires k < |nodes| == |bases| && Bases(t, modules, spec, nodes, bases) && !nodes[k].Entry?
    ensures PlainOpt(t, bases[k]) && Simple(bases[k]) && SameOpt(t, bases[k], Inherited(modules, spec, nodes[k]))
  {
  }

  lemma PlainKids(t: SymbolTable, defs: seq<SymbolDef>, nodes: seq<Node>, k: nat)
    requires PlainLevel(t, defs, nodes) && k < |nodes| && !nodes[k].Entry?
    ensures PlainLevel(t, defs, nodes[k].kids)
  {
  }

  lemma LevelFinished(t: SymbolTable, modules: Symbol, spec: Option<Expr>, nodes: seq<Node>, defs: seq<SymbolDef>)
    requires Heads(t, modules, spec, nodes, |nodes|, defs) && Bodies(t, modules, spec, nodes, |nodes|, defs)
    ensures LevelDone(t, modules, spec, nodes, defs)
  {
    hide HeadDone;
  }

  lemma ProgressLength(defs0: seq<SymbolDef>, defs: seq<SymbolDef>, vis: seq<Event>)
    requires Progress(defs0, defs, vis)
    ensures |defs| == |defs0|
  {
  }

  lemma NothingHandedOut(defs: seq<SymbolDef>, i: nat)
    ensures HandedOut(defs, defs, i, [])
  {
  }

  /** What FinalizeSymbol promises, in terms of the unsimplified dependency. */
  lemma SpecNarrower(t: SymbolTable, modules: Symbol, outer: Option<Expr>, spec: Option<Expr>, dep: Option<Expr>,
      r: SymbolDef)
    requires SameOpt(t, outer, spec) && GuardedDef(t, r)
    requires forall env :: Consistent(t, env) ==>
      EvalOpt(env, r.dirDep) == Combine(AndOp, EvalOpt(env, outer), EvalOpt(env, RewriteOpt(modules, dep)))
    ensures SameOpt(t, r.dirDep, Narrower(modules, spec, dep))
    ensures forall p :: p in r.props && p.kind in {Prompt, Default, Preset} ==>
      Guarded(t, Narrower(modules, spec, dep), p.cond)
  {
    forall env | Consistent(t, env) ensures EvalOpt(env, r.dirDep) == EvalOpt(env, Narrower(modules, spec, dep)) {
      AllocAndExact(env, spec, RewriteOpt(modules, dep));
    }
  }

  // ----- what holds for a finalized tree -----

  /** menu_finalize from the root menu, before which nothing selects anything. */
  method FinalizeTree(opt: Optimizer, modules: Symbol, nodes: seq<Node>, defs: seq<SymbolDef>)
      returns (r: seq<SymbolDef>)
    requires PlainLevel(opt.t, defs, nodes) && Unique(Visited(nodes))
    requires forall d :: d in defs ==> d.revDep.None? && d.implied.None?
    modifies opt`transCount
    ensures LevelDone(opt.t, modules, None, nodes, r) && Progress(defs, r, Visited(nodes))
    ensures forall j :: 0 <= j < |defs| ==> r[j].revDep == Collected(None, Selectors(r, Visited(nodes), Select, j))
    ensures forall j :: 0 <= j < |defs| ==> r[j].implied == Collected(None, Selectors(r, Visited(nodes), Imply, j))
  {
    hide LevelDone, PlainLevel, Unique, Collected, Visited;
    var f := new Finalizer(opt, modules, defs);
    assert [] + Visited(nodes) == Visited(nodes);
    NoProgress(defs);
    f.FinalizeLevel(None, None, nodes, defs, []);
    r := f.defs;
    forall j | 0 <= j < |defs|
      ensures r[j].revDep == Collected(None, Selectors(r, Visited(nodes), Select, j))
      ensures r[j].implied == Collected(None, Selectors(r, Visited(nodes), Imply, j))
    {
      assert defs[j] in defs && ProgressAt(defs, r, Visited(nodes), j);
    }
  }

  lemma NoProgress(defs: seq<SymbolDef>)
    ensures Progress(defs, defs, [])
  {
  }

  /** 'full' is the conjunction of all dependencies around the entry of symbol i, and its own. */
  ghost predicate Around(modules: Symbol, spec: Option<Expr>, nodes: seq<Node>, i: nat, full: Option<Expr>)
    decreases nodes
  {
    exists k :: 0 <= k < |nodes| &&
      if nodes[k].Entry? then nodes[k].sym == i && full == Narrower(modules, spec, nodes[k].dep)
      else Around(modules, Inherited(modules, spec, nodes[k]), nodes[k].kids, i, full)
  }

  lemma {:induction false} EntryDone(t: SymbolTable, modules: Symbol, spec: Option<Expr>, nodes: seq<Node>,
      defs: seq<SymbolDef>, i: nat, full: Option<Expr>)
    requires LevelDone(t, modules, spec, nodes, defs) && Around(modules, spec, nodes, i, full)
    ensures i < |defs| && SameOpt(t, defs[i].dirDep, full) && GuardedDef(t, defs[i])
    decreases nodes
  {
    hide SameOpt, GuardedDef;
    var k :| 0 <= k < |nodes| &&
      if nodes[k].Entry? then nodes[k].sym == i && full == Narrower(modules, spec, nodes[k].dep)
      else Around(modules, Inherited(modules, spec, nodes[k]), nodes[k].kids, i, full);
    assert HeadDone(t, modules, spec, nodes[k], defs);
    if !nodes[k].Entry? { EntryDone(t, modules, Inherited(modules, spec, nodes[k]), nodes[k].kids, defs, i, full); }
  }

  /** Property p of entry i of the tree selects (or implies) j. */
  ghost predicate Aims(defs: seq<SymbolDef>, vis: seq<Event>, i: nat, p: Property, kind: PropertyType, j: nat) {
    Visit(i) in vis && i < |defs| && p in defs[i].props && p.kind == kind && p.value == Some(Sym(Config(j)))
  }

  lemma {:induction false} AimedIn(i: nat, ps: seq<Property>, kind: PropertyType, j: nat, p: Property)
    requires p in ps && Target(p, kind) == Some(j)
    ensures Selector(Config(i), p.cond) in Aimed(i, ps, kind, j)
  {
    if p != ps[0] { AimedIn(i, ps[1..], kind, j, p); }
  }

  lemma {:induction false} SelectorIn(defs: seq<SymbolDef>, vis: seq<Event>, kind: PropertyType, j: nat, i: nat,
      p: Property)
    requires Visit(i) in vis && i < |defs| && p in defs[i].props && Target(p, kind) == Some(j)
    ensures Selector(Config(i), p.cond) in Selectors(defs, vis, kind, j)
  {
    hide Aimed;
    var last := vis[|vis| - 1];
    if last == Visit(i) {
      AimedIn(i, defs[i].props, kind, j, p);
    } else {
      SelectorIn(defs, vis[..|vis| - 1], kind, j, i, p);
    }
  }

  // ----- the dependencies around an entry -----

  /** What stands around an entry: the dependency of a menu or if, and its own; or the choice it is
      in, which takes the place of everything further out. */
  datatype Guard = Under(dep: Option<Expr>) | OfChoice(choice: nat)

  /** The way from the top of the tree to the entry of symbol i. */
  ghost predicate PathTo(nodes: seq<Node>, i: nat, path: seq<Guard>)
    decreases nodes
  {
    exists k :: 0 <= k < |nodes| && PathThrough(nodes[k], i, path)
  }

  ghost predicate PathThrough(node: Node, i: nat, path: seq<Guard>)
    decreases node
  {
    path != [] &&
    match node
    case Entry(j, dep) => j == i && path == [Under(dep)]
    case Box(dep, kids) => path[0] == Under(dep) && PathTo(kids, i, path[1..])
    case Group(c, _, _, kids) => path[0] == OfChoice(c) && PathTo(kids, i, path[1..])
  }

  /** The value of a dependency, in which a bare m is n without modules. */
  function DepLimit(env: Env, modules: Symbol, dep: Option<Expr>): Tristate {
    if dep.None? then YES else EvalM(env, if ValueOf(env, modules) == NO then NO else MOD, dep.value)
  }

  /** The smallest value on the way, starting with 'outer'. */
  function PathLimit(env: Env, modules: Symbol, path: seq<Guard>, outer: Tristate): Tristate {
    if path == [] then outer
    else
      match path[0]
      case Under(dep) => PathLimit(env, modules, path[1..], Combine(AndOp, outer, DepLimit(env, modules, dep)))
      case OfChoice(c) => PathLimit(env, modules, path[1..], env.value(c))
  }

  lemma NarrowerLimit(env: Env, modules: Symbol, spec: Option<Expr>, dep: Option<Expr>)
    ensures EvalOpt(env, Narrower(modules, spec, dep)) ==
      Combine(AndOp, EvalOpt(env, spec), DepLimit(env, modules, dep))
  {
    hide Eval, EvalM;
    AllocAndExact(env, spec, RewriteOpt(modules, dep));
    if dep.Some? { RewriteMSound(env, modules, dep.value); }
  }

  /** The dependency an entry gets has the smallest value on the way to it. */
  lemma {:induction false} PathAround(env: Env, modules: Symbol, spec: Option<Expr>, nodes: seq<Node>, i: nat,
      path: seq<Guard>) returns (full: Option<Expr>)
    requires PathTo(nodes, i, path)
    ensures Around(modules, spec, nodes, i, full)
    ensures EvalOpt(env, full) == PathLimit(env, modules, path, EvalOpt(env, spec))
    decreases nodes
  {
    hide Narrower, Combine, DepLimit;
    var k :| 0 <= k < |nodes| && PathThrough(nodes[k], i, path);
    NarrowerLimit(env, modules, spec, nodes[k].dep);
    if nodes[k].Entry? {
      full := Narrower(modules, spec, nodes[k].dep);
      assert path[1..] == [];
    } else {
      full := PathAround(env, modules, Inherited(modules, spec, nodes[k]), nodes[k].kids, i, path[1..]);
    }
  }

  /** For every bool or tristate entry of a finalized tree: it is n when a dependency around it is n,
      even if it is selected; otherwise it is at least selector && condition for every select of it in
      the whole tree; and if it is effectively a bool it is never m. */
  lemma TreeRespectsDependencies(db: Database, level: string -> Option<Tristate>, v: nat -> Value, modules: Symbol,
      nodes: seq<Node>, j: nat, path: seq<Guard>)
    requires Solution(db, v) && Compares(db, level)
    requires LevelDone(TableOf(db, level), modules, None, nodes, db.defs) && PathTo(nodes, j, path)
    requires j < |db.defs| && db.defs[j].role.Ordinary? && Switch(db.defs[j].kind)
    requires db.defs[j].revDep == Collected(None, Selectors(db.defs, Visited(nodes), Select, j))
    ensures PathLimit(EnvOf(db, v), modules, path, YES) == NO ==> v(j).tri == NO
    ensures PathLimit(EnvOf(db, v), modules, path, YES) != NO ==>
      forall i: nat, p :: Aims(db.defs, Visited(nodes), i, p, Select, j) ==>
        v(j).tri >= Combine(AndOp, v(i).tri, EvalOpt(EnvOf(db, v), p.cond))
    ensures EffectiveKind(db, db.defs[j].kind) == Boolean ==> v(j).tri != MOD
  {
    hide LevelDone, Around, Solution, Compares, Selectors, Collected, Visited, GuardedDef, PathTo, PathLimit, Aims;
    var env := EnvOf(db, v);
    var full := PathAround(env, modules, None, nodes, j, path);
    EntryDone(TableOf(db, level), modules, None, nodes, db.defs, j, full);
    SolutionConsistent(db, level, v);
    assert EvalOpt(env, db.defs[j].dirDep) == EvalOpt(env, full);
    SelectRespectsDependencies(db, level, v, j);
    if EvalOpt(env, full) != NO {
      forall i: nat, p | Aims(db.defs, Visited(nodes), i, p, Select, j)
        ensures v(j).tri >= Combine(AndOp, v(i).tri, EvalOpt(env, p.cond))
      {
        var ss := Selectors(db.defs, Visited(nodes), Select, j);
        AimsSelector(db.defs, Visited(nodes), i, p, Select, j);
        SelectIsHonoured(db, level, v, j, ss, Selector(Config(i), p.cond));
      }
    }
  }

  lemma {:induction false} AimedFrom(i: nat, ps: seq<Property>, kind: PropertyType, j: nat, s: Selector)
    requires s in Aimed(i, ps, kind, j)
    ensures exists p :: p in ps && Target(p, kind) == Some(j) && s == Selector(Config(i), p.cond)
  {
    if !(Target(ps[0], kind) == Some(j) && s == Selector(Config(i), ps[0].cond)) {
      AimedFrom(i, ps[1..], kind, j, s);
    }
  }

  /** q is the prompt given last. */
  ghost predicate LastPrompt(ps: seq<Property>, q: Property) {
    exists k :: 0 <= k < |ps| && ps[k] == q && q.kind == Prompt && forall l :: k < l < |ps| ==> ps[l].kind != Prompt
  }

  lemma {:induction false} PromptIsLast(ps: seq<Property>, q: Property)
    ensures PromptOf(ps) == Some(q) <==> LastPrompt(ps, q)
  {
    if ps != [] {
      var n := |ps| - 1;
      var front := ps[..n];
      PromptIsLast(front, q);
      if ps[n].kind == Prompt {
        assert ps[n] == q ==> LastPrompt(ps, q);
      } else {
        if LastPrompt(front, q) {
          var k :| 0 <= k < |front| && front[k] == q && q.kind == Prompt &&
            forall l :: k < l < |front| ==> front[l].kind != Prompt;
          assert ps[k] == q && forall l :: k < l < |ps| ==> ps[l].kind != Prompt;
        }
        if LastPrompt(ps, q) {
          var k :| 0 <= k < |ps| && ps[k] == q && q.kind == Prompt && forall l :: k < l < |ps| ==> ps[l].kind != Prompt;
          assert k < n && front[k] == q && forall l :: k < l < |front| ==> front[l] == ps[l];
        }
      }
    }
  }

  /** Choice j is not optional, and q is its prompt. */
  ghost predicate OwnPromptIs(defs: seq<SymbolDef>, vis: seq<Event>, j: nat, kind: PropertyType, q: Property) {
    kind == Select && Close(j) in vis && j < |defs| && LastPrompt(defs[j].props, q)
  }

  lemma {:induction false} SelectorFrom(defs: seq<SymbolDef>, vis: seq<Event>, kind: PropertyType, j: nat, s: Selector)
    requires s in Selectors(defs, vis, kind, j)
    ensures (exists i: nat, p :: Aims(defs, vis, i, p, kind, j) && s == Selector(Config(i), p.cond))
      || (exists q :: OwnPromptIs(defs, vis, j, kind, q) && s == OwnPrompt(q.cond))
  {
    hide Aimed, PromptOf, LastPrompt;
    var last, front := vis[|vis| - 1], vis[..|vis| - 1];
    if s in Selectors(defs, front, kind, j) {
      SelectorFrom(defs, front, kind, j, s);
      forall i: nat, p | Aims(defs, front, i, p, kind, j) ensures Aims(defs, vis, i, p, kind, j) { }
      forall q | OwnPromptIs(defs, front, j, kind, q) ensures OwnPromptIs(defs, vis, j, kind, q) { }
    } else if last.Visit? {
      AimedFrom(last.sym, defs[last.sym].props, kind, j, s);
      var p :| p in defs[last.sym].props && Target(p, kind) == Some(j) && s == Selector(Config(last.sym), p.cond);
      assert Aims(defs, vis, last.sym, p, kind, j);
    } else {
      var q := PromptOf(defs[j].props).value;
      PromptIsLast(defs[j].props, q);
      assert OwnPromptIs(defs, vis, j, kind, q);
    }
  }

  /** Entry i with property p asks j to be at least t. */
  ghost predicate Raises(db: Database, v: nat -> Value, vis: seq<Event>, i: nat, p: Property, kind: PropertyType,
      j: nat, t: Tristate) {
    Aims(db.defs, vis, i, p, kind, j) && v(i).tri >= t && EvalOpt(EnvOf(db, v), p.cond) >= t
  }

  ghost predicate PromptRaises(db: Database, v: nat -> Value, vis: seq<Event>, q: Property, kind: PropertyType, j: nat,
      t: Tristate) {
    OwnPromptIs(db.defs, vis, j, kind, q) && t == MOD && EvalOpt(EnvOf(db, v), q.cond) >= MOD
  }

  /** What the reverse (or implied) dependency of a symbol asks for in a finalized tree: the largest
      of selector && condition over all selects (or implies) of it in the tree, for a choice that is
      not optional also prompt && m, and no more. */
  lemma DemandsExactly(db: Database, v: nat -> Value, nodes: seq<Node>, kind: PropertyType, j: nat,
      rev: Option<Expr>, t: Tristate)
    requires rev == Collected(None, Selectors(db.defs, Visited(nodes), kind, j)) && t != NO
    ensures (rev.Some? && Eval(EnvOf(db, v), rev.value) >= t) <==>
      || (exists i: nat, p :: Raises(db, v, Visited(nodes), i, p, kind, j, t))
      || (exists q :: PromptRaises(db, v, Visited(nodes), q, kind, j, t))
  {
    hide Selectors, Collected, Visited, Aims, Target, OwnPromptIs;
    var env, vis := EnvOf(db, v), Visited(nodes);
    var ss := Selectors(db.defs, vis, kind, j);
    CollectedIsStrongest(env, None, ss);
    if Demanded(env, rev) >= t {
      var s :| s in ss && Demanded(env, rev) == Demand(env, s);
      SelectorFrom(db.defs, vis, kind, j, s);
      if s.Selector? {
        var i: nat, p :| Aims(db.defs, vis, i, p, kind, j) && s == Selector(Config(i), p.cond);
        assert Raises(db, v, vis, i, p, kind, j, t);
      } else {
        var q :| OwnPromptIs(db.defs, vis, j, kind, q) && s == OwnPrompt(q.cond);
        assert PromptRaises(db, v, vis, q, kind, j, t);
      }
    }
    forall i: nat, p | Raises(db, v, vis, i, p, kind, j, t) ensures Demanded(env, rev) >= t {
      AimsSelector(db.defs, vis, i, p, kind, j);
      assert Demand(env, Selector(Config(i), p.cond)) == Combine(AndOp, v(i).tri, EvalOpt(env, p.cond));
    }
    forall q | PromptRaises(db, v, vis, q, kind, j, t) ensures Demanded(env, rev) >= t {
      OwnSelector(db.defs, vis, j, kind, q);
      assert Demand(env, OwnPrompt(q.cond)) == Combine(AndOp, MOD, EvalOpt(env, q.cond));
    }
  }

  lemma OwnSelector(defs: seq<SymbolDef>, vis: seq<Event>, j: nat, kind: PropertyType, q: Property)
    requires OwnPromptIs(defs, vis, j, kind, q)
    ensures OwnPrompt(q.cond) in Selectors(defs, vis, kind, j)
  {
    PromptIsLast(defs[j].props, q);
    OwnDemandIn(defs, vis, j);
  }

  lemma AimsSelector(defs: seq<SymbolDef>, vis: seq<Event>, i: nat, p: Property, kind: PropertyType, j: nat)
    requires Aims(defs, vis, i, p, kind, j)
    ensures Selector(Config(i), p.cond) in Selectors(defs, vis, kind, j)
  {
    SelectorIn(defs, vis, kind, j, i, p);
  }

  // ----- choices in a finalized tree -----

  /** k is an entry of the choice these nodes belong to, possibly inside boxes. */
  ghost predicate InChoice(nodes: seq<Node>, k: nat)
    decreases nodes
  {
    exists n :: 0 <= n < |nodes| &&
      if nodes[n].Entry? then nodes[n].sym == k else nodes[n].Box? && InChoice(nodes[n].kids, k)
  }

  /** k is listed in choice c. */
  ghost predicate MemberOf(nodes: seq<Node>, c: nat, k: nat)
    decreases nodes
  {
    exists n :: 0 <= n < |nodes| && !nodes[n].Entry? &&
      ((nodes[n].Group? && nodes[n].sym == c && InChoice(nodes[n].kids, k)) || MemberOf(nodes[n].kids, c, k))
  }

  ghost predicate PromptsGuarded(t: SymbolTable, outer: Option<Expr>, d: SymbolDef) {
    forall p :: p in d.props && p.kind == Prompt ==> Guarded(t, outer, p.cond)
  }

  lemma {:induction false} GuardedInChoice(t: SymbolTable, modules: Symbol, outer: Option<Expr>, spec: Option<Expr>,
                                           nodes: seq<Node>, defs: seq<SymbolDef>, k: nat)
    requires LevelDone(t, modules, spec, nodes, defs) && InChoice(nodes, k) && Guarded(t, outer, spec)
    ensures k < |defs| && PromptsGuarded(t, outer, defs[k])
    decreases nodes
  {
    var n :| 0 <= n < |nodes| &&
      if nodes[n].Entry? then nodes[n].sym == k else nodes[n].Box? && InChoice(nodes[n].kids, k);
    assert HeadDone(t, modules, spec, nodes[n], defs);
    var inner := Narrower(modules, spec, nodes[n].dep);
    forall env | Consistent(t, env) ensures EvalOpt(env, inner) <= EvalOpt(env, outer) {
      AllocAndExact(env, spec, RewriteOpt(modules, nodes[n].dep));
    }
    if nodes[n].Box? { GuardedInChoice(t, modules, outer, inner, nodes[n].kids, defs, k); }
  }

  lemma {:induction false} GuardedInTree(t: SymbolTable, modules: Symbol, spec: Option<Expr>, nodes: seq<Node>,
                                         defs: seq<SymbolDef>, c: nat, k: nat)
    requires LevelDone(t, modules, spec, nodes, defs) && MemberOf(nodes, c, k)
    ensures k < |defs| && PromptsGuarded(t, Some(Sym(Config(c))), defs[k])
    decreases nodes
  {
    var n :| 0 <= n < |nodes| && !nodes[n].Entry? &&
      ((nodes[n].Group? && nodes[n].sym == c && InChoice(nodes[n].kids, k)) || MemberOf(nodes[n].kids, c, k));
    var inner := Inherited(modules, spec, nodes[n]);
    if MemberOf(nodes[n].kids, c, k) {
      GuardedInTree(t, modules, inner, nodes[n].kids, defs, c, k);
    } else {
      GuardedInChoice(t, modules, inner, inner, nodes[n].kids, defs, k);
    }
  }

  /** In a finalized tree that lists every member in its choice, all members are guarded, which is
      what the evaluation of choices relies on. */
  lemma TreeGuardsMembers(db: Database, level: string -> Option<Tristate>, modules: Symbol, nodes: seq<Node>)
    requires Compares(db, level) && LevelDone(TableOf(db, level), modules, None, nodes, db.defs)
    requires forall k :: 0 <= k < |db.defs| && db.defs[k].role.Member? ==> MemberOf(nodes, db.defs[k].role.choice, k)
    ensures GuardedMembers(db)
  {
    hide Compares, LevelDone, MemberOf;
    forall k | 0 <= k < |db.defs| && db.defs[k].role.Member? ensures GuardedMember(db, k) {
      GuardedInTree(TableOf(db, level), modules, None, nodes, db.defs, db.defs[k].role.choice, k);
      FinalizedMember(db, level, k);
    }
  }

  lemma {:induction false} OwnDemandIn(defs: seq<SymbolDef>, vis: seq<Event>, c: nat)
    requires Close(c) in vis && c < |defs| && PromptOf(defs[c].props).Some?
    ensures OwnPrompt(PromptOf(defs[c].props).value.cond) in Selectors(defs, vis, Select, c)
  {
    hide Aimed;
    if vis[|vis| - 1] != Close(c) { OwnDemandIn(defs, vis[..|vis| - 1], c); }
  }

  /** A choice that is not optional cannot be set to n while its prompt is visible: it is n only if
      none of its members is visible while it is y; and if it is effectively a bool, exactly then. */
  lemma MandatoryChoice(db: Database, v: nat -> Value, nodes: seq<Node>, c: nat, prompt: Property)
    requires Closed(db.defs) && Solution(db, v) && c < |db.defs| && db.defs[c].role.Choice?
    requires db.defs[c].dirDep.None? && Close(c) in Visited(nodes) && LastPrompt(db.defs[c].props, prompt)
    requires db.defs[c].revDep == Collected(None, Selectors(db.defs, Visited(nodes), Select, c))
    requires EvalOpt(EnvOf(db, v), prompt.cond) != NO
    ensures v(c).tri == NO ==>
      forall k :: k in db.defs[c].role.members ==> VisibleIn(db, EnvOf(db, Assume(v, c)), k) == NO
    ensures EffectiveKind(db, db.defs[c].kind) == Boolean ==>
      (v(c).tri == NO <==> forall k :: k in db.defs[c].role.members ==> VisibleIn(db, EnvOf(db, Assume(v, c)), k) == NO)
  {
    var env, d := EnvOf(db, v), db.defs[c];
    var ss := Selectors(db.defs, Visited(nodes), Select, c);
    PromptIsLast(d.props, prompt);
    OwnDemandIn(db.defs, Visited(nodes), c);
    CollectedIsStrongest(env, None, ss);
    assert Demanded(env, d.revDep) >= Demand(env, OwnPrompt(prompt.cond)) == MOD;
    assert WellFormedChoice(db.defs, c);
    DemandedChoice(db, v, c);
  }

  lemma DemandedChoice(db: Database, v: nat -> Value, c: nat)
    requires Closed(db.defs) && Solution(db, v) && c < |db.defs| && db.defs[c].role.Choice? && Switch(db.defs[c].kind)
    requires db.defs[c].dirDep.None? && Demanded(EnvOf(db, v), db.defs[c].revDep) != NO
    ensures v(c).tri == NO ==>
      forall k :: k in db.defs[c].role.members ==> VisibleIn(db, EnvOf(db, Assume(v, c)), k) == NO
    ensures EffectiveKind(db, db.defs[c].kind) == Boolean ==>
      (v(c).tri == NO <==> forall k :: k in db.defs[c].role.members ==> VisibleIn(db, EnvOf(db, Assume(v, c)), k) == NO)
  {
    hide PromptLimit, VisibleIn, PickIn, EnvOf, Eval, Edges, ActiveDefault;
    assert v(c) == Step(db, v, c);
    PickSpec(db, EnvOf(db, Assume(v, c)), c);
  }
}
