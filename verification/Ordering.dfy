/** Which symbols can be put in an order, and what selecting has to do with it (sym_check_sym_deps of
    scripts/config/symbol.c). */
module Ordering {
  import opened Expressions
  import opened Symbols
  import opened Transform

  predicate Occurs(e: Option<Expr>, j: nat) { e.Some? && Contains(e.value, Config(j)) }

  /** The value of a symbol is computed from j: it occurs in the direct, reverse or implied dependency,
      in the condition of a prompt or default, or in what a default stands for. What a symbol selects
      or implies is none of these. */
  ghost predicate Needs(d: SymbolDef, j: nat) {
    || Occurs(d.dirDep, j) || Occurs(d.revDep, j) || Occurs(d.implied, j)
    || (exists p :: p in d.props && p.kind in {Prompt, Default, Preset, Where} && Occurs(p.cond, j))
    || (exists p :: p in d.props && p.kind == Default && Occurs(p.value, j))
  }

  /** A choice stands for itself and its members. */
  function Head(defs: seq<SymbolDef>, i: nat): nat {
    if i < |defs| && defs[i].role.Member? then defs[i].role.choice else i
  }

  /** Every symbol comes after what it needs, a choice and its members as one; a member may need its
      own choice. */
  ghost predicate InOrder(defs: seq<SymbolDef>, rank: nat -> nat) {
    forall i: nat, j: nat :: i < |defs| && Needs(defs[i], j) ==>
      defs[i].role == Member(j) || rank(Head(defs, j)) < rank(Head(defs, i))
  }

  // ----- what is followed is what is needed -----

  lemma {:induction false} IdsOccur(e: Expr, j: nat)
    ensures j in Ids(e) <==> Contains(e, Config(j))
  {
    match e
    case Not(a) => IdsOccur(a, j);
    case Bin(_, l, r) => IdsOccur(l, j); IdsOccur(r, j);
    case _ =>
  }

  lemma OptIdsOccur(e: Option<Expr>, j: nat)
    ensures j in OptIds(e) <==> Occurs(e, j)
  {
    if e.Some? { IdsOccur(e.value, j); }
  }

  ghost predicate PropertyNeeds(p: Property, j: nat) {
    || (p.kind in {Prompt, Default, Preset, Where} && Occurs(p.cond, j))
    || (p.kind == Default && Occurs(p.value, j))
  }

  lemma {:induction false} PropsIdsOccur(ps: seq<Property>, j: nat)
    ensures j in PropsIds(ps) <==> exists p :: p in ps && PropertyNeeds(p, j)
  {
    if ps != [] {
      var p := ps[0];
      OptIdsOccur(p.cond, j);
      OptIdsOccur(p.value, j);
      PropsIdsOccur(ps[1..], j);
      assert ps == [p] + ps[1..];
      assert j in PropertyIds(p) <==> PropertyNeeds(p, j);
      hide PropertyNeeds, OptIds, PropertyIds;
    }
  }

  lemma EdgesNeeded(defs: seq<SymbolDef>, i: nat, j: nat)
    requires i < |defs|
    ensures j in Edges(defs, i) <==> Needs(defs[i], j)
  {
    var d := defs[i];
    OptIdsOccur(d.dirDep, j);
    OptIdsOccur(d.revDep, j);
    OptIdsOccur(d.implied, j);
    PropsIdsOccur(d.props, j);
    hide OptIds, PropsIds, Occurs;
  }

  // ----- an order of the groups is an order of the symbols -----

  lemma MentionsHead(defs: seq<SymbolDef>, i: nat, j: nat)
    requires Closed(defs) && i < |defs| && Mentions(defs, i, j)
    ensures exists m: nat :: Needs(defs[i], m) && (m == j || (m < |defs| && defs[m].role == Member(j)))
  {
    hide Edges, Needs;
    if j in Edges(defs, i) {
      EdgesNeeded(defs, i, j);
    } else {
      var m :| m in Edges(defs, i) && m < |defs| && defs[m].role == Member(j);
      EdgesNeeded(defs, i, m);
    }
  }

  lemma HeadOfChoice(defs: seq<SymbolDef>, c: nat)
    requires Closed(defs) && c < |defs| && defs[c].role.Member?
    ensures Head(defs, defs[c].role.choice) == defs[c].role.choice
    ensures var h := defs[c].role.choice; h < |defs| && defs[h].role.Choice?
  {
    hide Edges;
  }

  /** Members come right after their choice. */
  function GroupRank(defs: seq<SymbolDef>, rank: nat -> nat, i: nat): nat {
    2 * rank(Head(defs, i)) + if Head(defs, i) == i then 0 else 1
  }

  lemma InOrderRanked(defs: seq<SymbolDef>, rank: nat -> nat)
    requires Closed(defs) && InOrder(defs, rank)
    ensures Ranked(defs, (i: nat) => GroupRank(defs, rank, i))
  {
    hide Edges, Needs, Mentions;
    var r := (i: nat) => GroupRank(defs, rank, i);
    forall i, j | 0 <= i < |defs| && Links(defs, i, j) ensures r(j) < r(i) {
      if defs[i].role == Member(j) {
        HeadOfChoice(defs, i);
      } else if Mentions(defs, i, j) {
        MentionsFalls(defs, rank, i, j);
      } else {
        var k :| k in defs[i].role.members && Mentions(defs, k, j);
        assert WellFormedChoice(defs, i);
        MentionsFalls(defs, rank, k, j);
      }
    }
  }

  lemma MentionsFalls(defs: seq<SymbolDef>, rank: nat -> nat, i: nat, j: nat)
    requires Closed(defs) && InOrder(defs, rank) && i < |defs| && Mentions(defs, i, j) && defs[i].role != Member(j)
    ensures rank(Head(defs, j)) < rank(Head(defs, i))
  {
    hide Edges, Needs, Mentions, Closed;
    MentionsHead(defs, i, j);
    var m: nat :| Needs(defs[i], m) && (m == j || (m < |defs| && defs[m].role == Member(j)));
    if defs[i].role.Member? { HeadOfChoice(defs, i); }
    if m != j {
      HeadOfChoice(defs, m);
      assert Head(defs, m) == j && defs[i].role != Member(m);
    }
    assert rank(Head(defs, m)) < rank(Head(defs, i));
  }

  lemma RankedInOrder(defs: seq<SymbolDef>, rank: nat -> nat)
    requires Closed(defs) && Ranked(defs, rank)
    ensures InOrder(defs, (i: nat) => rank(i))
  {
    hide Edges, Needs;
    forall i: nat, j: nat | i < |defs| && Needs(defs[i], j)
      ensures defs[i].role == Member(j) || rank(Head(defs, j)) < rank(Head(defs, i))
    {
      EdgesNeeded(defs, i, j);
      if defs[i].role != Member(j) { NeedsFall(defs, rank, i, j); }
    }
  }

  lemma NeedsFall(defs: seq<SymbolDef>, rank: nat -> nat, i: nat, j: nat)
    requires Closed(defs) && Ranked(defs, rank) && i < |defs| && j in Edges(defs, i) && defs[i].role != Member(j)
    ensures rank(Head(defs, j)) < rank(Head(defs, i))
  {
    hide Edges;
    var h, c := Head(defs, j), Head(defs, i);
    assert Mentions(defs, i, j) && Mentions(defs, i, h);
    if c == i {
      assert Links(defs, i, h);
    } else {
      assert WellFormedChoice(defs, c) && i in defs[c].role.members;
      assert Inner(defs, c, j) && Links(defs, c, j);
      assert h == c ==> Links(defs, j, c);
      assert h != c ==> Inner(defs, c, h) && Links(defs, c, h);
    }
  }

  ghost predicate Orderable(defs: seq<SymbolDef>) { exists rank: nat -> nat :: InOrder(defs, rank) }

  lemma OrderableAcyclic(defs: seq<SymbolDef>)
    requires Closed(defs) && Orderable(defs)
    ensures !Cyclic(defs)
  {
    hide Closed, InOrder, Ranked, Cyclic;
    var rank: nat -> nat :| InOrder(defs, rank);
    InOrderRanked(defs, rank);
    RankedAcyclic(defs, (i: nat) => GroupRank(defs, rank, i));
  }

  lemma RankedOrderable(defs: seq<SymbolDef>, rank: nat -> nat)
    requires Closed(defs) && Ranked(defs, rank)
    ensures Orderable(defs)
  {
    hide Closed, InOrder, Ranked;
    RankedInOrder(defs, rank);
  }

  // ----- selecting closes no cycle by itself -----

  /** The properties that are followed. */
  function Followed(ps: seq<Property>): seq<Property> {
    if ps == [] then []
    else (if ps[0].kind in {Select, Imply} then [] else [ps[0]]) + Followed(ps[1..])
  }

  /** The same table but for what symbols select and imply. */
  ghost predicate SelectsDiffer(a: seq<SymbolDef>, b: seq<SymbolDef>) {
    |a| == |b| && forall i :: 0 <= i < |a| ==>
      b[i] == a[i].(props := b[i].props) && Followed(a[i].props) == Followed(b[i].props)
  }

  lemma {:induction false} FollowedIds(ps: seq<Property>)
    ensures PropsIds(ps) == PropsIds(Followed(ps))
  {
    if ps != [] {
      FollowedIds(ps[1..]);
      var rest := Followed(ps[1..]);
      assert [] + rest == rest && ([ps[0]] + rest)[1..] == rest;
      assert [] + PropsIds(rest) == PropsIds(rest);
    }
  }

  lemma SelectsSameEdges(a: seq<SymbolDef>, b: seq<SymbolDef>, i: nat)
    requires SelectsDiffer(a, b)
    ensures Edges(a, i) == Edges(b, i)
  {
    if i < |a| {
      FollowedIds(a[i].props);
      FollowedIds(b[i].props);
    }
  }

  lemma SelectsSameLinks(a: seq<SymbolDef>, b: seq<SymbolDef>, i: nat, j: nat)
    requires SelectsDiffer(a, b)
    ensures Links(a, i, j) <==> Links(b, i, j)
    ensures Inner(a, i, j) <==> Inner(b, i, j)
    ensures HardLinks(a, i, j) <==> HardLinks(b, i, j)
  {
    hide Edges;
    forall k: nat ensures Edges(a, k) == Edges(b, k) { SelectsSameEdges(a, b, k); }
    forall k: nat, m: nat ensures Mentions(a, k, m) <==> Mentions(b, k, m) { }
    hide Mentions;
  }

  lemma {:induction false} SelectsSamePath(a: seq<SymbolDef>, b: seq<SymbolDef>, p: seq<nat>)
    requires SelectsDiffer(a, b)
    ensures IsPath(a, p) <==> IsPath(b, p)
    ensures IsHardPath(a, p) <==> IsHardPath(b, p)
  {
    hide Links, HardLinks, SelectsDiffer;
    if |p| >= 2 {
      SelectsSameLinks(a, b, p[0], p[1]);
      SelectsSamePath(a, b, p[1..]);
    }
  }

  /** What the check says does not depend on what symbols select and imply, beyond the reverse and
      implied dependencies that come from it. */
  lemma SelectsSameCycles(a: seq<SymbolDef>, b: seq<SymbolDef>)
    requires SelectsDiffer(a, b)
    ensures Cyclic(a) <==> Cyclic(b)
    ensures HardCyclic(a) <==> HardCyclic(b)
    ensures Detour(a) <==> Detour(b)
  {
    hide IsPath, IsHardPath, Inner, SelectsDiffer;
    forall p: seq<nat> ensures (IsPath(a, p) <==> IsPath(b, p)) && (IsHardPath(a, p) <==> IsHardPath(b, p)) {
      SelectsSamePath(a, b, p);
    }
    forall i: nat, j: nat ensures Inner(a, i, j) <==> Inner(b, i, j) { SelectsSameLinks(a, b, i, j); }
    forall c: nat, p: seq<nat> ensures DetourPath(a, c, p) <==> DetourPath(b, c, p) { }
  }
}
