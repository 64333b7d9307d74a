/** The menu tree and its re-linking by menu_finalize (scripts/config/menu.c): automatic submenus
    and the flattening of nodes without a prompt. */
module MenuTree {
  import opened Expressions

  class Menu {
    var next: Menu?
    var parent: Menu?
    var list: Menu?
    const sym: Option<nat>  // the symbol of the node, if it has one
    const shown: bool       // it has a prompt with text
    const isMenu: bool      // the prompt is that of a menu (P_MENU)
  }

  /** A chain of siblings, each with its chain of children. */
  datatype Forest = Nil | Cons(m: Menu, kids: Forest, rest: Forest)

  ghost function Nodes(f: Forest): set<Menu> {
    if f.Nil? then {} else {f.m} + Nodes(f.kids) + Nodes(f.rest)
  }

  /** No node occurs twice. */
  ghost predicate Distinct(f: Forest) {
    f.Cons? ==>
      && f.m !in Nodes(f.kids) && f.m !in Nodes(f.rest) && Nodes(f.kids) !! Nodes(f.rest)
      && Distinct(f.kids) && Distinct(f.rest)
  }

  function Preorder(f: Forest): seq<Menu> {
    if f.Nil? then [] else [f.m] + Preorder(f.kids) + Preorder(f.rest)
  }

  function Append(f: Forest, g: Forest): Forest {
    if f.Nil? then g else f.(rest := Append(f.rest, g))
  }

  /** In memory: 'first' starts a chain holding f and leading to 'end'; every node of the chain has
      the given parent, and its children form a complete chain of their own. */
  ghost predicate Chain(first: Menu?, parent: Menu?, f: Forest, end: Menu?)
    reads Nodes(f)
    decreases f
  {
    if f.Nil? then first == end else
      && first == f.m && f.m.parent == parent
      && Chain(f.m.list, f.m, f.kids, null)
      && Chain(f.m.next, parent, f.rest, end)
  }

  /** Every node with children has a prompt. */
  predicate AllShown(f: Forest) {
    f.Cons? ==> (f.kids.Nil? || f.m.shown) && AllShown(f.kids) && AllShown(f.rest)
  }

  /** The same below the nodes of the chain itself. */
  predicate KidsShown(f: Forest) {
    f.Cons? ==> AllShown(f.kids) && KidsShown(f.rest)
  }

  lemma {:induction false} AppendNodes(f: Forest, g: Forest)
    ensures Nodes(Append(f, g)) == Nodes(f) + Nodes(g)
    ensures Preorder(Append(f, g)) == Preorder(f) + Preorder(g)
  {
    if f.Cons? { AppendNodes(f.rest, g); }
  }

  lemma {:induction false} AppendDistinct(f: Forest, g: Forest)
    ensures Distinct(Append(f, g)) <==> Distinct(f) && Distinct(g) && Nodes(f) !! Nodes(g)
  {
    if f.Cons? {
      AppendNodes(f.rest, g);
      AppendDistinct(f.rest, g);
    }
  }

  lemma {:induction false} AppendShown(f: Forest, g: Forest)
    ensures AllShown(Append(f, g)) <==> AllShown(f) && AllShown(g)
    ensures KidsShown(Append(f, g)) <==> KidsShown(f) && KidsShown(g)
  {
    if f.Cons? { AppendShown(f.rest, g); }
  }

  lemma AppendFacts(f: Forest, g: Forest)
    ensures Nodes(Append(f, g)) == Nodes(f) + Nodes(g)
    ensures Preorder(Append(f, g)) == Preorder(f) + Preorder(g)
    ensures Distinct(Append(f, g)) <==> Distinct(f) && Distinct(g) && Nodes(f) !! Nodes(g)
    ensures AllShown(Append(f, g)) <==> AllShown(f) && AllShown(g)
    ensures KidsShown(Append(f, g)) <==> KidsShown(f) && KidsShown(g)
  {
    AppendNodes(f, g);
    AppendDistinct(f, g);
    AppendShown(f, g);
  }

  lemma {:induction false} AppendNil(f: Forest)
    ensures Append(f, Nil) == f
  {
    if f.Cons? { AppendNil(f.rest); }
  }

  lemma {:induction false} AppendAssoc(f: Forest, g: Forest, h: Forest)
    ensures Append(Append(f, g), h) == Append(f, Append(g, h))
  {
    if f.Cons? { AppendAssoc(f.rest, g, h); }
  }

  lemma {:induction false} ChainAppend(first: Menu?, parent: Menu?, f: Forest, mid: Menu?, g: Forest, end: Menu?)
    requires Chain(first, parent, f, mid) && Chain(mid, parent, g, end)
    ensures Chain(first, parent, Append(f, g), end)
  {
    if f.Cons? { ChainAppend(f.m.next, parent, f.rest, mid, g, end); }
  }

  lemma {:induction false} AllShownKids(f: Forest)
    requires AllShown(f)
    ensures KidsShown(f)
  {
    if f.Cons? { AllShownKids(f.rest); }
  }

  lemma PreorderCons(f: Forest)
    requires f.Cons?
    ensures |Preorder(f)| == 1 + |Preorder(f.kids)| + |Preorder(f.rest)|
  {
  }

  lemma {:induction false} ChainSplit(first: Menu?, parent: Menu?, f: Forest, g: Forest, end: Menu?)
    requires Chain(first, parent, Append(f, g), end) && g.Cons?
    ensures Chain(first, parent, f, g.m) && Chain(g.m, parent, g, end)
  {
    if f.Cons? { ChainSplit(f.m.next, parent, f.rest, g, end); }
  }

  /** A forest of n nodes rearranged: the same nodes in the same preorder, none twice. */
  ghost predicate Conserved(f: Forest, g: Forest) {
    Preorder(g) == Preorder(f) && Nodes(g) == Nodes(f) && Distinct(g)
  }

  lemma Apart(done: Forest, todo: Forest)
    requires Distinct(Append(done, todo))
    ensures Distinct(done) && Distinct(todo) && Nodes(done) !! Nodes(todo)
    ensures Nodes(Append(done, todo)) == Nodes(done) + Nodes(todo)
  {
    AppendFacts(done, todo);
  }

  /** Rearranging the tail of a chain, and moving its first node to the end of the front. */
  lemma ReplaceTail(done: Forest, todo: Forest, todo': Forest)
    requires Distinct(Append(done, todo)) && Conserved(todo, todo') && todo'.Cons?
    ensures Conserved(Append(done, todo), Append(Append(done, Cons(todo'.m, todo'.kids, Nil)), todo'.rest))
  {
    var one := Cons(todo'.m, todo'.kids, Nil);
    assert Append(one, todo'.rest) == todo';
    AppendAssoc(done, one, todo'.rest);
    hide Append;
    AppendFacts(done, todo);
    AppendFacts(done, todo');
  }

  lemma ShiftOne(init: Forest, f: Forest)
    requires f.Cons?
    ensures Append(Append(init, Cons(f.m, f.kids, Nil)), f.rest) == Append(init, f)
  {
    AppendAssoc(init, Cons(f.m, f.kids, Nil), f.rest);
  }

  // ----- menu_finalize -----

  /** The re-linking done by menu_finalize on a node and its following siblings. Which siblings
      belong into the automatic submenu is left open. */
  method Finalize(self: Menu, ghost up: Menu?, ghost f: Forest, ghost s: set<Menu>) returns (ghost g: Forest)
    requires f.Cons? && f.m == self && Distinct(f) && Chain(self, up, f, null) && s == Nodes(f)
    modifies s
    ensures g.Cons? && g.m == self && Chain(self, up, g, null)
    ensures Conserved(f, g) && AllShown(g.kids)
    decreases |Preorder(f)|, 2
  {
    g := f;
    if self.list != null {
      PreorderCons(f);
      ghost var k := FinalizeChildren(self, f.kids, Nodes(f.kids));
      g := Cons(self, k, f.rest);
    } else if self.sym.Some? {
      g := AbsorbSiblings(self, up, f, s);
    }
    ghost var k := Flatten(self, g.kids, Nodes(g.kids));
    g := Cons(self, k, g.rest);
  }

  /** Automatic submenu creation for a symbol without children. */
  method AbsorbSiblings(self: Menu, ghost up: Menu?, ghost f: Forest, ghost s: set<Menu>) returns (ghost g: Forest)
    requires f.Cons? && f.m == self && f.kids.Nil? && Distinct(f) && Chain(self, up, f, null) && s == Nodes(f)
    modifies s
    ensures g.Cons? && g.m == self && Chain(self, up, g, null)
    ensures Conserved(f, g) && KidsShown(g.kids)
    decreases |Preorder(f)|, 1
  {
    PreorderCons(f);
    DistinctCons(f);
    ghost var rest := Nodes(f.rest);
    var menu, last: Menu? := self.next, null;
    ghost var init, lastKids, done, todo := Nil, Nil, Nil, f.rest;
    hide Distinct, AllShown, Preorder, Append, Nodes;
    while menu != null
      invariant self.parent == up && self.list == null
      invariant Chain(self.next, self, done, menu) && Chain(menu, up, todo, null)
      invariant Conserved(f.rest, Append(done, todo))
      invariant KidsShown(done)
      invariant if last == null then done.Nil? else
                  done == Append(init, Cons(last, lastKids, Nil)) && last.next == menu && last in s
      invariant |Preorder(todo)| <= |Preorder(f.rest)|
      decreases |Preorder(todo)|
    {
      var belongs: bool := *;
      if !belongs {
        break;
      }
      ghost var kids, after := AbsorbNext(self, menu, up, done, todo, rest);
      ghost var one := Cons(menu, kids, Nil);
      AppendFacts(done, one);
      last, init, lastKids := menu, done, kids;
      done, todo := Append(done, one), after;
      menu := menu.next;
    }
    if last != null {
      TakeSiblings(self, last, up, init, lastKids, todo, s);
    }
    g := Cons(self, done, todo);
    Regrouped(f, done, todo);
  }

  /** One more sibling, finalized and then given to its new parent. */
  method AbsorbNext(self: Menu, menu: Menu, ghost up: Menu?, ghost done: Forest, ghost todo: Forest, ghost s: set<Menu>)
    returns (ghost kids: Forest, ghost after: Forest)
    requires todo.Cons? && Chain(self.next, self, done, menu) && Chain(menu, up, todo, null)
    requires Distinct(Append(done, todo)) && Nodes(Append(done, todo)) == s && self !in s
    modifies s
    ensures Conserved(Append(done, todo), Append(Append(done, Cons(menu, kids, Nil)), after)) && AllShown(kids)
    ensures Chain(self.next, self, Append(done, Cons(menu, kids, Nil)), menu.next) && Chain(menu.next, up, after, null)
    ensures menu in s && |Preorder(after)| < |Preorder(todo)|
    decreases |Preorder(todo)|, 3
  {
    Apart(done, todo);
    PreorderCons(todo);
    hide Distinct, AllShown, Preorder, Append;
    ghost var todo' := Finalize(menu, up, todo, Nodes(todo));
    DistinctCons(todo');
    PreorderCons(todo');
    ReplaceTail(done, todo, todo');
    kids, after := todo'.kids, todo'.rest;
    MoveOver(self, menu, up, done, todo');
  }

  method MoveOver(self: Menu, menu: Menu, ghost up: Menu?, ghost done: Forest, ghost todo: Forest)
    requires todo.Cons? && Chain(self.next, self, done, menu) && Chain(menu, up, todo, null)
    requires menu !in Nodes(done) && menu !in Nodes(todo.kids) && menu !in Nodes(todo.rest) && self != menu
    modifies menu`parent
    ensures Chain(self.next, self, Append(done, Cons(menu, todo.kids, Nil)), menu.next)
    ensures Chain(menu.next, up, todo.rest, null)
  {
    hide Append;
    menu.parent := self;
    ghost var one := Cons(menu, todo.kids, Nil);
    assert Chain(self.next, self, done, menu) && Chain(menu, self, one, menu.next);
    ChainAppend(self.next, self, done, menu, one, menu.next);
  }

  /** The chain up to 'last' becomes the list of children. */
  method TakeSiblings(self: Menu, last: Menu, ghost up: Menu?, ghost init: Forest, ghost lastKids: Forest,
                      ghost todo: Forest, ghost s: set<Menu>)
    requires self.parent == up && self in s && last in s
    requires Chain(self.next, self, Append(init, Cons(last, lastKids, Nil)), last.next) &&
      Chain(last.next, up, todo, null)
    requires Distinct(Append(Append(init, Cons(last, lastKids, Nil)), todo))
    requires self !in Nodes(Append(Append(init, Cons(last, lastKids, Nil)), todo))
    requires Nodes(Append(Append(init, Cons(last, lastKids, Nil)), todo)) <= s
    modifies self, last
    ensures Chain(self, up, Cons(self, Append(init, Cons(last, lastKids, Nil)), todo), null)
  {
    hide Distinct, Preorder, AllShown, KidsShown, Append;
    ghost var one := Cons(last, lastKids, Nil);
    AppendFacts(Append(init, one), todo);
    AppendFacts(init, one);
    DistinctCons(one);
    ChainSplit(self.next, self, init, one, last.next);
    CutOff(self, last, up, init, lastKids, todo);
    ChainAppend(self.list, self, init, last, one, null);
  }

  /** The three assignments, for a chain that consists of 'init' and the last node. */
  method CutOff(self: Menu, last: Menu, ghost up: Menu?, ghost init: Forest, ghost lastKids: Forest, ghost todo: Forest)
    requires self.parent == up && self != last
    requires Chain(self.next, self, init, last) && Chain(last, self, Cons(last, lastKids, Nil), last.next)
    requires Chain(last.next, up, todo, null)
    requires self !in Nodes(init) && self !in Nodes(lastKids) && self !in Nodes(todo)
    requires last !in Nodes(init) && last !in Nodes(lastKids) && last !in Nodes(todo)
    modifies self, last
    ensures self.parent == up && self.next == old(last.next)
    ensures Chain(self.list, self, init, last) && Chain(last, self, Cons(last, lastKids, Nil), null)
    ensures Chain(self.next, up, todo, null)
  {
    self.list := self.next;
    self.next := last.next;
    last.next := null;
  }

  lemma DistinctCons(f: Forest)
    requires f.Cons? && Distinct(f)
    ensures f.m !in Nodes(f.kids) && f.m !in Nodes(f.rest) && Nodes(f.kids) !! Nodes(f.rest)
    ensures Distinct(f.kids) && Distinct(f.rest)
  {
  }

  lemma Concats(m: Menu, a: seq<Menu>, b: seq<Menu>)
    ensures [m] + [] + (a + b) == [m] + a + b
  {
  }

  lemma Regrouped(f: Forest, done: Forest, todo: Forest)
    requires f.Cons? && f.kids.Nil? && Distinct(f) && Conserved(f.rest, Append(done, todo))
    ensures Conserved(f, Cons(f.m, done, todo))
  {
    RegroupedPreorder(f, done, todo);
    RegroupedNodes(f, done, todo);
    hide *;
  }

  lemma RegroupedPreorder(f: Forest, done: Forest, todo: Forest)
    requires f.Cons? && f.kids.Nil? && Preorder(f.rest) == Preorder(Append(done, todo))
    ensures Preorder(Cons(f.m, done, todo)) == Preorder(f)
  {
    hide Nodes, Distinct, AllShown, KidsShown, Append;
    AppendFacts(done, todo);
    Concats(f.m, Preorder(done), Preorder(todo));
  }

  lemma RegroupedNodes(f: Forest, done: Forest, todo: Forest)
    requires f.Cons? && f.kids.Nil? && Distinct(f)
    requires Nodes(f.rest) == Nodes(Append(done, todo)) && Distinct(Append(done, todo))
    ensures Nodes(Cons(f.m, done, todo)) == Nodes(f) && Distinct(Cons(f.m, done, todo))
  {
    DistinctCons(f);
    hide Preorder, AllShown, KidsShown, Append, Distinct;
    AppendFacts(done, todo);
    ConsDistinct(f.m, done, todo);
  }

  lemma ConsDistinct(m: Menu, k: Forest, r: Forest)
    requires Distinct(k) && Distinct(r) && m !in Nodes(k) && m !in Nodes(r) && Nodes(k) !! Nodes(r)
    ensures Distinct(Cons(m, k, r))
  {
  }

  /** The loop that gives the children of promptless children to the node itself. */
  method Flatten(self: Menu, ghost k: Forest, ghost s: set<Menu>) returns (ghost k': Forest)
    requires Chain(self.list, self, k, null) && Distinct(k) && s == Nodes(k) && self !in s && KidsShown(k)
    modifies s
    ensures Chain(self.list, self, k', null) && Conserved(k, k') && AllShown(k')
  {
    var menu := self.list;
    ghost var done, todo := Nil, k;
    while menu != null
      invariant Chain(self.list, self, done, menu) && Chain(menu, self, todo, null)
      invariant Conserved(k, Append(done, todo))
      invariant AllShown(done) && KidsShown(todo)
      decreases |Preorder(todo)|
    {
      hide Distinct, Preorder;
      Apart(done, todo);
      PreorderCons(todo);
      ghost var todo' := todo;
      if menu.list != null && !menu.shown {
        todo' := Splice(self, menu, todo, Nodes(todo));
      }
      ghost var one := Cons(menu, todo'.kids, Nil);
      assert Chain(self.list, self, done, menu) && Chain(menu, self, one, menu.next);
      ChainAppend(self.list, self, done, menu, one, menu.next);
      ReplaceTail(done, todo, todo');
      AppendFacts(done, one);
      PreorderCons(todo');
      done, todo := Append(done, one), todo'.rest;
      menu := menu.next;
    }
    AppendNil(done);
    k' := done;
  }

  /** One promptless node: its children follow it instead. */
  method Splice(self: Menu, menu: Menu, ghost f: Forest, ghost s: set<Menu>) returns (ghost g: Forest)
    requires f.Cons? && f.m == menu && f.kids.Cons? && Chain(menu, self, f, null)
    requires Distinct(f) && s == Nodes(f) && self !in s && KidsShown(f)
    modifies s
    ensures g == Cons(menu, Nil, Append(f.kids, f.rest))
    ensures Chain(menu, self, g, null) && Conserved(f, g) && KidsShown(g)
  {
    DistinctCons(f);
    SplicedConserved(f);
    hide Distinct, Preorder, AllShown, KidsShown, Append;
    var last: Menu;
    ghost var init, lastKids;
    last, init, lastKids := Reparent(menu.list, menu, self, f.kids, Nodes(f.kids));
    LinkAfter(self, menu, last, init, lastKids, f.rest);
    g := Cons(menu, Nil, Append(f.kids, f.rest));
  }

  /** The children, now in the hands of 'self', are linked in after 'menu'. */
  method LinkAfter(self: Menu, menu: Menu, last: Menu, ghost init: Forest, ghost lastKids: Forest, ghost rest: Forest)
    requires var k := Append(init, Cons(last, lastKids, Nil));
             && Chain(menu.list, self, k, null) && Chain(menu.next, self, rest, null) && menu.parent == self
             && Distinct(k) && Nodes(k) !! Nodes(rest) && menu !in Nodes(k) && menu !in Nodes(rest)
    modifies menu, last
    ensures Chain(menu, self, Cons(menu, Nil, Append(Append(init, Cons(last, lastKids, Nil)), rest)), null)
  {
    ghost var one := Cons(last, lastKids, Nil);
    ghost var k := Append(init, one);
    hide Preorder, AllShown, KidsShown, Append;
    AppendFacts(init, one);
    DistinctCons(one);
    hide Distinct;
    ChainSplit(menu.list, self, init, one, null);
    last.next := menu.next;
    menu.next := menu.list;
    menu.list := null;
    assert Chain(last, self, one, last.next);
    ChainAppend(menu.next, self, init, last, one, last.next);
    ChainAppend(menu.next, self, k, last.next, rest, null);
  }

  lemma SplicedConserved(f: Forest)
    requires f.Cons? && Distinct(f) && KidsShown(f)
    ensures Conserved(f, Cons(f.m, Nil, Append(f.kids, f.rest)))
    ensures KidsShown(Cons(f.m, Nil, Append(f.kids, f.rest)))
  {
    SplicedShown(f);
    SplicedPreorder(f);
    SplicedNodes(f);
    hide *;
  }

  lemma SplicedShown(f: Forest)
    requires f.Cons? && KidsShown(f)
    ensures KidsShown(Cons(f.m, Nil, Append(f.kids, f.rest)))
  {
    AppendFacts(f.kids, f.rest);
    AllShownKids(f.kids);
  }

  lemma SplicedPreorder(f: Forest)
    requires f.Cons?
    ensures Preorder(Cons(f.m, Nil, Append(f.kids, f.rest))) == Preorder(f)
  {
    hide Nodes, Distinct, AllShown, KidsShown, Append;
    AppendFacts(f.kids, f.rest);
    Concats(f.m, Preorder(f.kids), Preorder(f.rest));
  }

  lemma SplicedNodes(f: Forest)
    requires f.Cons? && Distinct(f)
    ensures Nodes(Cons(f.m, Nil, Append(f.kids, f.rest))) == Nodes(f)
    ensures Distinct(Cons(f.m, Nil, Append(f.kids, f.rest)))
  {
    hide Preorder, AllShown, KidsShown, Append;
    AppendFacts(f.kids, f.rest);
  }

  /** One node gets its new parent. */
  method Adopt(ghost first: Menu, ghost from: Menu, to: Menu, menu: Menu, ghost init: Forest, ghost todo: Forest)
    requires todo.Cons? && todo.m == menu && Distinct(Append(init, todo))
    requires Chain(first, to, init, menu) && Chain(menu, from, todo, null)
    modifies menu`parent
    ensures Chain(first, to, init, menu) && Chain(menu, to, Cons(menu, todo.kids, Nil), menu.next)
    ensures Chain(menu.next, from, todo.rest, null) && menu.parent == to
    ensures menu.next == null ==> Chain(menu, to, todo, null)
  {
    hide Distinct, Preorder, Append, AllShown, KidsShown;
    Apart(init, todo);
    DistinctCons(todo);
    menu.parent := to;
  }

  /** Sets the parent of every node of a chain and finds its last node. */
  method Reparent(first: Menu, ghost from: Menu, to: Menu, ghost k: Forest, ghost s: set<Menu>)
    returns (last: Menu, ghost init: Forest, ghost lastKids: Forest)
    requires k.Cons? && Chain(first, from, k, null) && Distinct(k) && s == Nodes(k)
    modifies s
    ensures k == Append(init, Cons(last, lastKids, Nil)) && last in s
    ensures Chain(first, to, k, null)
  {
    last := first;
    ghost var todo := k;
    init := Nil;
    while true
      invariant todo.Cons? && todo.m == last && k == Append(init, todo)
      invariant Chain(first, to, init, last) && Chain(last, from, todo, null)
      decreases todo
    {
      hide Distinct, Preorder, Append, AllShown, KidsShown;
      Apart(init, todo);
      assert last in s;
      Adopt(first, from, to, last, init, todo);
      if last.next == null {
        break;
      }
      ChainAppend(first, to, init, last, Cons(last, todo.kids, Nil), last.next);
      ghost var one := Cons(last, todo.kids, Nil);
      ShiftOne(init, todo);
      init, todo := Append(init, one), todo.rest;
      last := last.next;
    }
    AppendFacts(init, todo);
    lastKids := todo.kids;
    ChainAppend(first, to, init, last, todo, null);
  }

  /** The loop that finalizes every child. */
  method FinalizeChildren(self: Menu, ghost k: Forest, ghost s: set<Menu>) returns (ghost k': Forest)
    requires Chain(self.list, self, k, null) && Distinct(k) && s == Nodes(k) && self !in s
    modifies s
    ensures Chain(self.list, self, k', null) && KidsShown(k')
    ensures Conserved(k, k')
    decreases |Preorder(k)|, 3
  {
    hide Distinct, AllShown, Preorder;
    var menu := self.list;
    ghost var done, todo := Nil, k;
    while menu != null
      invariant Chain(self.list, self, done, menu) && Chain(menu, self, todo, null)
      invariant Conserved(k, Append(done, todo))
      invariant KidsShown(done) && |Preorder(todo)| <= |Preorder(k)|
      decreases |Preorder(todo)|
    {
      Apart(done, todo);
      PreorderCons(todo);
      ghost var todo' := Finalize(menu, self, todo, Nodes(todo));
      ghost var one := Cons(menu, todo'.kids, Nil);
      assert Chain(self.list, self, done, menu) && Chain(menu, self, one, menu.next);
      ChainAppend(self.list, self, done, menu, one, menu.next);
      ReplaceTail(done, todo, todo');
      AppendFacts(done, one);
      PreorderCons(todo');
      done, todo := Append(done, one), todo'.rest;
      menu := menu.next;
    }
    assert todo.Nil?;
    AppendNil(done);
    k' := done;
  }
}
