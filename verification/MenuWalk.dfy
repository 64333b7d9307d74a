/** The stackless walk over the menu tree that writes the configuration file (conf_write in
    scripts/config/confdata.c). */
module MenuWalk {
  import opened Expressions
  import opened MenuTree

  datatype Output = Blank | Header(m: Menu) | Line(sym: nat) | EndOf(m: Menu)

  /** What has been written, the SYMBOL_WRITTEN flags, and need_newline. */
  datatype Page = Page(out: seq<Output>, written: set<nat>, needNewline: bool)

  /** Which nodes are visible, and which symbols have something to write and are no choices. */
  datatype Policy = Policy(visible: Menu -> bool, writable: nat -> bool)

  function Enter(p: Policy, m: Menu, page: Page): Page {
    if m.sym.None? then
      if p.visible(m) then Page(page.out + [Header(m)], page.written, false) else page
    else if m.sym.value !in page.written && p.writable(m.sym.value) then
      Page((if page.needNewline then page.out + [Blank] else page.out) + [Line(m.sym.value)],
           page.written + {m.sym.value}, false)
    else page
  }

  function Leave(p: Policy, m: Menu, page: Page): Page {
    if m.sym.None? && p.visible(m) && m.isMenu then Page(page.out + [EndOf(m)], page.written, true)
    else page
  }

  /** The recursive traversal: a node, its children, the end of the node, its siblings. */
  function Render(p: Policy, f: Forest, page: Page): Page {
    if f.Nil? then page
    else Render(p, f.rest, Leave(p, f.m, Render(p, f.kids, Enter(p, f.m, page))))
  }

  /** Where the walk is: the nodes above it, and what follows each of them. */
  datatype Context = Top | Inside(m: Menu, rest: Forest, outer: Context)

  ghost function ParentIn(c: Context, root: Menu): Menu {
    if c.Top? then root else c.m
  }

  ghost predicate Above(c: Context, root: Menu)
    reads *
  {
    c.Inside? ==>
      && c.m != root && c.m.parent == ParentIn(c.outer, root) && root !in Nodes(c.rest)
      && Chain(c.m.next, ParentIn(c.outer, root), c.rest, null)
      && Above(c.outer, root)
  }

  ghost function Finish(p: Policy, c: Context, page: Page): Page {
    if c.Top? then page else Finish(p, c.outer, Render(p, c.rest, Leave(p, c.m, page)))
  }

  ghost function Remaining(c: Context): nat {
    if c.Top? then 0 else 1 + 2 * |Preorder(c.rest)| + Remaining(c.outer)
  }

  method ConfWrite(root: Menu, p: Policy, ghost f: Forest) returns (page: Page)
    requires root.parent == null && root.next == null
    requires Chain(root.list, root, f, null) && root !in Nodes(f)
    ensures page == Render(p, f, Page([], {}, false))
  {
    page := Page([], {}, false);
    ghost var goal := Render(p, f, page);
    ghost var c, todo := Top, f;
    var menu := root.list;
    while menu != null
      invariant menu != null ==> todo.Cons? && Chain(menu, ParentIn(c, root), todo, null) && Above(c, root)
      invariant menu != null ==> Finish(p, c, Render(p, todo, page)) == goal && root !in Nodes(todo)
      invariant menu == null ==> page == goal
      decreases if menu == null then 0 else 1 + 2 * |Preorder(todo)| + Remaining(c)
    {
      ghost var c0 := c;
      page := Enter(p, menu, page);
      PreorderCons(todo);
      if menu.list != null {
        c := Inside(menu, todo.rest, c);
        todo := todo.kids;
        menu := menu.list;
        continue;
      }
      ghost var rest := todo.rest;
      while true
        invariant menu != null && (menu == root ==> page == goal)
        invariant menu != root ==>
                    && menu.parent == ParentIn(c, root) && Chain(menu.next, ParentIn(c, root), rest, null)
                    && Above(c, root) && root !in Nodes(rest)
                    && Finish(p, c, Render(p, rest, Leave(p, menu, page))) == goal
        invariant menu != root ==> 2 * |Preorder(rest)| + Remaining(c) < 2 * |Preorder(todo)| + Remaining(c0)
        decreases if menu == root then 0 else 1 + 2 * |Preorder(rest)| + Remaining(c)
      {
        if menu.sym.None? && p.visible(menu) && menu != root && menu.isMenu {
          page := Page(page.out + [EndOf(menu)], page.written, true);
        }
        if menu.next != null {
          todo := rest;
          menu := menu.next;
          break;
        }
        menu := menu.parent;
        if menu == null {
          break;
        }
        if menu != root {
          rest, c := c.rest, c.outer;
        }
      }
    }
  }

  // ----- what is on the page -----

  function Lines(out: seq<Output>): seq<nat> {
    if out == [] then [] else (if out[0].Line? then [out[0].sym] else []) + Lines(out[1..])
  }

  function Headers(out: seq<Output>): seq<Menu> {
    if out == [] then [] else (if out[0].Header? then [out[0].m] else []) + Headers(out[1..])
  }

  function VisibleEntries(p: Policy, s: seq<Menu>): seq<Menu> {
    if s == [] then [] else (if s[0].sym.None? && p.visible(s[0]) then [s[0]] else []) + VisibleEntries(p, s[1..])
  }

  /** Reads headers of menus as opening and ends as closing brackets; comments do not nest. */
  function Nesting(out: seq<Output>, open: seq<Menu>): Option<seq<Menu>> {
    if out == [] then Some(open)
    else if out[0].Header? && out[0].m.isMenu then Nesting(out[1..], open + [out[0].m])
    else if out[0].EndOf? then
      if open != [] && open[|open| - 1] == out[0].m then Nesting(out[1..], open[..|open| - 1]) else None
    else Nesting(out[1..], open)
  }

  lemma {:induction false} LinesAppend(a: seq<Output>, b: seq<Output>)
    ensures Lines(a + b) == Lines(a) + Lines(b)
  {
    if a == [] {
      assert a + b == b;
    } else {
      assert (a + b)[1..] == a[1..] + b;
      LinesAppend(a[1..], b);
      var first := if a[0].Line? then [a[0].sym] else [];
      assert first + (Lines(a[1..]) + Lines(b)) == first + Lines(a[1..]) + Lines(b);
    }
  }

  lemma {:induction false} HeadersAppend(a: seq<Output>, b: seq<Output>)
    ensures Headers(a + b) == Headers(a) + Headers(b)
  {
    if a == [] {
      assert a + b == b;
    } else {
      assert (a + b)[1..] == a[1..] + b;
      HeadersAppend(a[1..], b);
      var first := if a[0].Header? then [a[0].m] else [];
      assert first + (Headers(a[1..]) + Headers(b)) == first + Headers(a[1..]) + Headers(b);
    }
  }

  lemma {:induction false} NestingAppend(a: seq<Output>, b: seq<Output>, open: seq<Menu>)
    ensures Nesting(a + b, open) == if Nesting(a, open).None? then None else Nesting(b, Nesting(a, open).value)
  {
    if a == [] {
      assert a + b == b;
    } else {
      assert (a + b)[1..] == a[1..] + b;
      if a[0].Header? && a[0].m.isMenu {
        NestingAppend(a[1..], b, open + [a[0].m]);
      } else if a[0].EndOf? {
        if open != [] { NestingAppend(a[1..], b, open[..|open| - 1]); }
      } else {
        NestingAppend(a[1..], b, open);
      }
    }
  }

  lemma {:induction false} EntriesAppend(p: Policy, a: seq<Menu>, b: seq<Menu>)
    ensures VisibleEntries(p, a + b) == VisibleEntries(p, a) + VisibleEntries(p, b)
  {
    if a == [] {
      assert a + b == b;
    } else {
      assert (a + b)[1..] == a[1..] + b;
      EntriesAppend(p, a[1..], b);
      var first := if a[0].sym.None? && p.visible(a[0]) then [a[0]] else [];
      assert first + (VisibleEntries(p, a[1..]) + VisibleEntries(p, b)) ==
        first + VisibleEntries(p, a[1..]) + VisibleEntries(p, b);
    }
  }

  /** The lines on the page are those of the flagged symbols, each one once. */
  ghost predicate WrittenOnce(page: Page) {
    && (forall i, j :: 0 <= i < j < |Lines(page.out)| ==> Lines(page.out)[i] != Lines(page.out)[j])
    && (forall s :: s in Lines(page.out) <==> s in page.written)
  }

  lemma LeaveOnce(p: Policy, m: Menu, page: Page)
    requires WrittenOnce(page)
    ensures WrittenOnce(Leave(p, m, page)) && Leave(p, m, page).written == page.written
  {
    LinesAppend(page.out, [EndOf(m)]);
    assert Lines([EndOf(m)]) == [];
  }

  lemma LinesEnter(p: Policy, m: Menu, page: Page)
    ensures Lines(Enter(p, m, page).out) ==
      Lines(page.out) +
        if m.sym.Some? && m.sym.value !in page.written && p.writable(m.sym.value) then [m.sym.value] else []
  {
    LinesAppend(page.out, [Header(m)]);
    assert Lines([Header(m)]) == [];
    if m.sym.Some? && m.sym.value !in page.written && p.writable(m.sym.value) {
      LinesAppend(page.out, [Blank]);
      var before := if page.needNewline then page.out + [Blank] else page.out;
      assert Lines(before) == Lines(page.out);
      LinesAppend(before, [Line(m.sym.value)]);
      assert Lines([Line(m.sym.value)]) == [m.sym.value];
    }
  }

  lemma EnterOnce(p: Policy, m: Menu, page: Page)
    requires WrittenOnce(page)
    ensures WrittenOnce(Enter(p, m, page))
    ensures Enter(p, m, page).written == page.written + Eligible(p, [m])
  {
    hide Lines;
    LinesEnter(p, m, page);
  }

  /** The symbols of these nodes that have something to write. */
  function Eligible(p: Policy, s: seq<Menu>): set<nat> {
    if s == [] then {}
    else (if s[0].sym.Some? && p.writable(s[0].sym.value) then {s[0].sym.value} else {}) + Eligible(p, s[1..])
  }

  lemma {:induction false} EligibleAppend(p: Policy, a: seq<Menu>, b: seq<Menu>)
    ensures Eligible(p, a + b) == Eligible(p, a) + Eligible(p, b)
  {
    if a == [] {
      assert a + b == b;
    } else {
      assert (a + b)[1..] == a[1..] + b;
      EligibleAppend(p, a[1..], b);
    }
  }

  /** Every symbol of the tree that has something to write gets exactly one line. */
  lemma {:induction false} RenderOnce(p: Policy, f: Forest, page: Page)
    requires WrittenOnce(page)
    ensures WrittenOnce(Render(p, f, page))
    ensures Render(p, f, page).written == page.written + Eligible(p, Preorder(f))
  {
    if f.Cons? {
      EnterOnce(p, f.m, page);
      var p1 := Enter(p, f.m, page);
      RenderOnce(p, f.kids, p1);
      var p2 := Render(p, f.kids, p1);
      LeaveOnce(p, f.m, p2);
      RenderOnce(p, f.rest, Leave(p, f.m, p2));
      EligibleAppend(p, [f.m] + Preorder(f.kids), Preorder(f.rest));
      EligibleAppend(p, [f.m], Preorder(f.kids));
      hide WrittenOnce, Enter, Leave;
    }
  }

  /** The headers are those of the visible nodes without a symbol, in preorder. */
  lemma {:induction false} RenderHeaders(p: Policy, f: Forest, page: Page)
    ensures Headers(Render(p, f, page).out) == Headers(page.out) + VisibleEntries(p, Preorder(f))
  {
    if f.Cons? {
      EnterHeaders(p, f.m, page);
      var p1 := Enter(p, f.m, page);
      RenderHeaders(p, f.kids, p1);
      var p2 := Render(p, f.kids, p1);
      EnterHeaders(p, f.m, p2);
      RenderHeaders(p, f.rest, Leave(p, f.m, p2));
      EntriesAppend(p, [f.m] + Preorder(f.kids), Preorder(f.rest));
      EntriesAppend(p, [f.m], Preorder(f.kids));
      hide Enter, Leave;
    }
  }

  lemma EnterHeaders(p: Policy, m: Menu, page: Page)
    ensures Headers(Enter(p, m, page).out) == Headers(page.out) + VisibleEntries(p, [m])
    ensures Headers(Leave(p, m, page).out) == Headers(page.out)
  {
    HeadersAppend(page.out, [Header(m)]);
    HeadersAppend(page.out, [EndOf(m)]);
    HeadersAppend(page.out, [Blank]);
    assert Headers([Header(m)]) == [m];
    if m.sym.Some? {
      HeadersAppend(page.out, [Line(m.sym.value)]);
      HeadersAppend(page.out + [Blank], [Line(m.sym.value)]);
    }
  }

  /** Menu headers and ends are properly nested: what a subtree opens it closes. */
  lemma {:induction false} RenderNested(p: Policy, f: Forest, page: Page, open: seq<Menu>)
    requires Nesting(page.out, []) == Some(open)
    ensures Nesting(Render(p, f, page).out, []) == Some(open)
  {
    if f.Cons? {
      EnterNested(p, f.m, page, open);
      var inner := if Opens(p, f.m) then open + [f.m] else open;
      var p1 := Enter(p, f.m, page);
      RenderNested(p, f.kids, p1, inner);
      var p2 := Render(p, f.kids, p1);
      LeaveNested(p, f.m, p2, open);
      RenderNested(p, f.rest, Leave(p, f.m, p2), open);
    }
  }

  predicate Opens(p: Policy, m: Menu) { m.sym.None? && p.visible(m) && m.isMenu }

  lemma EnterNested(p: Policy, m: Menu, page: Page, open: seq<Menu>)
    requires Nesting(page.out, []) == Some(open)
    ensures Nesting(Enter(p, m, page).out, []) == Some(if Opens(p, m) then open + [m] else open)
  {
    NestingAppend(page.out, [Header(m)], []);
    NestingAppend(page.out, [Blank], []);
    if m.sym.Some? {
      NestingAppend(page.out, [Line(m.sym.value)], []);
      NestingAppend(page.out + [Blank], [Line(m.sym.value)], []);
    }
    assert [Header(m)][1..] == [];
  }

  lemma LeaveNested(p: Policy, m: Menu, page: Page, open: seq<Menu>)
    requires Nesting(page.out, []) == Some(if Opens(p, m) then open + [m] else open)
    ensures Nesting(Leave(p, m, page).out, []) == Some(open)
  {
    NestingAppend(page.out, [EndOf(m)], []);
    assert [EndOf(m)][1..] == [];
    if Opens(p, m) { assert (open + [m])[..|open + [m]| - 1] == open; }
  }

  // ----- where everything stands -----

  /** A node and the visible menus around it. */
  datatype Place = Place(m: Menu, inside: seq<Menu>)

  /** All nodes in preorder. */
  function Places(p: Policy, f: Forest, inside: seq<Menu>): seq<Place> {
    if f.Nil? then []
    else
      [Place(f.m, inside)] + Places(p, f.kids, if Opens(p, f.m) then inside + [f.m] else inside)
      + Places(p, f.rest, inside)
  }

  /** A header or line, and the menus that are open where it stands. */
  datatype Item = Item(what: Output, inside: seq<Menu>)

  function Items(out: seq<Output>, open: seq<Menu>): seq<Item> {
    if out == [] then []
    else match out[0]
      case Header(m) => [Item(out[0], open)] + Items(out[1..], if m.isMenu then open + [m] else open)
      case Line(_) => [Item(out[0], open)] + Items(out[1..], open)
      case EndOf(_) => Items(out[1..], if open != [] then open[..|open| - 1] else open)
      case Blank => Items(out[1..], open)
  }

  /** What is due at these places, when the symbols in 'written' have been written before. */
  function Due(p: Policy, places: seq<Place>, written: set<nat>): seq<Item> {
    if places == [] then []
    else
      var m := places[0].m;
      if m.sym.None? then
        (if p.visible(m) then [Item(Header(m), places[0].inside)] else []) + Due(p, places[1..], written)
      else if p.writable(m.sym.value) && m.sym.value !in written then
        [Item(Line(m.sym.value), places[0].inside)] + Due(p, places[1..], written + {m.sym.value})
      else Due(p, places[1..], written)
  }

  lemma {:induction false} ItemsAppend(a: seq<Output>, b: seq<Output>, open: seq<Menu>)
    requires Nesting(a, open).Some?
    ensures Items(a + b, open) == Items(a, open) + Items(b, Nesting(a, open).value)
  {
    if a == [] {
      assert a + b == b;
    } else {
      assert (a + b)[1..] == a[1..] + b;
      var open' := match a[0]
        case Header(m) => if m.isMenu then open + [m] else open
        case EndOf(_) => open[..|open| - 1]
        case _ => open;
      ItemsAppend(a[1..], b, open');
      var tail, more := Items(a[1..], open'), Items(b, Nesting(a[1..], open').value);
      assert [Item(a[0], open)] + (tail + more) == [Item(a[0], open)] + tail + more;
    }
  }

  lemma {:induction false} DueAppend(p: Policy, a: seq<Place>, b: seq<Place>, written: set<nat>)
    ensures Due(p, a + b, written) == Due(p, a, written) + Due(p, b, written + Eligible(p, MenusOf(a)))
  {
    if a == [] {
      assert a + b == b && written + {} == written;
    } else {
      assert (a + b)[1..] == a[1..] + b && MenusOf(a)[1..] == MenusOf(a[1..]);
      var m := a[0].m;
      var now := if m.sym.Some? && p.writable(m.sym.value) && m.sym.value !in written then {m.sym.value} else {};
      DueAppend(p, a[1..], b, written + now);
      assert written + now + Eligible(p, MenusOf(a[1..])) == written + Eligible(p, MenusOf(a));
      assert now == {} ==> written + now == written;
      hide Due, Eligible, MenusOf;
    }
  }

  function MenusOf(places: seq<Place>): seq<Menu> {
    if places == [] then [] else [places[0].m] + MenusOf(places[1..])
  }

  lemma {:induction false} MenusAppend(a: seq<Place>, b: seq<Place>)
    ensures MenusOf(a + b) == MenusOf(a) + MenusOf(b)
  {
    if a == [] {
      assert a + b == b;
    } else {
      assert (a + b)[1..] == a[1..] + b;
      MenusAppend(a[1..], b);
    }
  }

  lemma {:induction false} PlacesPreorder(p: Policy, f: Forest, inside: seq<Menu>)
    ensures MenusOf(Places(p, f, inside)) == Preorder(f)
  {
    if f.Cons? {
      var below := if Opens(p, f.m) then inside + [f.m] else inside;
      PlacesPreorder(p, f.kids, below);
      PlacesPreorder(p, f.rest, inside);
      MenusAppend([Place(f.m, inside)] + Places(p, f.kids, below), Places(p, f.rest, inside));
      MenusAppend([Place(f.m, inside)], Places(p, f.kids, below));
      assert MenusOf([Place(f.m, inside)]) == [f.m];
    }
  }

  lemma EnterItems(p: Policy, m: Menu, page: Page, open: seq<Menu>)
    requires Nesting(page.out, []) == Some(open)
    ensures Items(Enter(p, m, page).out, []) == Items(page.out, []) + Due(p, [Place(m, open)], page.written)
    ensures Enter(p, m, page).written == page.written + Eligible(p, [m])
  {
    ItemsAppend(page.out, [Header(m)], []);
    ItemsAppend(page.out, [Blank], []);
    NestingAppend(page.out, [Blank], []);
    assert Items([Header(m)], open) == [Item(Header(m), open)];
    assert Items([Blank], open) == [] && Nesting([Blank], open) == Some(open);
    if m.sym.Some? {
      var line := Line(m.sym.value);
      assert Items([line], open) == [Item(line, open)];
      ItemsAppend(page.out, [line], []);
      ItemsAppend(page.out + [Blank], [line], []);
    }
    hide Nesting;
  }

  lemma LeaveItems(p: Policy, m: Menu, page: Page, open: seq<Menu>)
    requires Nesting(page.out, []) == Some(open)
    ensures Items(Leave(p, m, page).out, []) == Items(page.out, []) && Leave(p, m, page).written == page.written
  {
    ItemsAppend(page.out, [EndOf(m)], []);
    assert Items([EndOf(m)], open) == [];
  }

  /** Every header and line that is due stands on the page, in the order of the tree, inside exactly
      the visible menus around its node, and nothing else does. */
  lemma {:induction false} RenderPlaces(p: Policy, f: Forest, page: Page, open: seq<Menu>)
    requires Nesting(page.out, []) == Some(open)
    ensures Items(Render(p, f, page).out, []) == Items(page.out, []) + Due(p, Places(p, f, open), page.written)
    ensures Render(p, f, page).written == page.written + Eligible(p, Preorder(f))
  {
    if f.Cons? {
      hide Enter, Leave, Nesting, Items, Due, Places, Eligible, Preorder;
      var inner := if Opens(p, f.m) then open + [f.m] else open;
      var p1 := Enter(p, f.m, page);
      EnterItems(p, f.m, page, open);
      EnterNested(p, f.m, page, open);
      RenderPlaces(p, f.kids, p1, inner);
      RenderNested(p, f.kids, p1, inner);
      var p2 := Render(p, f.kids, p1);
      LeaveItems(p, f.m, p2, inner);
      LeaveNested(p, f.m, p2, open);
      RenderPlaces(p, f.rest, Leave(p, f.m, p2), open);
      DuePlaces(p, f, open, page.written);
      EligibleCons(p, f);
      var w1 := p1.written;
      Grouped(Items(page.out, []), Due(p, [Place(f.m, open)], page.written), Due(p, Places(p, f.kids, inner), w1),
              Due(p, Places(p, f.rest, open), p2.written));
      assert page.written + Eligible(p, [f.m]) + Eligible(p, Preorder(f.kids)) + Eligible(p, Preorder(f.rest))
        == page.written + Eligible(p, Preorder(f));
    }
  }

  lemma Grouped<T>(a: seq<T>, b: seq<T>, c: seq<T>, d: seq<T>)
    ensures a + b + c + d == a + (b + c + d)
  {
  }

  lemma EligibleCons(p: Policy, f: Forest)
    requires f.Cons?
    ensures Eligible(p, Preorder(f)) ==
      Eligible(p, [f.m]) + Eligible(p, Preorder(f.kids)) + Eligible(p, Preorder(f.rest))
  {
    hide Eligible;
    EligibleAppend(p, [f.m] + Preorder(f.kids), Preorder(f.rest));
    EligibleAppend(p, [f.m], Preorder(f.kids));
  }

  lemma DuePlaces(p: Policy, f: Forest, open: seq<Menu>, written: set<nat>)
    requires f.Cons?
    ensures var inner := if Opens(p, f.m) then open + [f.m] else open;
      var w1 := written + Eligible(p, [f.m]);
      Due(p, Places(p, f, open), written) ==
        Due(p, [Place(f.m, open)], written) + Due(p, Places(p, f.kids, inner), w1)
        + Due(p, Places(p, f.rest, open), w1 + Eligible(p, Preorder(f.kids)))
  {
    hide Due, Eligible;
    var inner := if Opens(p, f.m) then open + [f.m] else open;
    var first, kids, rest := [Place(f.m, open)], Places(p, f.kids, inner), Places(p, f.rest, open);
    DueAppend(p, first + kids, rest, written);
    DueAppend(p, first, kids, written);
    MenusAppend(first, kids);
    PlacesPreorder(p, f.kids, inner);
    assert MenusOf(first) == [f.m];
    EligibleAppend(p, [f.m], Preorder(f.kids));
    var e1, e2 := Eligible(p, [f.m]), Eligible(p, Preorder(f.kids));
    assert written + (e1 + e2) == written + e1 + e2;
  }

  // ----- blank lines -----

  predicate MayFollow(a: Output, b: Output) {
    && (b.Blank? ==> a.EndOf?) && (a.Blank? ==> b.Line?) && (a.EndOf? ==> !b.Line?)
  }

  /** A blank line stands exactly between the end of a menu and the line of a symbol behind it. */
  ghost predicate Spaced(out: seq<Output>) {
    && (forall i :: 1 <= i < |out| ==> MayFollow(out[i - 1], out[i]))
    && (out != [] ==> !out[0].Blank? && !out[|out| - 1].Blank?)
  }

  ghost predicate AfterEnd(page: Page) {
    page.needNewline <==> page.out != [] && page.out[|page.out| - 1].EndOf?
  }

  lemma EnterSpaced(p: Policy, m: Menu, page: Page)
    requires Spaced(page.out) && AfterEnd(page)
    ensures Spaced(Enter(p, m, page).out) && AfterEnd(Enter(p, m, page))
    ensures Spaced(Leave(p, m, page).out) && AfterEnd(Leave(p, m, page))
  {
    hide Spaced;
    SpacedMore(page.out, Header(m));
    SpacedMore(page.out, EndOf(m));
    if m.sym.Some? { SpacedMore(page.out, Line(m.sym.value)); }
  }

  lemma SpacedMore(out: seq<Output>, x: Output)
    requires Spaced(out) && !x.Blank?
    ensures !x.Line? || out == [] || !out[|out| - 1].EndOf? ==> Spaced(out + [x])
    ensures x.Line? && out != [] && out[|out| - 1].EndOf? ==> Spaced(out + [Blank] + [x])
  {
    if out == [] {
    } else if x.Line? && out[|out| - 1].EndOf? {
      assert MayFollow(out[|out| - 1], Blank) && MayFollow(Blank, x);
    } else {
      assert MayFollow(out[|out| - 1], x);
    }
    hide MayFollow;
  }

  lemma {:induction false} RenderSpaced(p: Policy, f: Forest, page: Page)
    requires Spaced(page.out) && AfterEnd(page)
    ensures Spaced(Render(p, f, page).out) && AfterEnd(Render(p, f, page))
  {
    if f.Cons? {
      hide Spaced, AfterEnd, Enter, Leave;
      EnterSpaced(p, f.m, page);
      RenderSpaced(p, f.kids, Enter(p, f.m, page));
      EnterSpaced(p, f.m, Render(p, f.kids, Enter(p, f.m, page)));
      RenderSpaced(p, f.rest, Leave(p, f.m, Render(p, f.kids, Enter(p, f.m, page))));
    }
  }
}
