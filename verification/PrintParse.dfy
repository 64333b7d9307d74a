/** Writing an expression as tokens and reading it back (scripts/config/expr.c, parser.y). */
module PrintParse {
  import opened Expressions

  datatype Token = Word(sym: Symbol) | Sign(rel: Rel) | Bang | Join(op: Op) | Open | Close

  // ----- writing -----

  /** The expression types that can stand around or inside a printed expression. */
  datatype Kind = NoKind | ListKind | RangeKind | SymbolKind | BinKind(op: Op) | NotKind | CompareKind(rel: Rel)

  function KindOf(e: Expr): Kind {
    match e
    case Sym(_) => SymbolKind
    case Compare(rel, _, _) => CompareKind(rel)
    case Not(_) => NotKind
    case Bin(op, _, _) => BinKind(op)
  }

  /** How tightly a type binds; None for the types that never take parentheses. */
  function Binding(k: Kind): Option<nat> {
    match k
    case NoKind => Some(0)
    case ListKind => Some(1)
    case BinKind(OrOp) => Some(2)
    case BinKind(AndOp) => Some(3)
    case NotKind => Some(4)
    case CompareKind(Eq) => Some(5)
    case CompareKind(Ne) => Some(5)
    case CompareKind(_) => Some(6)
    case _ => None
  }

  predicate Tighter(k1: Kind, k2: Kind) {
    Binding(k1).Some? && Binding(k2).Some? && Binding(k1).value > Binding(k2).value
  }

  /** The types below each other in the switch of expr_compare_type: a case that does not return
      falls into the next one. */
  function CompareType(t1: Kind, t2: Kind): (r: int)
    ensures r > 0 <==> Tighter(t1, t2)
    ensures r == 0 <==> t1 == t2
  {
    if t1 == t2 then 0
    else match t1
      case CompareKind(rel) =>
        if rel != Eq && rel != Ne && (t2 == CompareKind(Eq) || t2 == CompareKind(Ne)) then 1
        else if t2 == NotKind then 1
        else BelowNot(t2)
      case NotKind => BelowNot(t2)
      case BinKind(AndOp) => if t2 == BinKind(OrOp) then 1 else BelowOr(t2)
      case BinKind(OrOp) => BelowOr(t2)
      case ListKind => if t2 == NoKind then 1 else -1
      case _ => -1
  }

  function BelowNot(t2: Kind): int {
    if t2 == BinKind(AndOp) || t2 == BinKind(OrOp) then 1 else BelowOr(t2)
  }

  function BelowOr(t2: Kind): int {
    if t2 == ListKind || t2 == NoKind then 1 else -1
  }

  /** What expr_print hands to its callback, token by token. */
  function Print(e: Expr, prev: Kind): seq<Token>
    decreases e, 1
  {
    if CompareType(prev, KindOf(e)) > 0 then [Open] + Inner(e) + [Close] else Inner(e)
  }

  function Inner(e: Expr): seq<Token>
    decreases e, 0
  {
    match e
    case Sym(s) => [Word(s)]
    case Compare(rel, l, r) => [Word(l), Sign(rel), Word(r)]
    case Not(a) => [Bang] + Print(a, NotKind)
    case Bin(op, l, r) => Print(l, BinKind(op)) + [Join(op)] + Print(r, BinKind(op))
  }

  function PrintOpt(e: Option<Expr>): seq<Token> {
    if e.None? then [Word(SymYes)] else Print(e.value, NoKind)
  }

  // ----- reading -----

  /** A grammar symbol on the parser's stack: a token, a symbol not yet taken as an expression, or
      an expression. */
  datatype Item = Tok(token: Token) | Name(sym: Symbol) | Tree(tree: Expr)
  datatype Stack = Bottom | Push(below: Stack, top: Item)

  datatype Action = Shift | Reduce(stack: Stack) | Accept(tree: Expr) | Error

  predicate StartsExpr(input: seq<Token>) { input != [] && (input[0].Word? || input[0].Bang? || input[0].Open?) }

  /** The parser's move: %left T_OR, %left T_AND, %nonassoc T_NOT settle the conflicts. */
  function Move(stack: Stack, input: seq<Token>): (r: Action)
    ensures r.Shift? ==> input != []
    ensures r.Reduce? ==> Weight(r.stack) < Weight(stack)
  {
    match stack
    case Push(below, Name(s)) => AfterName(below, s, input)
    case Push(below, Tree(e)) => AfterTree(below, e, input)
    case Push(below, Tok(Close)) => AfterClose(below)
    case Push(_, Tok(Sign(_))) => if input != [] && input[0].Word? then Shift else Error
    case _ => if StartsExpr(input) then Shift else Error
  }

  function AfterName(below: Stack, s: Symbol, input: seq<Token>): (r: Action)
    ensures r.Shift? ==> input != []
    ensures r.Reduce? ==> Weight(r.stack) <= Weight(below) + 1
  {
    match below
    case Push(Push(under, Name(l)), Tok(Sign(rel))) => Reduce(Push(under, Tree(Compare(rel, l, s))))
    case _ => if input != [] && input[0].Sign? then Shift else Reduce(Push(below, Tree(Sym(s))))
  }

  function AfterTree(below: Stack, e: Expr, input: seq<Token>): (r: Action)
    ensures r.Shift? ==> input != []
    ensures r.Reduce? ==> Weight(r.stack) <= Weight(below)
  {
    match below
    case Push(under, Tok(Bang)) => Reduce(Push(under, Tree(Not(e))))
    case Push(Push(under, Tree(l)), Tok(Join(op))) =>
      if op == OrOp && input != [] && input[0] == Join(AndOp) then Shift
      else Reduce(Push(under, Tree(Bin(op, l, e))))
    case Push(_, Tok(Open)) => if input != [] && (input[0].Close? || input[0].Join?) then Shift else Error
    case Bottom => if input == [] then Accept(e) else if input[0].Join? then Shift else Error
    case _ => Error
  }

  function AfterClose(below: Stack): (r: Action)
    ensures !r.Shift?
    ensures r.Reduce? ==> Weight(r.stack) <= Weight(below)
  {
    match below
    case Push(Push(under, Tok(Open)), Tree(e)) => Reduce(Push(under, Tree(e)))
    case _ => Error
  }

  /** The stack item a shifted token becomes: a word is reduced to a symbol at once. */
  function Shifted(t: Token): Item {
    if t.Word? then Name(t.sym) else Tok(t)
  }

  function Weight(stack: Stack): nat {
    match stack
    case Bottom => 0
    case Push(below, Tree(_)) => Weight(below) + 1
    case Push(below, _) => Weight(below) + 2
  }

  /** The expression the parser builds, or None for a syntax error. */
  function Run(stack: Stack, input: seq<Token>): Option<Expr>
    decreases 3 * |input| + Weight(stack)
  {
    match Move(stack, input)
    case Shift => Run(Push(stack, Shifted(input[0])), input[1..])
    case Reduce(after) => Run(after, input)
    case Accept(e) => Some(e)
    case Error => None
  }

  method Parse(tokens: seq<Token>) returns (r: Option<Expr>)
    ensures r == Run(Bottom, tokens)
  {
    var stack, at := Bottom, 0;
    while true
      invariant at <= |tokens|
      invariant Run(Bottom, tokens) == Run(stack, tokens[at..])
      decreases 3 * (|tokens| - at) + Weight(stack)
    {
      match Move(stack, tokens[at..]) {
        case Shift =>
          assert tokens[at..][1..] == tokens[at + 1..];
          stack := Push(stack, Shifted(tokens[at]));
          at := at + 1;
        case Reduce(after) => stack := after;
        case Accept(e) => return Some(e);
        case Error => return None;
      }
    }
  }

  // ----- what is read back -----

  /** The same operands with every chain of one operator leaning to the left. */
  function LeftLeaning(e: Expr): Expr
    decreases e, 0
  {
    match e
    case Not(a) => Not(LeftLeaning(a))
    case Bin(op, l, r) => Attach(LeftLeaning(l), op, r)
    case _ => e
  }

  function Attach(x: Expr, op: Op, r: Expr): Expr
    decreases r, 1
  {
    if r.Bin? && r.op == op then Attach(Attach(x, op, r.left), op, r.right) else Bin(op, x, LeftLeaning(r))
  }

  /** The strength of the operator waiting under the next operand. */
  function Pending(stack: Stack): nat {
    match stack
    case Push(_, Tok(Join(OrOp))) => 2
    case Push(_, Tok(Join(AndOp))) => 3
    case Push(_, Tok(Bang)) => 4
    case _ => 0
  }

  /** The places where an expression may start. */
  predicate Ready(stack: Stack) {
    match stack
    case Bottom => true
    case Push(_, Tok(Bang)) => true
    case Push(_, Tok(Open)) => true
    case Push(Push(_, Tree(_)), Tok(Join(_))) => true
    case _ => false
  }

  /** The strength of the operator that follows an expression; None when nothing that can follow
      one comes next. */
  function Following(rest: seq<Token>): Option<nat> {
    if rest == [] || rest[0] == Close then Some(0)
    else if rest[0] == Join(OrOp) then Some(2)
    else if rest[0] == Join(AndOp) then Some(3)
    else None
  }

  function Strength(e: Expr): nat {
    match e
    case Bin(OrOp, _, _) => 2
    case Bin(AndOp, _, _) => 3
    case _ => 5
  }

  predicate Fits(stack: Stack, e: Expr, rest: seq<Token>) {
    Ready(stack) && Following(rest).Some? && Pending(stack) < Strength(e) && Following(rest).value <= Strength(e)
  }

  lemma ShiftOne(stack: Stack, t: Token, rest: seq<Token>)
    requires Move(stack, [t] + rest).Shift?
    ensures Run(stack, [t] + rest) == Run(Push(stack, Shifted(t)), rest)
  {
    assert ([t] + rest)[1..] == rest;
  }

  lemma ReadSymbol(stack: Stack, s: Symbol, rest: seq<Token>)
    requires Ready(stack) && Following(rest).Some?
    ensures Run(stack, [Word(s)] + rest) == Run(Push(stack, Tree(Sym(s))), rest)
  {
    ShiftOne(stack, Word(s), rest);
  }

  lemma ReadBang(stack: Stack, a: Expr, input: seq<Token>, rest: seq<Token>)
    requires Ready(stack)
    ensures Run(stack, [Bang] + input) == Run(Push(stack, Tok(Bang)), input)
    ensures Run(Push(Push(stack, Tok(Bang)), Tree(a)), rest) == Run(Push(stack, Tree(Not(a))), rest)
  {
    ShiftOne(stack, Bang, input);
  }

  /** An operator that binds tighter than the one waiting below is shifted. */
  lemma ReadJoin(stack: Stack, x: Expr, op: Op, input: seq<Token>)
    requires Ready(stack) && Pending(stack) < Strength(Bin(op, x, x))
    ensures Run(Push(stack, Tree(x)), [Join(op)] + input) == Run(Push(Push(stack, Tree(x)), Tok(Join(op))), input)
  {
    ShiftOne(Push(stack, Tree(x)), Join(op), input);
  }

  lemma ReadCompare(stack: Stack, e: Expr, rest: seq<Token>)
    requires e.Compare? && Ready(stack) && Following(rest).Some?
    ensures Run(stack, Inner(e) + rest) == Run(Push(stack, Tree(e)), rest)
  {
    var Compare(rel, l, r) := e;
    assert Inner(e) + rest == [Word(l)] + ([Sign(rel)] + ([Word(r)] + rest));
    ShiftOne(stack, Word(l), [Sign(rel)] + ([Word(r)] + rest));
    ShiftOne(Push(stack, Name(l)), Sign(rel), [Word(r)] + rest);
    ShiftOne(Push(Push(stack, Name(l)), Tok(Sign(rel))), Word(r), rest);
  }

  /** Reading an expression printed without parentheses leaves its tree on the stack. */
  lemma {:induction false} ReadInner(stack: Stack, e: Expr, rest: seq<Token>)
    requires Fits(stack, e, rest)
    ensures Run(stack, Inner(e) + rest) == Run(Push(stack, Tree(LeftLeaning(e))), rest)
    decreases e, 0
  {
    hide Move, Run, CompareType;
    match e
    case Sym(s) => ReadSymbol(stack, s, rest);
    case Compare(_, _, _) => ReadCompare(stack, e, rest);
    case Not(a) =>
      assert Inner(e) + rest == [Bang] + (Print(a, NotKind) + rest);
      ReadOperand(Push(stack, Tok(Bang)), a, NotKind, rest);
      ReadBang(stack, LeftLeaning(a), Print(a, NotKind) + rest, rest);
    case Bin(op, l, r) =>
      var k := BinKind(op);
      var tail := [Join(op)] + (Print(r, k) + rest);
      assert Inner(e) + rest == Print(l, k) + tail;
      ReadOperand(stack, l, k, tail);
      ReadJoin(stack, LeftLeaning(l), op, Print(r, k) + rest);
      ReadChain(stack, LeftLeaning(l), op, r, rest);
  }

  /** Reading an operand, in parentheses or not. */
  lemma {:induction false} ReadOperand(stack: Stack, e: Expr, prev: Kind, rest: seq<Token>)
    requires Ready(stack) && Following(rest).Some?
    requires CompareType(prev, KindOf(e)) > 0 || Fits(stack, e, rest)
    ensures Run(stack, Print(e, prev) + rest) == Run(Push(stack, Tree(LeftLeaning(e))), rest)
    decreases e, 1
  {
    if CompareType(prev, KindOf(e)) > 0 {
      var tail := [Close] + rest;
      assert Print(e, prev) + rest == [Open] + (Inner(e) + tail);
      ShiftOne(stack, Open, Inner(e) + tail);
      ReadInner(Push(stack, Tok(Open)), e, tail);
      ShiftOne(Push(Push(stack, Tok(Open)), Tree(LeftLeaning(e))), Close, rest);
    } else {
      ReadInner(stack, e, rest);
    }
  }

  /** Reading the right operand of 'x op' regroups a chain of op as it goes. */
  lemma {:induction false} ReadChain(stack: Stack, x: Expr, op: Op, r: Expr, rest: seq<Token>)
    requires Fits(stack, Bin(op, x, r), rest)
    ensures Run(Push(Push(stack, Tree(x)), Tok(Join(op))), Print(r, BinKind(op)) + rest)
      == Run(Push(stack, Tree(Attach(x, op, r))), rest)
    decreases r, 2
  {
    var k := BinKind(op);
    if r.Bin? && r.op == op {
      var tail := [Join(op)] + (Print(r.right, k) + rest);
      assert Print(r, k) + rest == Print(r.left, k) + tail;
      ReadChain(stack, x, op, r.left, tail);
      ReadJoin(stack, Attach(x, op, r.left), op, Print(r.right, k) + rest);
      ReadChain(stack, Attach(x, op, r.left), op, r.right, rest);
    } else {
      ReadOperand(Push(Push(stack, Tree(x)), Tok(Join(op))), r, k, rest);
    }
  }

  /** Reading back what was printed gives the left-leaning tree. */
  lemma ParsePrint(e: Expr)
    ensures Run(Bottom, Print(e, NoKind)) == Some(LeftLeaning(e))
  {
    assert Print(e, NoKind) + [] == Print(e, NoKind);
    ReadOperand(Bottom, e, NoKind, []);
  }

  // ----- the tree read back means the same -----

  lemma {:induction false} LeftLeaningSound(env: Env, e: Expr)
    ensures Eval(env, LeftLeaning(e)) == Eval(env, e)
    decreases e, 0
  {
    match e
    case Not(a) => LeftLeaningSound(env, a);
    case Bin(op, l, r) =>
      LeftLeaningSound(env, l);
      AttachSound(env, LeftLeaning(l), op, r);
    case _ =>
  }

  lemma {:induction false} AttachSound(env: Env, x: Expr, op: Op, r: Expr)
    ensures Eval(env, Attach(x, op, r)) == Combine(op, Eval(env, x), Eval(env, r))
    decreases r, 1
  {
    if r.Bin? && r.op == op {
      AttachSound(env, x, op, r.left);
      AttachSound(env, Attach(x, op, r.left), op, r.right);
    } else {
      LeftLeaningSound(env, r);
    }
  }

  /** No operator has the same operator as its right operand. */
  predicate Leans(e: Expr) {
    match e
    case Not(a) => Leans(a)
    case Bin(op, l, r) => Leans(l) && Leans(r) && !IsBin(op, r)
    case _ => true
  }

  lemma {:induction false} LeftLeaningLeans(e: Expr)
    ensures Leans(LeftLeaning(e))
    decreases e, 0
  {
    match e
    case Not(a) => LeftLeaningLeans(a);
    case Bin(op, l, r) =>
      LeftLeaningLeans(l);
      AttachLeans(LeftLeaning(l), op, r);
    case _ =>
  }

  lemma {:induction false} AttachTop(x: Expr, op: Op, r: Expr)
    ensures Attach(x, op, r).Bin? && Attach(x, op, r).op == op
    decreases r
  {
    if r.Bin? && r.op == op { AttachTop(Attach(x, op, r.left), op, r.right); }
  }

  lemma {:induction false} AttachLeans(x: Expr, op: Op, r: Expr)
    requires Leans(x)
    ensures Leans(Attach(x, op, r))
    decreases r, 1
  {
    if r.Bin? && r.op == op {
      AttachLeans(x, op, r.left);
      AttachLeans(Attach(x, op, r.left), op, r.right);
    } else {
      LeftLeaningLeans(r);
      if r.Bin? { AttachTop(LeftLeaning(r.left), r.op, r.right); }
    }
  }

  lemma {:induction false} LeansUnchanged(e: Expr)
    requires Leans(e)
    ensures LeftLeaning(e) == e
  {
    match e
    case Not(a) => LeansUnchanged(a);
    case Bin(op, l, r) => LeansUnchanged(l); LeansUnchanged(r);
    case _ =>
  }

  /** Regrouping changes nothing that is printed. */
  lemma {:induction false} SamePrint(e: Expr)
    ensures Inner(LeftLeaning(e)) == Inner(e)
    ensures forall prev :: Print(LeftLeaning(e), prev) == Print(e, prev)
    decreases e, 0
  {
    hide CompareType;
    match e
    case Not(a) => SamePrint(a);
    case Bin(op, l, r) =>
      SamePrint(l);
      AttachTop(LeftLeaning(l), op, r);
      AttachPrint(LeftLeaning(l), op, r);
      assert Print(LeftLeaning(l), BinKind(op)) == Print(l, BinKind(op));
    case _ =>
  }

  lemma {:induction false} AttachPrint(x: Expr, op: Op, r: Expr)
    ensures Inner(Attach(x, op, r)) == Print(x, BinKind(op)) + [Join(op)] + Print(r, BinKind(op))
    decreases r, 1
  {
    var k := BinKind(op);
    AttachTop(x, op, r);
    if r.Bin? && r.op == op {
      AttachTop(x, op, r.left);
      AttachPrint(x, op, r.left);
      AttachPrint(Attach(x, op, r.left), op, r.right);
    } else {
      SamePrint(r);
    }
  }

  /** Reading back keeps the value under every assignment, gives the very same tree exactly when
      the tree leans to the left already, and prints the same again. */
  lemma RoundTrip(e: Expr)
    ensures var r := Run(Bottom, Print(e, NoKind));
      r.Some?
      && (forall env :: Eval(env, r.value) == Eval(env, e))
      && (r.value == e <==> Leans(e))
      && Print(r.value, NoKind) == Print(e, NoKind)
  {
    ParsePrint(e);
    forall env ensures Eval(env, LeftLeaning(e)) == Eval(env, e) { LeftLeaningSound(env, e); }
    LeftLeaningLeans(e);
    if Leans(e) { LeansUnchanged(e); }
    SamePrint(e);
  }

  /** Two expressions print alike only if they differ in the grouping of chains. */
  lemma PrintInjective(a: Expr, b: Expr)
    ensures Print(a, NoKind) == Print(b, NoKind) <==> LeftLeaning(a) == LeftLeaning(b)
  {
    ParsePrint(a);
    ParsePrint(b);
    SamePrint(a);
    SamePrint(b);
  }

  /** No expression at all prints as y, and is read back as the constant y. */
  lemma RoundTripOpt(env: Env, e: Option<Expr>)
    ensures Run(Bottom, PrintOpt(e)).Some? && Eval(env, Run(Bottom, PrintOpt(e)).value) == EvalOpt(env, e)
  {
    if e.Some? { RoundTrip(e.value); }
    else { ParsePrint(Sym(SymYes)); }
  }

  // ----- no more parentheses than needed -----

  /** The operands that have to stand in parentheses: an || below &&, and either below !. */
  function Enclosed(e: Expr): nat {
    match e
    case Not(a) => (if a.Bin? then 1 else 0) + Enclosed(a)
    case Bin(op, l, r) =>
      (if op == AndOp && IsBin(OrOp, l) then 1 else 0) + Enclosed(l)
      + (if op == AndOp && IsBin(OrOp, r) then 1 else 0) + Enclosed(r)
    case _ => 0
  }

  function Count(tokens: seq<Token>, t: Token): nat {
    if tokens == [] then 0 else (if tokens[0] == t then 1 else 0) + Count(tokens[1..], t)
  }

  lemma {:induction false} CountAppend(a: seq<Token>, b: seq<Token>, t: Token)
    ensures Count(a + b, t) == Count(a, t) + Count(b, t)
  {
    if a == [] {
      assert a + b == b;
    } else {
      assert (a + b)[1..] == a[1..] + b;
      CountAppend(a[1..], b, t);
    }
  }

  lemma CountOne(x: Token, t: Token)
    ensures Count([x], t) == if x == t then 1 else 0
  {
    assert [x][1..] == [];
  }

  lemma {:induction false} PrintEncloses(e: Expr, prev: Kind, t: Token)
    requires t == Open || t == Close
    ensures Count(Print(e, prev), t) == Enclosed(e) + if Tighter(prev, KindOf(e)) then 1 else 0
    decreases e, 1
  {
    hide Inner, Enclosed, CompareType, Tighter, Count;
    InnerEncloses(e, t);
    if Tighter(prev, KindOf(e)) {
      CountAppend([Open] + Inner(e), [Close], t);
      CountAppend([Open], Inner(e), t);
      CountOne(Open, t);
      CountOne(Close, t);
    }
  }

  lemma Enclosing(e: Expr, op: Op)
    ensures Tighter(NotKind, KindOf(e)) <==> e.Bin?
    ensures Tighter(BinKind(op), KindOf(e)) <==> op == AndOp && IsBin(OrOp, e)
  {
  }

  lemma {:induction false} InnerEncloses(e: Expr, t: Token)
    requires t == Open || t == Close
    ensures Count(Inner(e), t) == Enclosed(e)
    decreases e, 0
  {
    hide Print, Tighter, Count;
    match e
    case Sym(s) => CountOne(Word(s), t);
    case Compare(rel, l, r) =>
      CountOne(Word(l), t);
      CountOne(Sign(rel), t);
      CountOne(Word(r), t);
      CountAppend([Word(l)], [Sign(rel)], t);
      CountAppend([Word(l), Sign(rel)], [Word(r)], t);
      assert [Word(l)] + [Sign(rel)] == [Word(l), Sign(rel)];
      assert [Word(l), Sign(rel)] + [Word(r)] == Inner(e);
    case Not(a) =>
      PrintEncloses(a, NotKind, t);
      Enclosing(a, OrOp);
      CountAppend([Bang], Print(a, NotKind), t);
      CountOne(Bang, t);
    case Bin(op, l, r) =>
      var x, y := Print(l, BinKind(op)), Print(r, BinKind(op));
      PrintEncloses(l, BinKind(op), t);
      PrintEncloses(r, BinKind(op), t);
      Enclosing(l, op);
      Enclosing(r, op);
      CountAppend(x + [Join(op)], y, t);
      CountAppend(x, [Join(op)], t);
      CountOne(Join(op), t);
  }

  /** Parentheses stand around those operands and nowhere else. */
  lemma PrintSparing(e: Expr)
    ensures Count(Print(e, NoKind), Open) == Count(Print(e, NoKind), Close) == Enclosed(e)
  {
    hide Print, Enclosed;
    PrintEncloses(e, NoKind, Open);
    PrintEncloses(e, NoKind, Close);
  }
}
