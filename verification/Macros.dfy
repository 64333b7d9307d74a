/** Macro expansion (scripts/config/preprocess.c): $(name) and $(name,arg,...) references, with
    user-defined variables, built-in functions and environment variables. */
module Macros {
  import opened Expressions
  import opened Chars

  datatype Flavor = Simple | Recursive
  datatype Variable = Variable(name: string, value: string, flavor: Flavor)

  datatype Error = Unterminated | RecursiveVariable | TooDeep | TooFewArguments | TooManyArguments | FunctionError

  /** The expansion and what is left of the input, or the message after which the program ends. */
  datatype Expansion = Expanded(text: string, rest: string) | Failed(error: Error)

  datatype Outcome = Missing | Text(text: string) | Bad(error: Error)

  datatype Texts = Texts(texts: seq<string>) | Stopped(error: Error)

  /** The variables in definition order, what a built-in function answers (None when it ends the
      program) and the environment. */
  datatype World = World(vars: seq<Variable>, run: (string, seq<string>) -> Option<string>,
      env: string -> Option<string>)

  const FUNCTION_MAX_ARGS := 16
  const MAX_DEPTH := 1000

  // ----- parentheses -----

  /** Reads parentheses starting at nesting depth n; None when one closes too many. */
  function Nest(s: string, n: nat): Option<nat> {
    if s == [] then Some(n)
    else if s[0] == '(' then Nest(s[1..], n + 1)
    else if s[0] == ')' then if n == 0 then None else Nest(s[1..], n - 1)
    else Nest(s[1..], n)
  }

  predicate Balanced(s: string) { Nest(s, 0) == Some(0) }

  /** The position of the parenthesis that closes the clause s starts with. */
  function Closing(s: string, n: nat): (q: Option<nat>)
    ensures q.Some? ==> q.value < |s| && s[q.value] == ')'
  {
    if s == [] then None
    else if s[0] == ')' && n == 0 then Some(0)
    else
      var q := Closing(s[1..], if s[0] == '(' then n + 1 else if s[0] == ')' then n - 1 else n);
      if q.None? then None else Some(q.value + 1)
  }

  /** Splits at the commas outside parentheses; 'head' is the piece read so far. */
  function SplitFrom(s: string, head: string, n: int): (pieces: seq<string>)
    ensures |pieces| > 0
  {
    if s == [] then [head]
    else if s[0] == ',' && n == 0 then [head] + SplitFrom(s[1..], [], 0)
    else SplitFrom(s[1..], head + [s[0]], if s[0] == '(' then n + 1 else if s[0] == ')' then n - 1 else n)
  }

  function Split(s: string): (pieces: seq<string>)
    ensures |pieces| > 0
  {
    SplitFrom(s, [], 0)
  }

  function JoinComma(pieces: seq<string>): string
    requires |pieces| > 0
  {
    if |pieces| == 1 then pieces[0] else pieces[0] + [','] + JoinComma(pieces[1..])
  }

  lemma {:induction false} SplitJoins(s: string, head: string, n: int)
    ensures JoinComma(SplitFrom(s, head, n)) == head + s
  {
    if s != [] {
      assert head + s == head + [s[0]] + s[1..];
      if s[0] == ',' && n == 0 {
        SplitJoins(s[1..], [], 0);
        var rest := SplitFrom(s[1..], [], 0);
        assert ([head] + rest)[1..] == rest;
        assert [] + s[1..] == s[1..];
      } else {
        SplitJoins(s[1..], head + [s[0]], if s[0] == '(' then n + 1 else if s[0] == ')' then n - 1 else n);
      }
    }
  }

  lemma {:induction false} NestAppend(a: string, b: string, n: nat)
    ensures Nest(a + b, n) == if Nest(a, n).None? then None else Nest(b, Nest(a, n).value)
  {
    if a == [] {
      assert a + b == b;
    } else {
      assert (a + b)[1..] == a[1..] + b;
      if a[0] == '(' {
        NestAppend(a[1..], b, n + 1);
      } else if a[0] == ')' {
        if n > 0 { NestAppend(a[1..], b, n - 1); }
      } else {
        NestAppend(a[1..], b, n);
      }
    }
  }

  /** Every piece of a balanced clause is balanced. */
  lemma {:induction false} PiecesBalanced(s: string, head: string, n: nat)
    requires Nest(head, 0) == Some(n) && Nest(s, n) == Some(0)
    ensures forall p :: p in SplitFrom(s, head, n) ==> Balanced(p)
  {
    if s != [] {
      NestAppend(head, [s[0]], 0);
      if s[0] == ',' && n == 0 {
        PiecesBalanced(s[1..], [], 0);
      } else {
        assert [s[0]][1..] == [];
        PiecesBalanced(s[1..], head + [s[0]], if s[0] == '(' then n + 1 else if s[0] == ')' then n - 1 else n);
      }
    }
  }

  /** There is a comma outside all parentheses. */
  predicate TopComma(s: string, n: nat) {
    s != [] &&
      if s[0] == '(' then TopComma(s[1..], n + 1)
      else if s[0] == ')' then n > 0 && TopComma(s[1..], n - 1)
      else (s[0] == ',' && n == 0) || TopComma(s[1..], n)
  }

  lemma {:induction false} TopCommaAppend(a: string, b: string, n: nat)
    requires Nest(a, n).Some?
    ensures TopComma(a + b, n) <==> TopComma(a, n) || TopComma(b, Nest(a, n).value)
  {
    if a == [] {
      assert a + b == b;
    } else {
      assert (a + b)[1..] == a[1..] + b;
      TopCommaAppend(a[1..], b, if a[0] == '(' then n + 1 else if a[0] == ')' then n - 1 else n);
    }
  }

  /** No piece can be split any further. */
  lemma {:induction false} PiecesWhole(s: string, head: string, n: nat)
    requires Nest(head, 0) == Some(n) && Nest(s, n) == Some(0) && !TopComma(head, 0)
    ensures forall p :: p in SplitFrom(s, head, n) ==> !TopComma(p, 0)
  {
    if s != [] {
      if s[0] == ',' && n == 0 {
        PiecesWhole(s[1..], [], 0);
      } else {
        NestAppend(head, [s[0]], 0);
        TopCommaAppend(head, [s[0]], 0);
        assert [s[0]][1..] == [];
        PiecesWhole(s[1..], head + [s[0]], if s[0] == '(' then n + 1 else if s[0] == ')' then n - 1 else n);
      }
    }
  }

  /** The clause is what comes before the first ')' that leaves it balanced. */
  lemma {:induction false} ClosingExact(s: string, n: nat, q: nat)
    ensures Closing(s, n) == Some(q) <==> q < |s| && s[q] == ')' && Nest(s[..q], n) == Some(0)
  {
    if s != [] && !(s[0] == ')' && n == 0) {
      if q > 0 {
        assert q <= |s| ==> s[..q][1..] == s[1..][..q - 1];
        ClosingExact(s[1..], if s[0] == '(' then n + 1 else if s[0] == ')' then n - 1 else n, q - 1);
      }
    } else if s != [] && 0 < q < |s| {
      assert s[..q][0] == ')';
    }
  }

  /** The clause in front of the closing parenthesis is balanced. */
  lemma {:induction false} ClauseBalanced(s: string, head: string, n: nat)
    requires Nest(head, 0) == Some(n) && Closing(s, n).Some?
    ensures Balanced(head + s[..Closing(s, n).value])
  {
    if s[0] == ')' && n == 0 {
      assert head + s[..0] == head;
    } else {
      var n' := if s[0] == '(' then n + 1 else if s[0] == ')' then n - 1 else n;
      NestAppend(head, [s[0]], 0);
      assert [s[0]][1..] == [];
      ClauseBalanced(s[1..], head + [s[0]], n');
      var q := Closing(s[1..], n').value;
      assert head + s[..q + 1] == head + [s[0]] + s[1..][..q];
    }
  }

  /** Inside balanced text every open clause is closed, and what follows stays in step. */
  lemma {:induction false} ClosingExists(s: string, n: nat, outer: nat)
    requires Nest(s, n + 1 + outer) == Some(0)
    ensures Closing(s, n).Some? && Nest(s[Closing(s, n).value + 1..], outer) == Some(0)
  {
    if s[0] == ')' && n == 0 {
    } else {
      var n' := if s[0] == '(' then n + 1 else if s[0] == ')' then n - 1 else n;
      ClosingExists(s[1..], n', outer);
      var q := Closing(s[1..], n').value;
      assert s[q + 2..] == s[1..][q + 1..];
    }
  }

  // ----- what a reference expands to -----

  /** counts[i] is how many expansions of vars[i] are under way. */
  predicate Running(w: World, counts: seq<nat>) {
    |counts| == |w.vars| && forall i :: 0 <= i < |counts| ==> counts[i] <= MAX_DEPTH + 1
  }

  /** How many more expansions the depth limit allows. */
  function Budget(counts: seq<nat>): (b: nat)
    requires forall i :: 0 <= i < |counts| ==> counts[i] <= MAX_DEPTH + 1
  {
    if counts == [] then 0 else MAX_DEPTH + 1 - counts[0] + Budget(counts[1..])
  }

  lemma {:induction false} BudgetFalls(counts: seq<nat>, i: nat)
    requires forall k :: 0 <= k < |counts| ==> counts[k] <= MAX_DEPTH + 1
    requires i < |counts| && counts[i] <= MAX_DEPTH
    ensures Budget(counts[i := counts[i] + 1]) == Budget(counts) - 1
  {
    var after := counts[i := counts[i] + 1];
    if i == 0 {
      assert after[1..] == counts[1..];
    } else {
      assert after[1..] == counts[1..][i - 1 := counts[i] + 1];
      BudgetFalls(counts[1..], i - 1);
    }
  }

  /** The position of the first variable of that name. */
  function Lookup(vars: seq<Variable>, name: string): (i: Option<nat>)
    ensures i.Some? ==> i.value < |vars| && vars[i.value].name == name
    ensures i.None? <==> forall k :: 0 <= k < |vars| ==> vars[k].name != name
  {
    if vars == [] then None
    else if vars[0].name == name then Some(0)
    else
      var i := Lookup(vars[1..], name);
      if i.None? then
        assert forall k :: 0 < k < |vars| ==> vars[k] == vars[1..][k - 1];
        None
      else Some(i.value + 1)
  }


  const ULONG_MAX: nat := 0xffff_ffff_ffff_ffff

  function WithoutSign(s: string): string { if s != [] && (s[0] == '-' || s[0] == '+') then s[1..] else s }

  /** strtoul in base 10 when it reads the whole string; None otherwise, or when there is no digit. */
  function Unsigned(s: string): Option<nat> {
    if s == [] then None
    else if IsSpace(s[0]) then Unsigned(s[1..])
    else
      var digits := WithoutSign(s);
      if digits == [] || !AllDigits(digits) then None
      else if DigitsValue(digits) > ULONG_MAX then Some(ULONG_MAX)
      else if s[0] == '-' then Some((ULONG_MAX + 1 - DigitsValue(digits)) % (ULONG_MAX + 1))
      else Some(DigitsValue(digits))
  }

  /** The argument of the enclosing call that $(1), $(2), ... stands for. */
  function Positional(clause: string, args: seq<string>): Option<string> {
    var n := Unsigned(clause);
    if n.Some? && 0 < n.value <= |args| then Some(args[n.value - 1]) else None
  }

  /** The least and the greatest number of arguments a built-in function takes. */
  function Arity(name: string): Option<(nat, nat)> {
    if name == "error-if" || name == "warning-if" then Some((2, 2))
    else if name == "filename" || name == "lineno" then Some((0, 0))
    else if name == "info" || name == "shell" then Some((1, 1))
    else None
  }

  function FunctionExpand(w: World, name: string, args: seq<string>): (r: Outcome) {
    match Arity(name)
    case None => Missing
    case Some((least, most)) =>
      if |args| < least then Bad(TooFewArguments)
      else if |args| > most then Bad(TooManyArguments)
      else if w.run(name, args).None? then Bad(FunctionError)
      else Text(w.run(name, args).value)
  }

  /** Built-in functions come after variables; the environment is asked last, and never with
      arguments. */
  function Fallback(w: World, name: string, args: seq<string>): (r: Outcome)
    ensures !r.Missing?
  {
    var f := FunctionExpand(w, name, args);
    if !f.Missing? then f
    else if args == [] && name != [] && w.env(name).Some? then Text(w.env(name).value)
    else Text([])
  }

  predicate Never(c: char) { false }

  function Prefixed(head: string, r: Expansion): Expansion {
    if r.Failed? then r else Expanded(head + r.text, r.rest)
  }

  /** Expands references until a character that 'stop' accepts, or the end. */
  function Expand(w: World, counts: seq<nat>, s: string, args: seq<string>, stop: char -> bool): (r: Expansion)
    requires Running(w, counts)
    decreases Budget(counts), |s|, 0, 0
  {
    if s == [] then Expanded([], [])
    else if s[0] == '$' then
      var d := Dollar(w, counts, s[1..], args);
      if d.Failed? then d else Prefixed(d.text, Expand(w, counts, d.rest, args, stop))
    else if stop(s[0]) then Expanded([], s)
    else Prefixed([s[0]], Expand(w, counts, s[1..], args, stop))
  }

  /** Expands what follows a '$'. */
  function Dollar(w: World, counts: seq<nat>, s: string, args: seq<string>): (r: Expansion)
    requires Running(w, counts)
    ensures r.Expanded? ==> |r.rest| <= |s|
    decreases Budget(counts), |s|, 0, 0
  {
    if s == [] || s[0] != '(' then Expanded(['$'], s)
    else
      var q := Closing(s[1..], 0);
      if q.None? then Failed(Unterminated)
      else
        var r := Clause(w, counts, s[1..][..q.value], args);
        if r.Bad? then Failed(r.error) else Expanded(r.text, s[q.value + 2..])
  }

  function Clause(w: World, counts: seq<nat>, clause: string, args: seq<string>): (r: Outcome)
    requires Running(w, counts)
    ensures !r.Missing?
    decreases Budget(counts), |clause|, 2, 0
  {
    var pieces := Split(clause);
    if Positional(clause, args).Some? then Text(Positional(clause, args).value)
    else if |pieces| > FUNCTION_MAX_ARGS then Bad(TooManyArguments)
    else
      PiecesNoLonger(clause, [], 0);
      var all := ExpandAll(w, counts, pieces, args, |clause|);
      if all.Stopped? then Bad(all.error) else Call(w, counts, all.texts[0], all.texts[1..])
  }

  function ExpandAll(w: World, counts: seq<nat>, pieces: seq<string>, args: seq<string>, ghost bound: nat): (r: Texts)
    requires Running(w, counts)
    requires forall p :: p in pieces ==> |p| <= bound
    ensures r.Texts? ==> |r.texts| == |pieces|
    decreases Budget(counts), bound, 1, |pieces|
  {
    if pieces == [] then Texts([])
    else
      var first := Expand(w, counts, pieces[0], args, Never);
      if first.Failed? then Stopped(first.error)
      else
        var others := ExpandAll(w, counts, pieces[1..], args, bound);
        if others.Stopped? then others else Texts([first.text] + others.texts)
  }

  function Call(w: World, counts: seq<nat>, name: string, args: seq<string>): (r: Outcome)
    requires Running(w, counts)
    ensures !r.Missing?
    decreases Budget(counts), 0, 1, 0
  {
    var r := ExpandVariable(w, counts, name, args);
    if !r.Missing? then r else Fallback(w, name, args)
  }

  /** A variable without arguments must not be under way already; with arguments it may call
      itself, down to a fixed depth. */
  function ExpandVariable(w: World, counts: seq<nat>, name: string, args: seq<string>): (r: Outcome)
    requires Running(w, counts)
    decreases Budget(counts), 0, 0, 0
  {
    match Lookup(w.vars, name)
    case None => Missing
    case Some(i) =>
      if args == [] && counts[i] > 0 then Bad(RecursiveVariable)
      else if counts[i] > MAX_DEPTH then Bad(TooDeep)
      else if w.vars[i].flavor == Simple then Text(w.vars[i].value)
      else
        BudgetFalls(counts, i);
        var r := Expand(w, counts[i := counts[i] + 1], w.vars[i].value, args, Never);
        if r.Failed? then Bad(r.error) else Text(r.text)
  }

  lemma {:induction false} PiecesNoLonger(s: string, head: string, n: int)
    ensures forall p :: p in SplitFrom(s, head, n) ==> |p| <= |head| + |s|
  {
    if s != [] {
      if s[0] == ',' && n == 0 {
        PiecesNoLonger(s[1..], [], 0);
      } else {
        PiecesNoLonger(s[1..], head + [s[0]], if s[0] == '(' then n + 1 else if s[0] == ')' then n - 1 else n);
      }
    }
  }

  // ----- balanced text has no unterminated reference -----

  predicate BalancedValues(w: World) {
    forall i :: 0 <= i < |w.vars| && w.vars[i].flavor == Recursive ==> Balanced(w.vars[i].value)
  }

  /** 'outer' parentheses opened before s are still open. */
  lemma {:induction false} ExpandTerminated(w: World, counts: seq<nat>, s: string, args: seq<string>,
      stop: char -> bool, outer: nat)
    requires Running(w, counts) && BalancedValues(w)
    requires Nest(s, outer) == Some(0)
    ensures Expand(w, counts, s, args, stop) != Failed(Unterminated)
    decreases Budget(counts), |s|, 0, 0
  {
    if s != [] {
      if s[0] == '$' {
        DollarTerminated(w, counts, s[1..], args, outer);
        var d := Dollar(w, counts, s[1..], args);
        if d.Expanded? { ExpandTerminated(w, counts, d.rest, args, stop, outer); }
      } else if !stop(s[0]) {
        ExpandTerminated(w, counts, s[1..], args, stop,
                         if s[0] == '(' then outer + 1 else if s[0] == ')' then outer - 1 else outer);
      }
    }
  }

  lemma {:induction false} DollarTerminated(w: World, counts: seq<nat>, s: string, args: seq<string>, outer: nat)
    requires Running(w, counts) && BalancedValues(w)
    requires Nest(s, outer) == Some(0)
    ensures var d := Dollar(w, counts, s, args);
      d != Failed(Unterminated) && (d.Expanded? ==> Nest(d.rest, outer) == Some(0))
    decreases Budget(counts), |s|, 0, 0
  {
    if s != [] && s[0] == '(' {
      ClosingExists(s[1..], 0, outer);
      var q := Closing(s[1..], 0).value;
      ClauseBalanced(s[1..], [], 0);
      assert [] + s[1..][..q] == s[1..][..q];
      assert s[1..][q + 1..] == s[q + 2..];
      ClauseTerminated(w, counts, s[1..][..q], args);
    }
  }

  lemma {:induction false} ClauseTerminated(w: World, counts: seq<nat>, clause: string, args: seq<string>)
    requires Running(w, counts) && BalancedValues(w) && Balanced(clause)
    ensures Clause(w, counts, clause, args) != Bad(Unterminated)
    decreases Budget(counts), |clause|, 2, 0
  {
    var pieces := Split(clause);
    PiecesBalanced(clause, [], 0);
    PiecesNoLonger(clause, [], 0);
    AllTerminated(w, counts, pieces, args, |clause|);
    var all := ExpandAll(w, counts, pieces, args, |clause|);
    if all.Texts? { VariableTerminated(w, counts, all.texts[0], all.texts[1..]); }
  }

  lemma {:induction false} AllTerminated(w: World, counts: seq<nat>, pieces: seq<string>, args: seq<string>, bound: nat)
    requires Running(w, counts) && BalancedValues(w)
    requires forall p :: p in pieces ==> Balanced(p) && |p| <= bound
    ensures ExpandAll(w, counts, pieces, args, bound) != Stopped(Unterminated)
    decreases Budget(counts), bound, 1, |pieces|
  {
    if pieces != [] {
      ExpandTerminated(w, counts, pieces[0], args, Never, 0);
      AllTerminated(w, counts, pieces[1..], args, bound);
    }
  }

  lemma {:induction false} VariableTerminated(w: World, counts: seq<nat>, name: string, args: seq<string>)
    requires Running(w, counts) && BalancedValues(w)
    ensures ExpandVariable(w, counts, name, args) != Bad(Unterminated)
    decreases Budget(counts), 0, 0, 0
  {
    var found := Lookup(w.vars, name);
    if found.Some? && counts[found.value] <= MAX_DEPTH && w.vars[found.value].flavor == Recursive {
      var i := found.value;
      BudgetFalls(counts, i);
      ExpandTerminated(w, counts[i := counts[i] + 1], w.vars[i].value, args, Never, 0);
    }
  }

  // ----- the counts only reject: they never change a text -----

  predicate NoMore(less: seq<nat>, counts: seq<nat>) {
    |less| == |counts| && forall i :: 0 <= i < |counts| ==> less[i] <= counts[i]
  }

  /** What expands inside other expansions expands to the same text outside them. */
  lemma {:induction false} ExpandAnywhere(w: World, counts: seq<nat>, less: seq<nat>, s: string, args: seq<string>,
      stop: char -> bool)
    requires Running(w, counts) && Running(w, less) && NoMore(less, counts)
    requires Expand(w, counts, s, args, stop).Expanded?
    ensures Expand(w, less, s, args, stop) == Expand(w, counts, s, args, stop)
    decreases Budget(counts), |s|, 0, 0
  {
    if s != [] {
      if s[0] == '$' {
        DollarAnywhere(w, counts, less, s[1..], args);
        ExpandAnywhere(w, counts, less, Dollar(w, counts, s[1..], args).rest, args, stop);
      } else if !stop(s[0]) {
        ExpandAnywhere(w, counts, less, s[1..], args, stop);
      }
    }
  }

  lemma {:induction false} DollarAnywhere(w: World, counts: seq<nat>, less: seq<nat>, s: string, args: seq<string>)
    requires Running(w, counts) && Running(w, less) && NoMore(less, counts)
    requires Dollar(w, counts, s, args).Expanded?
    ensures Dollar(w, less, s, args) == Dollar(w, counts, s, args)
    decreases Budget(counts), |s|, 0, 0
  {
    if s != [] && s[0] == '(' {
      ClauseAnywhere(w, counts, less, s[1..][..Closing(s[1..], 0).value], args);
    }
  }

  lemma {:induction false} ClauseAnywhere(w: World, counts: seq<nat>, less: seq<nat>, clause: string, args: seq<string>)
    requires Running(w, counts) && Running(w, less) && NoMore(less, counts)
    requires Clause(w, counts, clause, args).Text?
    ensures Clause(w, less, clause, args) == Clause(w, counts, clause, args)
    decreases Budget(counts), |clause|, 2, 0
  {
    if Positional(clause, args).None? {
      var pieces := Split(clause);
      PiecesNoLonger(clause, [], 0);
      AllAnywhere(w, counts, less, pieces, args, |clause|);
      var all := ExpandAll(w, counts, pieces, args, |clause|);
      VariableAnywhere(w, counts, less, all.texts[0], all.texts[1..]);
    }
  }

  lemma {:induction false} AllAnywhere(w: World, counts: seq<nat>, less: seq<nat>, pieces: seq<string>,
      args: seq<string>, bound: nat)
    requires Running(w, counts) && Running(w, less) && NoMore(less, counts)
    requires forall p :: p in pieces ==> |p| <= bound
    requires ExpandAll(w, counts, pieces, args, bound).Texts?
    ensures ExpandAll(w, less, pieces, args, bound) == ExpandAll(w, counts, pieces, args, bound)
    decreases Budget(counts), bound, 1, |pieces|
  {
    if pieces != [] {
      ExpandAnywhere(w, counts, less, pieces[0], args, Never);
      AllAnywhere(w, counts, less, pieces[1..], args, bound);
    }
  }

  lemma {:induction false} VariableAnywhere(w: World, counts: seq<nat>, less: seq<nat>, name: string, args: seq<string>)
    requires Running(w, counts) && Running(w, less) && NoMore(less, counts)
    requires !ExpandVariable(w, counts, name, args).Bad?
    ensures ExpandVariable(w, less, name, args) == ExpandVariable(w, counts, name, args)
    decreases Budget(counts), 0, 0, 0
  {
    var found := Lookup(w.vars, name);
    if found.Some? && w.vars[found.value].flavor == Recursive {
      var i := found.value;
      BudgetFalls(counts, i);
      ExpandAnywhere(w, counts[i := counts[i] + 1], less[i := less[i] + 1], w.vars[i].value, args, Never);
    }
  }

  // ----- plain text, and a variable that refers to itself -----

  predicate Plain(s: string) { '$' !in s }

  /** Text without references stands for itself, in front of anything. */
  lemma {:induction false} PlainText(w: World, counts: seq<nat>, s: string, tail: string, args: seq<string>)
    requires Running(w, counts) && Plain(s)
    ensures Expand(w, counts, s + tail, args, Never) == Prefixed(s, Expand(w, counts, tail, args, Never))
  {
    hide Dollar;
    if s == [] {
      assert s + tail == tail;
    } else {
      assert (s + tail)[1..] == s[1..] + tail;
      assert s == [s[0]] + s[1..];
      PlainText(w, counts, s[1..], tail, args);
      var r := Expand(w, counts, tail, args, Never);
      if r.Expanded? { assert [s[0]] + (s[1..] + r.text) == s + r.text; }
    }
  }

  /** A name that is one piece: no comma and no parenthesis. */
  predicate OnePiece(s: string) { ',' !in s && '(' !in s && ')' !in s }

  lemma {:induction false} SplitOnePiece(s: string, head: string)
    requires OnePiece(s)
    ensures SplitFrom(s, head, 0) == [head + s]
  {
    if s == [] {
      assert head + s == head;
    } else {
      SplitOnePiece(s[1..], head + [s[0]]);
      assert head + [s[0]] + s[1..] == head + s;
    }
  }

  lemma {:induction false} ClosingOnePiece(s: string, tail: string)
    requires OnePiece(s)
    ensures Closing(s + [')'] + tail, 0) == Some(|s|)
  {
    if s != [] {
      assert (s + [')'] + tail)[1..] == s[1..] + [')'] + tail;
      ClosingOnePiece(s[1..], tail);
    }
  }

  lemma CallByName(w: World, counts: seq<nat>, name: string, args: seq<string>)
    requires Running(w, counts) && Plain(name) && OnePiece(name) && Positional(name, args).None?
    ensures Clause(w, counts, name, args) == Call(w, counts, name, [])
  {
    SplitOnePiece(name, []);
    assert [] + name == name;
    PiecesNoLonger(name, [], 0);
    PlainText(w, counts, name, [], args);
    assert name + [] == name;
    assert Expand(w, counts, name, args, Never).text == name;
    assert ExpandAll(w, counts, [name][1..], args, |name|) == Texts([]);
    assert [name] + [] == [name];
    assert [name][1..] == [];
  }

  /** A recursive variable whose value mentions it without arguments never expands, whatever the
      rest of the value says. */
  lemma SelfReferenceRejected(w: World, counts: seq<nat>, i: nat, head: string, tail: string, args: seq<string>)
    requires Running(w, counts)
    requires i < |w.vars| && Lookup(w.vars, w.vars[i].name) == Some(i) && w.vars[i].flavor == Recursive
    requires var name := w.vars[i].name;
      Plain(name) && OnePiece(name) && Unsigned(name).None? && w.vars[i].value == head + ("$(" + name + ")" + tail)
    requires Plain(head)
    ensures ExpandVariable(w, counts, w.vars[i].name, args)
      == if args != [] && counts[i] > 1000 then Bad(TooDeep) else Bad(RecursiveVariable)
  {
    hide Clause, Closing, Unsigned, Split, OnePiece;
    if !(args == [] && counts[i] > 0) && counts[i] <= MAX_DEPTH {
      var name, reference := w.vars[i].name, "$(" + w.vars[i].name + ")" + tail;
      BudgetFalls(counts, i);
      var inside := counts[i := counts[i] + 1];
      PlainText(w, inside, head, reference, args);
      assert reference[1..][1..] == name + [')'] + tail;
      ClosingOnePiece(name, tail);
      assert (name + [')'] + tail)[..|name|] == name;
      CallByName(w, inside, name, args);
      assert Dollar(w, inside, reference[1..], args) == Failed(RecursiveVariable);
    }
  }

  // ----- arguments -----

  /** A blank, or one of the five control characters that move on. */
  predicate Blank(c: char) { c == ' ' || 9 <= c as int <= 13 }

  /** Which texts are numbers: blanks, at most one sign, and digits. A minus counts down from 2^64, and
      what is too large counts as the largest number. */
  lemma {:induction false} UnsignedExact(blanks: string, sign: string, digits: string)
    requires (forall k :: 0 <= k < |blanks| ==> Blank(blanks[k])) && sign in {"", "+", "-"}
    requires AllDigits(digits) && digits != ""
    ensures var n := DigitsValue(digits);
      Unsigned(blanks + sign + digits) ==
        Some(if n > ULONG_MAX then ULONG_MAX else if sign == "-" && n > 0 then ULONG_MAX + 1 - n else n)
    decreases |blanks|
  {
    var s := blanks + sign + digits;
    if blanks != [] {
      assert s[1..] == blanks[1..] + sign + digits;
      UnsignedExact(blanks[1..], sign, digits);
    } else {
      assert IsDigit(digits[0]);
      assert sign != "" ==> s[0] == sign[0];
      assert WithoutSign(s) == digits;
      hide DigitsValue;
    }
  }

  /** No other text is a number. */
  lemma {:induction false} NumberForm(s: string)
    requires Unsigned(s).Some?
    ensures exists blanks, sign, digits :: IsNumber(s, blanks, sign, digits)
  {
    if IsSpace(s[0]) {
      NumberForm(s[1..]);
      var blanks, sign, digits :| IsNumber(s[1..], blanks, sign, digits);
      assert s == [s[0]] + blanks + sign + digits;
      assert IsNumber(s, [s[0]] + blanks, sign, digits);
    } else {
      var sign := if s[0] == '-' || s[0] == '+' then [s[0]] else "";
      assert s == "" + sign + WithoutSign(s);
      assert IsNumber(s, "", sign, WithoutSign(s));
    }
  }

  ghost predicate IsNumber(s: string, blanks: string, sign: string, digits: string) {
    && s == blanks + sign + digits && (forall k :: 0 <= k < |blanks| ==> Blank(blanks[k]))
    && sign in {"", "+", "-"} && AllDigits(digits) && digits != ""
  }

  lemma UnsignedDecimal(n: nat)
    requires n <= ULONG_MAX
    ensures Unsigned(Decimal(n)) == Some(n)
  {
    DecimalValue(n);
    assert IsDigit(Decimal(n)[0]);
    hide Decimal, DigitsValue;
  }

  /** $(k) is argument number k, if there are that many. */
  lemma PositionalDecimal(k: nat, args: seq<string>)
    requires k <= ULONG_MAX
    ensures Positional(Decimal(k), args) == if 1 <= k <= |args| then Some(args[k - 1]) else None
  {
    UnsignedDecimal(k);
  }

  lemma DecimalOnePiece(k: nat)
    ensures OnePiece(Decimal(k)) && Plain(Decimal(k))
  {
    DecimalValue(k);
    hide Decimal;
    forall c | c in Decimal(k) ensures IsDigit(c) { var i :| 0 <= i < |Decimal(k)| && Decimal(k)[i] == c; }
  }

  /** A number beyond the arguments is the name of a variable like any other. */
  lemma NoSuchArgument(w: World, counts: seq<nat>, k: nat, args: seq<string>)
    requires Running(w, counts) && k <= ULONG_MAX && !(1 <= k <= |args|)
    ensures Clause(w, counts, Decimal(k), args) == Call(w, counts, Decimal(k), [])
  {
    hide Decimal, Clause, Call, Unsigned;
    PositionalDecimal(k, args);
    DecimalOnePiece(k);
    CallByName(w, counts, Decimal(k), args);
  }

  /** In the value of a recursive variable $(k) stands for argument number k of the call. */
  lemma ArgumentExpands(w: World, counts: seq<nat>, i: nat, head: string, k: nat, tail: string, args: seq<string>)
    requires Running(w, counts) && k <= ULONG_MAX && 1 <= k <= |args|
    requires i < |w.vars| && Lookup(w.vars, w.vars[i].name) == Some(i) && w.vars[i].flavor == Recursive
    requires w.vars[i].value == head + ("$(" + Decimal(k) + ")" + tail) && Plain(head) && Plain(tail)
    requires counts[i] <= 1000
    ensures ExpandVariable(w, counts, w.vars[i].name, args) == Text(head + args[k - 1] + tail)
  {
    hide Dollar, Decimal, Closing, Positional, OnePiece, Expand, Plain, Lookup;
    BudgetFalls(counts, i);
    ArgumentInside(w, counts[i := counts[i] + 1], head, k, tail, args);
  }

  lemma ReferenceFirst(w: World, counts: seq<nat>, s: string, args: seq<string>)
    requires Running(w, counts) && (s != [] ==> s[0] == '$')
    ensures Expand(w, counts, s, args, Never) ==
      if s == [] then Expanded([], [])
      else
        var d := Dollar(w, counts, s[1..], args);
        if d.Failed? then d else Prefixed(d.text, Expand(w, counts, d.rest, args, Never))
  {
    hide Dollar;
  }

  lemma ArgumentInside(w: World, counts: seq<nat>, head: string, k: nat, tail: string, args: seq<string>)
    requires Running(w, counts) && k <= ULONG_MAX && 1 <= k <= |args| && Plain(head) && Plain(tail)
    ensures Expand(w, counts, head + ("$(" + Decimal(k) + ")" + tail), args, Never)
      == Expanded(head + args[k - 1] + tail, [])
  {
    hide Dollar, Decimal, Positional, OnePiece, Plain, Expand;
    var reference := "$(" + Decimal(k) + ")" + tail;
    PlainText(w, counts, head, reference, args);
    ReferenceFirst(w, counts, reference, args);
    ReferenceFirst(w, counts, [], args);
    ArgumentReference(w, counts, k, tail, args);
    assert reference[1..] == "(" + Decimal(k) + ")" + tail;
    PlainText(w, counts, tail, [], args);
    assert tail + [] == tail;
    assert head + (args[k - 1] + tail) == head + args[k - 1] + tail;
  }

  lemma ArgumentClause(w: World, counts: seq<nat>, k: nat, args: seq<string>)
    requires Running(w, counts) && k <= ULONG_MAX && 1 <= k <= |args|
    ensures Clause(w, counts, Decimal(k), args) == Text(args[k - 1])
  {
    hide Decimal, Split, Positional, Call, ExpandAll;
    PositionalDecimal(k, args);
  }

  lemma ArgumentReference(w: World, counts: seq<nat>, k: nat, tail: string, args: seq<string>)
    requires Running(w, counts) && k <= ULONG_MAX && 1 <= k <= |args|
    ensures Dollar(w, counts, "(" + Decimal(k) + ")" + tail, args) == Expanded(args[k - 1], tail)
  {
    hide Closing, Decimal, OnePiece, Plain, Clause;
    var s := "(" + Decimal(k) + ")" + tail;
    DecimalOnePiece(k);
    ClosingOnePiece(Decimal(k), tail);
    ArgumentClause(w, counts, k, args);
    assert s[1..] == Decimal(k) + [')'] + tail;
    assert s[1..][..|Decimal(k)|] == Decimal(k);
    assert s[|Decimal(k)| + 2..] == tail;
  }

  predicate Pieces(texts: seq<string>) { forall s :: s in texts ==> Plain(s) && OnePiece(s) }

  lemma {:induction false} SplitPieces(name: string, head: string, texts: seq<string>)
    requires OnePiece(name) && Pieces(texts) && texts != []
    ensures SplitFrom(name + [','] + JoinComma(texts), head, 0) == [head + name] + texts
    decreases |texts|, |name|
  {
    var rest := JoinComma(texts);
    if name == [] {
      assert head + name == head && (name + [','] + rest)[1..] == rest;
      if |texts| == 1 {
        SplitOnePiece(texts[0], []);
        assert [] + texts[0] == texts[0] && [texts[0]] == texts;
      } else {
        assert texts == [texts[0]] + texts[1..];
        SplitPieces(texts[0], [], texts[1..]);
        assert [] + texts[0] == texts[0];
      }
    } else {
      hide JoinComma;
      assert (name + [','] + rest)[1..] == name[1..] + [','] + rest;
      SplitPieces(name[1..], head + [name[0]], texts);
      assert head + [name[0]] + name[1..] == head + name;
    }
  }

  lemma {:induction false} PiecesExpand(w: World, counts: seq<nat>, texts: seq<string>, args: seq<string>, bound: nat)
    requires Running(w, counts) && Pieces(texts) && forall s :: s in texts ==> |s| <= bound
    ensures ExpandAll(w, counts, texts, args, bound) == Texts(texts)
  {
    if texts != [] {
      PlainText(w, counts, texts[0], [], args);
      assert texts[0] + [] == texts[0];
      PiecesExpand(w, counts, texts[1..], args, bound);
      assert [texts[0]] + texts[1..] == texts;
    }
  }

  lemma {:induction false} CommaNoNumber(s: string)
    requires ',' in s
    ensures Unsigned(s).None?
  {
    if IsSpace(s[0]) {
      CommaNoNumber(s[1..]);
    } else {
      var digits := WithoutSign(s);
      var k :| 0 <= k < |digits| && digits[k] == ',';
      assert !IsDigit(digits[k]);
    }
  }

  /** $(name,text,...) calls that name with those texts, of which there may be 15. */
  lemma CallWithArguments(w: World, counts: seq<nat>, name: string, texts: seq<string>, args: seq<string>)
    requires Running(w, counts) && Plain(name) && OnePiece(name) && Pieces(texts) && texts != []
    ensures Clause(w, counts, name + [','] + JoinComma(texts), args) ==
      if |texts| <= 15 then Call(w, counts, name, texts) else Bad(TooManyArguments)
  {
    hide Plain, OnePiece, Call, SplitFrom, JoinComma, Unsigned, Expand;
    var clause := name + [','] + JoinComma(texts);
    assert clause[|name|] == ',';
    CommaNoNumber(clause);
    SplitPieces(name, [], texts);
    assert [] + name == name;
    PiecesNoLonger(clause, [], 0);
    PiecesExpand(w, counts, [name] + texts, args, |clause|);
    assert ([name] + texts)[1..] == texts;
  }

  lemma {:induction false} ClosingPieces(name: string, texts: seq<string>, tail: string)
    requires OnePiece(name) && Pieces(texts) && texts != []
    ensures var clause := name + [','] + JoinComma(texts); Closing(clause + [')'] + tail, 0) == Some(|clause|)
    decreases |texts|, |name|
  {
    var clause := name + [','] + JoinComma(texts);
    if name == [] {
      assert (clause + [')'] + tail)[1..] == JoinComma(texts) + [')'] + tail;
      if |texts| == 1 {
        ClosingOnePiece(texts[0], tail);
      } else {
        ClosingPieces(texts[0], texts[1..], tail);
      }
    } else {
      assert (clause + [')'] + tail)[1..] == name[1..] + [','] + JoinComma(texts) + [')'] + tail;
      ClosingPieces(name[1..], texts, tail);
    }
  }

  /** So $(name,text,...) comes to that value with text number k in place of $(k). */
  lemma CallExpands(w: World, counts: seq<nat>, i: nat, head: string, k: nat, tail: string, texts: seq<string>,
      rest: string, args: seq<string>)
    requires Running(w, counts) && 1 <= k <= |texts| < FUNCTION_MAX_ARGS && Pieces(texts)
    requires i < |w.vars| && Lookup(w.vars, w.vars[i].name) == Some(i) && w.vars[i].flavor == Recursive
    requires Plain(w.vars[i].name) && OnePiece(w.vars[i].name) && counts[i] <= 1000
    requires w.vars[i].value == head + ("$(" + Decimal(k) + ")" + tail) && Plain(head) && Plain(tail)
    ensures Expand(w, counts, "$(" + w.vars[i].name + "," + JoinComma(texts) + ")" + rest, args, Never)
      == Prefixed(head + texts[k - 1] + tail, Expand(w, counts, rest, args, Never))
  {
    hide Closing, Decimal, Clause, ExpandVariable, JoinComma, OnePiece, Pieces, Lookup, Plain;
    var name := w.vars[i].name;
    var clause := name + [','] + JoinComma(texts);
    var text := "$(" + name + "," + JoinComma(texts) + ")" + rest;
    ArgumentExpands(w, counts, i, head, k, tail, texts);
    CallWithArguments(w, counts, name, texts, args);
    ClosingPieces(name, texts, rest);
    assert text[1..][1..] == clause + [')'] + rest;
    assert (clause + [')'] + rest)[..|clause|] == clause;
    assert text[1..][|clause| + 2..] == rest;
  }

  /** Pieces that cannot be split are what splitting their clause gives back. */
  lemma {:induction false} SplitJoined(done: string, rest: string, n: nat, others: seq<string>)
    requires Nest(done, 0) == Some(n) && Nest(rest, n) == Some(0) && !TopComma(rest, n)
    requires forall p :: p in others ==> Balanced(p) && !TopComma(p, 0)
    ensures SplitFrom(rest + (if others == [] then [] else [','] + JoinComma(others)), done, n) ==
      [done + rest] + others
    decreases |others|, 1, |rest|
  {
    var tail := if others == [] then [] else [','] + JoinComma(others);
    if rest != [] {
      assert (rest + tail)[1..] == rest[1..] + tail;
      NestAppend(done, [rest[0]], 0);
      assert [rest[0]][1..] == [];
      SplitJoined(done + [rest[0]], rest[1..],
        if rest[0] == '(' then n + 1 else if rest[0] == ')' then n - 1 else n, others);
      assert done + [rest[0]] + rest[1..] == done + rest;
    } else {
      assert rest + tail == tail && done + rest == done;
      if others != [] { SplitOthers(others); }
    }
  }

  lemma {:induction false} SplitOthers(others: seq<string>)
    requires others != [] && forall p :: p in others ==> Balanced(p) && !TopComma(p, 0)
    ensures SplitFrom(JoinComma(others), [], 0) == others
    decreases |others|, 0, 0
  {
    var more := others[1..];
    assert others[0] in others;
    SplitJoined([], others[0], 0, more);
    assert [] + others[0] == others[0];
    assert [others[0]] + more == others;
    if more == [] {
      assert others[0] + [] == others[0];
    } else {
      assert others[0] + ([','] + JoinComma(more)) == JoinComma(others);
    }
  }

  /** Name and arguments of a call are expanded before it is made, whatever they are. */
  lemma CallOfPieces(w: World, counts: seq<nat>, pieces: seq<string>, texts: seq<string>, args: seq<string>)
    requires Running(w, counts) && |pieces| == |texts| && 1 <= |pieces| <= 16
    requires forall p :: p in pieces ==> Balanced(p) && !TopComma(p, 0)
    requires forall k :: 0 <= k < |pieces| ==> Expand(w, counts, pieces[k], args, Never) == Expanded(texts[k], [])
    requires Unsigned(JoinComma(pieces)).None?
    ensures Clause(w, counts, JoinComma(pieces), args) == Call(w, counts, texts[0], texts[1..])
  {
    hide SplitFrom, JoinComma, Unsigned, Expand, Call, Balanced, TopComma;
    SplitOthers(pieces);
    PiecesNoLonger(JoinComma(pieces), [], 0);
    PiecesCome(w, counts, pieces, texts, args, |JoinComma(pieces)|);
  }

  lemma {:induction false} PiecesCome(w: World, counts: seq<nat>, pieces: seq<string>, texts: seq<string>,
      args: seq<string>, bound: nat)
    requires Running(w, counts) && |pieces| == |texts| && forall p :: p in pieces ==> |p| <= bound
    requires forall k :: 0 <= k < |pieces| ==> Expand(w, counts, pieces[k], args, Never) == Expanded(texts[k], [])
    ensures ExpandAll(w, counts, pieces, args, bound) == Texts(texts)
  {
    hide Expand;
    if pieces != [] {
      PiecesCome(w, counts, pieces[1..], texts[1..], args, bound);
      assert [texts[0]] + texts[1..] == texts;
    }
  }

  /** A $ that no parenthesis follows stands for itself. */
  lemma DollarAlone(w: World, counts: seq<nat>, s: string, args: seq<string>)
    requires Running(w, counts) && (s == [] || s[0] != '(')
    ensures Expand(w, counts, ['$'] + s, args, Never) == Prefixed("$", Expand(w, counts, s, args, Never))
  {
    assert (['$'] + s)[1..] == s;
    ReferenceFirst(w, counts, ['$'] + s, args);
  }

  /** Expanding ends at the first character that 'stop' accepts; what references expand to is not
      looked at. */
  lemma {:induction false} StopsThere(w: World, counts: seq<nat>, s: string, tail: string, args: seq<string>,
      stop: char -> bool)
    requires Running(w, counts) && Plain(s) && (forall k :: 0 <= k < |s| ==> !stop(s[k]))
    requires tail == [] || (tail[0] != '$' && stop(tail[0]))
    ensures Expand(w, counts, s + tail, args, stop) == Expanded(s, tail)
  {
    if s == [] {
      assert s + tail == tail;
    } else {
      assert (s + tail)[1..] == s[1..] + tail;
      StopsThere(w, counts, s[1..], tail, args, stop);
      assert [s[0]] + s[1..] == s;
    }
  }

  // ----- variables, functions, environment -----

  /** The number of arguments of each built-in function. */
  function Takes(name: string): Option<nat> {
    if name in {"error-if", "warning-if"} then Some(2)
    else if name in {"info", "shell"} then Some(1)
    else if name in {"filename", "lineno"} then Some(0)
    else None
  }

  /** A variable hides a function and an environment variable of its name. */
  lemma VariableFirst(w: World, counts: seq<nat>, i: nat, args: seq<string>)
    requires Running(w, counts) && i < |w.vars| && Lookup(w.vars, w.vars[i].name) == Some(i) && counts[i] == 0
    requires w.vars[i].flavor == Simple || Plain(w.vars[i].value)
    ensures Call(w, counts, w.vars[i].name, args) == Text(w.vars[i].value)
  {
    hide Lookup;
    BudgetFalls(counts, i);
    if Plain(w.vars[i].value) {
      PlainText(w, counts[i := counts[i] + 1], w.vars[i].value, [], args);
      assert w.vars[i].value + [] == w.vars[i].value;
    }
  }

  /** A function hides an environment variable of its name, and must get as many arguments as it
      takes. */
  lemma FunctionSecond(w: World, counts: seq<nat>, name: string, args: seq<string>)
    requires Running(w, counts) && (forall i :: 0 <= i < |w.vars| ==> w.vars[i].name != name) && Takes(name).Some?
    ensures Call(w, counts, name, args) ==
      if |args| < Takes(name).value then Bad(TooFewArguments)
      else if |args| > Takes(name).value then Bad(TooManyArguments)
      else match w.run(name, args) case Some(text) => Text(text) case None => Bad(FunctionError)
  {
    assert Lookup(w.vars, name).None?;
  }

  /** Any other name is looked up in the environment if there are no arguments, and comes to nothing
      if it is not found there. */
  lemma EnvironmentLast(w: World, counts: seq<nat>, name: string, args: seq<string>)
    requires Running(w, counts) && (forall i :: 0 <= i < |w.vars| ==> w.vars[i].name != name) && Takes(name).None?
    ensures args != [] || name == "" || w.env(name).None? ==> Call(w, counts, name, args) == Text("")
    ensures args == [] && name != "" && w.env(name).Some? ==> Call(w, counts, name, args) == Text(w.env(name).value)
  {
    assert Lookup(w.vars, name).None?;
  }

  // ----- definitions -----

  datatype Assignment = AssignSimple | AssignRecursive | AssignAppend

  predicate DistinctNames(vars: seq<Variable>) {
    forall i, j :: 0 <= i < j < |vars| ==> vars[i].name != vars[j].name
  }

  /** The table while the right-hand side is being expanded, and where the variable is in it. A
      variable that is new or about to be overwritten holds nothing of use: 'stale' is whatever is
      found there. */
  function Entered(vars: seq<Variable>, name: string, how: Assignment, stale: string): (r: (seq<Variable>, nat))
    ensures r.1 < |r.0| && Lookup(r.0, name) == Some(r.1)
    ensures |r.0| == if Lookup(vars, name).Some? then |vars| else |vars| + 1
    ensures forall k :: 0 <= k < |vars| && k != r.1 ==> r.0[k] == vars[k]
  {
    var v := Variable(name, stale, if how == AssignSimple then Simple else Recursive);
    match Lookup(vars, name)
    case None => LookupAppend(vars, v); (vars + [v], |vars|)
    case Some(i) => LookupUpdate(vars, i, v); (if how == AssignAppend then vars else vars[i := v], i)
  }

  /** The assigned value: simple variables expand their right-hand side now, recursive ones keep its
      text; += puts it behind the old value. */
  function NewValue(vars: seq<Variable>, name: string, how: Assignment, text: string): string {
    var found := Lookup(vars, name);
    if how == AssignAppend && found.Some? then vars[found.value].value + [' '] + text else text
  }

  /** The table after an assignment whose right-hand side came to 'text'. */
  function Assigned(vars: seq<Variable>, name: string, how: Assignment, text: string): seq<Variable> {
    var (after, i) := Entered(vars, name, how, text);
    after[i := after[i].(value := NewValue(vars, name, how, text))]
  }

  /** Names stay distinct, the assigned variable is found where it was or at the end, and every
      other variable keeps its place, value and flavor. */
  lemma AssignedKeeps(vars: seq<Variable>, name: string, how: Assignment, text: string)
    ensures var after := Assigned(vars, name, how, text);
      var i := Lookup(vars, name);
      (DistinctNames(vars) ==> DistinctNames(after))
      && (forall other :: other != name ==> Lookup(after, other) == Lookup(vars, other))
      && Lookup(after, name) == Some(if i.Some? then i.value else |vars|)
      && forall k :: 0 <= k < |vars| && i != Some(k) ==> after[k] == vars[k]
  {
    hide Lookup;
    var (entered, i) := Entered(vars, name, how, text);
    var v := Variable(name, text, if how == AssignSimple then Simple else Recursive);
    if Lookup(vars, name).None? {
      LookupAppend(vars, v);
      assert forall k :: 0 <= k < |vars| ==> entered[k] == vars[k] && vars[k].name != name;
    } else {
      LookupUpdate(vars, i, v);
    }
    LookupUpdate(entered, i, entered[i].(value := NewValue(vars, name, how, text)));
  }

  /** A simple variable keeps the text its definition expanded to, whatever other variables are
      assigned later. */
  lemma SimpleIsFixed(w: World, name: string, text: string, other: string, how: Assignment, later: string,
      counts: seq<nat>)
    requires other != name
    requires var vars := Assigned(Assigned(w.vars, name, AssignSimple, text), other, how, later);
      Running(w.(vars := vars), counts) && forall k :: 0 <= k < |counts| ==> counts[k] == 0
    ensures var vars := Assigned(Assigned(w.vars, name, AssignSimple, text), other, how, later);
      Call(w.(vars := vars), counts, name, []) == Text(text)
  {
    hide Assigned, Lookup, Expand, Fallback, DistinctNames;
    var first := Assigned(w.vars, name, AssignSimple, text);
    AssignedKeeps(w.vars, name, AssignSimple, text);
    AssignedSimple(w.vars, name, text);
    AssignedKeeps(first, other, how, later);
    var i := Lookup(first, name).value;
    assert first[i].name == name && Lookup(first, other) != Some(i);
  }

  lemma AssignedSimple(vars: seq<Variable>, name: string, text: string)
    ensures var after := Assigned(vars, name, AssignSimple, text);
      var i := Lookup(after, name);
      i.Some? && after[i.value] == Variable(name, text, Simple)
  {
    hide Lookup, DistinctNames;
    AssignedKeeps(vars, name, AssignSimple, text);
  }

  lemma {:induction false} ClosingAppend(s: string, t: string, n: nat)
    requires Closing(s, n).Some?
    ensures Closing(s + t, n) == Closing(s, n)
  {
    assert (s + t)[0] == s[0] && (s + t)[1..] == s[1..] + t;
    if !(s[0] == ')' && n == 0) {
      ClosingAppend(s[1..], t, if s[0] == '(' then n + 1 else if s[0] == ')' then n - 1 else n);
    }
  }

  lemma DollarAppend(w: World, counts: seq<nat>, s: string, t: string, args: seq<string>)
    requires Running(w, counts) && Dollar(w, counts, s, args).Expanded? && (t == [] || t[0] != '(')
    ensures var d := Dollar(w, counts, s, args); Dollar(w, counts, s + t, args) == Expanded(d.text, d.rest + t)
  {
    hide Clause, Closing;
    if s == [] {
      assert s + t == t && [] + t == t;
    } else if s[0] == '(' {
      ReferenceAppend(s, t);
    }
  }

  lemma ReferenceAppend(s: string, t: string)
    requires s != [] && Closing(s[1..], 0).Some?
    ensures var q := Closing(s[1..], 0).value;
      && (s + t)[1..] == s[1..] + t && Closing((s + t)[1..], 0) == Some(q)
      && (s + t)[1..][..q] == s[1..][..q] && (s + t)[q + 2..] == s[q + 2..] + t
  {
    assert (s + t)[1..] == s[1..] + t;
    ClosingAppend(s[1..], t, 0);
    hide Closing;
    var q := Closing(s[1..], 0).value;
    assert (s[1..] + t)[..q] == s[1..][..q];
    assert (s + t)[q + 2..] == s[q + 2..] + t;
  }

  /** Text behind text is expanded behind it, unless it turns a last $ into a reference. */
  lemma {:induction false} ExpandAppend(w: World, counts: seq<nat>, s: string, t: string, args: seq<string>)
    requires Running(w, counts) && Expand(w, counts, s, args, Never).Expanded? && (t == [] || t[0] != '(')
    ensures Expand(w, counts, s + t, args, Never)
      == Prefixed(Expand(w, counts, s, args, Never).text, Expand(w, counts, t, args, Never))
    decreases |s|
  {
    hide Dollar;
    var r := Expand(w, counts, t, args, Never);
    if s == [] {
      assert s + t == t;
      assert r.Expanded? ==> [] + r.text == r.text;
    } else if s[0] == '$' {
      assert (s + t)[1..] == s[1..] + t;
      DollarAppend(w, counts, s[1..], t, args);
      var d := Dollar(w, counts, s[1..], args);
      ExpandAppend(w, counts, d.rest, t, args);
      var x := Expand(w, counts, d.rest, args, Never).text;
      assert r.Expanded? ==> d.text + (x + r.text) == d.text + x + r.text;
    } else {
      assert (s + t)[1..] == s[1..] + t;
      ExpandAppend(w, counts, s[1..], t, args);
      var x := Expand(w, counts, s[1..], args, Never).text;
      assert r.Expanded? ==> [s[0]] + (x + r.text) == [s[0]] + x + r.text;
    }
  }

  lemma AppendedValue(vars: seq<Variable>, name: string, how: Assignment, a: string, b: string)
    requires how != AssignAppend
    ensures var after := Assigned(Assigned(vars, name, how, a), name, AssignAppend, b);
      var i := Lookup(after, name);
      i.Some? && after[i.value] == Variable(name, a + " " + b, if how == AssignSimple then Simple else Recursive)
  {
    hide Lookup, DistinctNames;
    var first := Assigned(vars, name, how, a);
    AssignedKeeps(vars, name, how, a);
    AssignedKeeps(first, name, AssignAppend, b);
  }

  /** After X = a (or X := a) and X += b a call of X comes to what a comes to, a blank, and what b
      comes to. */
  lemma AppendExpands(w: World, counts: seq<nat>, name: string, how: Assignment, a: string, b: string,
      args: seq<string>)
    requires how != AssignAppend
    requires var after := Assigned(Assigned(w.vars, name, how, a), name, AssignAppend, b);
      Running(w.(vars := after), counts) && forall k :: 0 <= k < |counts| ==> counts[k] == 0
    ensures var after := w.(vars := Assigned(Assigned(w.vars, name, how, a), name, AssignAppend, b));
      var i := Lookup(after.vars, name);
      && i.Some? && Running(after, counts[i.value := 1])
      && (how == AssignSimple ==> Call(after, counts, name, args) == Text(a + " " + b))
      && var x := Expand(after, counts[i.value := 1], a, args, Never);
         var y := Expand(after, counts[i.value := 1], b, args, Never);
         (how == AssignRecursive && x.Expanded? && y.Expanded? ==>
            Call(after, counts, name, args) == Text(x.text + " " + y.text))
  {
    hide Assigned, Lookup, Fallback, Dollar;
    AppendedValue(w.vars, name, how, a, b);
    var after := w.(vars := Assigned(Assigned(w.vars, name, how, a), name, AssignAppend, b));
    var i := Lookup(after.vars, name).value;
    var inside := counts[i := 1];
    BudgetFalls(counts, i);
    var x, y := Expand(after, inside, a, args, Never), Expand(after, inside, b, args, Never);
    if how == AssignRecursive && x.Expanded? && y.Expanded? {
      assert a + " " + b == a + (" " + b);
      ExpandAppend(after, inside, a, " " + b, args);
      PlainText(after, inside, " ", b, args);
      assert x.text + (" " + y.text) == x.text + " " + y.text;
    }
  }

  lemma {:induction false} LookupAppend(vars: seq<Variable>, v: Variable)
    ensures forall name ::
        Lookup(vars + [v], name) ==
          if Lookup(vars, name).None? && v.name == name then Some(|vars|) else Lookup(vars, name)
  {
    if vars != [] {
      assert (vars + [v])[1..] == vars[1..] + [v];
      LookupAppend(vars[1..], v);
    }
  }

  lemma {:induction false} LookupUpdate(vars: seq<Variable>, i: nat, v: Variable)
    requires i < |vars| && v.name == vars[i].name
    ensures forall other :: Lookup(vars[i := v], other) == Lookup(vars, other)
  {
    if i > 0 {
      assert vars[i := v][1..] == vars[1..][i - 1 := v];
      LookupUpdate(vars[1..], i - 1, v);
    } else {
      assert vars[i := v][1..] == vars[1..];
    }
  }

  // ----- the expansion as the program runs it -----

  /** One more character of the clause: the comma scan and the recursive split agree. */
  lemma SplitStep(clause: string, prev: nat, p: nat, nest: int)
    requires prev <= p < |clause|
    ensures clause[p] == ',' && nest == 0 ==>
      SplitFrom(clause[p..], clause[prev..p], nest) ==
        [clause[prev..p]] + SplitFrom(clause[p + 1..], clause[p + 1..p + 1], 0)
    ensures !(clause[p] == ',' && nest == 0) ==>
      SplitFrom(clause[p..], clause[prev..p], nest)
      == SplitFrom(clause[p + 1..], clause[prev..p + 1],
                   if clause[p] == '(' then nest + 1 else if clause[p] == ')' then nest - 1 else nest)
  {
    assert clause[p..][1..] == clause[p + 1..];
    assert clause[p + 1..p + 1] == [];
    assert clause[prev..p + 1] == clause[prev..p] + [clause[p]];
  }

  lemma SplitEnd(clause: string, prev: nat, nest: int)
    requires prev <= |clause|
    ensures SplitFrom(clause[|clause|..], clause[prev..|clause|], nest) == [clause[prev..]]
  {
    assert clause[prev..|clause|] == clause[prev..];
  }

  /** One piece at a time. */
  lemma PieceAt(w: World, counts: seq<nat>, pieces: seq<string>, args: seq<string>, bound: nat, i: nat,
      done: seq<string>)
    requires Running(w, counts) && i <= |pieces| && forall p :: p in pieces ==> |p| <= bound
    ensures i == 0 ==>
      ExpandAll(w, counts, pieces, args, bound) == Joined([], ExpandAll(w, counts, pieces[i..], args, bound))
    ensures i == |pieces| ==> Joined(done, ExpandAll(w, counts, pieces[i..], args, bound)) == Texts(done)
    ensures i < |pieces| ==> pieces[i][0..] == pieces[i]
    ensures i < |pieces| ==>
      var first := Expand(w, counts, pieces[i], args, Never);
      Joined(done, ExpandAll(w, counts, pieces[i..], args, bound)) ==
        if first.Failed? then Stopped(first.error)
        else Joined(done + [first.text], ExpandAll(w, counts, pieces[i + 1..], args, bound))
  {
    hide Expand;
    if i < |pieces| {
      assert pieces[i..][1..] == pieces[i + 1..];
      var first, others :=
        Expand(w, counts, pieces[i], args, Never), ExpandAll(w, counts, pieces[i + 1..], args, bound);
      if first.Expanded? && others.Texts? {
        assert done + ([first.text] + others.texts) == done + [first.text] + others.texts;
      }
    }
    if i == 0 {
      assert pieces[0..] == pieces;
      var all := ExpandAll(w, counts, pieces, args, bound);
      if all.Texts? { assert [] + all.texts == all.texts; }
    }
  }

  /** The closing parenthesis seen from position p of s rather than from where the clause starts. */
  function ClosingFrom(s: string, p: nat, n: nat): (q: Option<nat>)
    requires p <= |s|
  {
    var c := Closing(s[p..], n);
    if c.None? then None else Some(c.value + p)
  }

  lemma ClosingStep(s: string, p: nat, n: nat)
    requires p <= |s|
    ensures p == |s| ==> ClosingFrom(s, p, n) == None
    ensures p < |s| && s[p] == ')' && n == 0 ==> ClosingFrom(s, p, n) == Some(p)
    ensures p < |s| && !(s[p] == ')' && n == 0) ==>
      ClosingFrom(s, p, n) == ClosingFrom(s, p + 1, if s[p] == '(' then n + 1 else if s[p] == ')' then n - 1 else n)
  {
    if p < |s| { assert s[p..][1..] == s[p + 1..]; }
  }

  /** A reference that starts at s[from], in terms of positions in s. */
  lemma DollarAt(w: World, counts: seq<nat>, s: string, from: nat, args: seq<string>)
    requires Running(w, counts) && from < |s| && s[from] == '('
    ensures var q := ClosingFrom(s, from + 1, 0);
      Dollar(w, counts, s[from..], args) ==
        if q.None? then Failed(Unterminated)
        else
          var r := Clause(w, counts, s[from + 1..q.value], args);
          if r.Bad? then Failed(r.error) else Expanded(r.text, s[q.value + 1..])
  {
    hide Clause, Closing;
    var c := Closing(s[from + 1..], 0);
    assert s[from..][1..] == s[from + 1..];
    if c.Some? {
      assert s[from + 1..][..c.value] == s[from + 1..c.value + from + 1];
      assert s[from..][c.value + 2..] == s[c.value + from + 2..];
    }
  }

  function Joined(done: seq<string>, others: Texts): Texts {
    if others.Stopped? then others else Texts(done + others.texts)
  }

  /** One step at position p: s[start..p] is still to be copied behind 'out'. */
  lemma ExpandSkips(w: World, counts: seq<nat>, s: string, start: nat, p: nat, out: string, args: seq<string>,
      stop: char -> bool)
    requires Running(w, counts) && start <= p < |s|
    requires s[p] != '$' && !stop(s[p])
    ensures Prefixed(out + s[start..p], Expand(w, counts, s[p..], args, stop))
      == Prefixed(out + s[start..p + 1], Expand(w, counts, s[p + 1..], args, stop))
  {
    assert s[p..][1..] == s[p + 1..];
    assert s[start..p + 1] == s[start..p] + [s[p]];
    var r := Expand(w, counts, s[p + 1..], args, stop);
    if r.Expanded? { assert out + s[start..p] + ([s[p]] + r.text) == out + s[start..p + 1] + r.text; }
  }

  lemma ExpandReference(w: World, counts: seq<nat>, s: string, start: nat, p: nat, out: string, args: seq<string>,
      stop: char -> bool)
    requires Running(w, counts) && start <= p < |s| && s[p] == '$'
    ensures var d := Dollar(w, counts, s[p + 1..], args);
      Prefixed(out + s[start..p], Expand(w, counts, s[p..], args, stop))
      == if d.Failed? then d else Prefixed(out + s[start..p] + d.text, Expand(w, counts, d.rest, args, stop))
  {
    assert s[p..][1..] == s[p + 1..];
    var d := Dollar(w, counts, s[p + 1..], args);
    if d.Expanded? {
      var r := Expand(w, counts, d.rest, args, stop);
      if r.Expanded? { assert out + s[start..p] + (d.text + r.text) == out + s[start..p] + d.text + r.text; }
    }
  }

  lemma ExpandEnds(w: World, counts: seq<nat>, s: string, start: nat, p: nat, out: string, args: seq<string>,
      stop: char -> bool)
    requires Running(w, counts) && start <= p <= |s|
    ensures start == p && out == [] ==>
      Prefixed(out + s[start..p], Expand(w, counts, s[p..], args, stop)) == Expand(w, counts, s[p..], args, stop)
    ensures p == |s| || (s[p] != '$' && stop(s[p])) ==>
      Prefixed(out + s[start..p], Expand(w, counts, s[p..], args, stop)) == Expanded(out + s[start..p], s[p..])
  {
  }

  function LookupFrom(vars: seq<Variable>, name: string, i: nat): Option<nat>
    requires i <= |vars|
  {
    var l := Lookup(vars[i..], name);
    if l.None? then None else Some(l.value + i)
  }

  lemma LookupStep(vars: seq<Variable>, name: string, i: nat)
    requires i <= |vars|
    ensures LookupFrom(vars, name, 0) == Lookup(vars, name)
    ensures i == |vars| ==> LookupFrom(vars, name, i) == None
    ensures i < |vars| ==>
      LookupFrom(vars, name, i) == if vars[i].name == name then Some(i) else LookupFrom(vars, name, i + 1)
  {
    assert vars[0..] == vars;
    if i < |vars| { assert vars[i..][1..] == vars[i + 1..]; }
  }

  class Preprocessor {
    var w: World
    /** counts[i] is the expansion count kept in w.vars[i]. */
    var counts: seq<nat>

    predicate Valid()
      reads this
    {
      Running(w, counts)
    }

    constructor (run: (string, seq<string>) -> Option<string>, env: string -> Option<string>)
      ensures Valid() && w == World([], run, env) && counts == []
    {
      w := World([], run, env);
      counts := [];
    }

    method VariableLookup(name: string) returns (found: Option<nat>)
      ensures found == Lookup(w.vars, name)
    {
      hide *;
      var i := 0;
      LookupStep(w.vars, name, 0);
      while i < |w.vars|
        invariant i <= |w.vars|
        invariant LookupFrom(w.vars, name, 0) == LookupFrom(w.vars, name, i)
      {
        LookupStep(w.vars, name, i);
        if w.vars[i].name == name { return Some(i); }
        i := i + 1;
      }
      LookupStep(w.vars, name, i);
      return None;
    }

    method VariableExpand(name: string, args: seq<string>) returns (r: Outcome)
      requires Valid()
      modifies this`counts
      ensures r == ExpandVariable(w, old(counts), name, args)
      ensures !r.Bad? ==> counts == old(counts)
      decreases Budget(counts), 0, 0, 0
    {
      hide Expand, Lookup, Budget;
      var found := VariableLookup(name);
      if found.None? { return Missing; }
      var i := found.value;
      if args == [] && counts[i] > 0 { return Bad(RecursiveVariable); }
      if counts[i] > MAX_DEPTH { return Bad(TooDeep); }
      BudgetFalls(counts, i);
      counts := counts[i := counts[i] + 1];
      if w.vars[i].flavor == Recursive {
        var to;
        r, to := ExpandString(w.vars[i].value, 0, args, Never);
        if r.Bad? { return; }
      } else {
        r := Text(w.vars[i].value);
      }
      counts := counts[i := counts[i] - 1];
    }

    method EvalClause(clause: string, args: seq<string>) returns (r: Outcome)
      requires Valid()
      modifies this`counts
      ensures r == Clause(w, old(counts), clause, args)
      ensures !r.Bad? ==> counts == old(counts)
      decreases Budget(counts), |clause|, 2, 0
    {
      hide SplitFrom, Expand, ExpandVariable, Fallback, Unsigned;
      if Positional(clause, args).Some? { return Text(Positional(clause, args).value); }
      var argv: seq<string>, prev, p, nest := [], 0, 0, 0;
      while p < |clause|
        invariant prev <= p <= |clause|
        invariant |argv| <= FUNCTION_MAX_ARGS
        invariant Split(clause) == argv + SplitFrom(clause[p..], clause[prev..p], nest)
        invariant counts == old(counts)
      {
        SplitStep(clause, prev, p, nest);
        if nest == 0 && clause[p] == ',' {
          if |argv| >= FUNCTION_MAX_ARGS { return Bad(TooManyArguments); }
          argv := argv + [clause[prev..p]];
          prev := p + 1;
        } else if clause[p] == '(' {
          nest := nest + 1;
        } else if clause[p] == ')' {
          nest := nest - 1;
        }
        p := p + 1;
      }
      if |argv| >= FUNCTION_MAX_ARGS { return Bad(TooManyArguments); }
      SplitEnd(clause, prev, nest);
      argv := argv + [clause[prev..]];
      PiecesNoLonger(clause, [], 0);
      var texts := ExpandPieces(argv, args, |clause|);
      if texts.Stopped? { return Bad(texts.error); }
      r := VariableExpand(texts.texts[0], texts.texts[1..]);
      if r.Missing? { r := Fallback(w, texts.texts[0], texts.texts[1..]); }
    }

    method ExpandPieces(pieces: seq<string>, args: seq<string>, ghost bound: nat) returns (r: Texts)
      requires Valid()
      requires forall p :: p in pieces ==> |p| <= bound
      modifies this`counts
      ensures r == ExpandAll(w, old(counts), pieces, args, bound)
      ensures r.Texts? ==> counts == old(counts)
      decreases Budget(counts), bound, 1, |pieces|
    {
      hide Expand, ExpandAll, Joined;
      var done: seq<string>, i := [], 0;
      PieceAt(w, counts, pieces, args, bound, 0, []);
      while i < |pieces|
        invariant i <= |pieces| && counts == old(counts)
        invariant ExpandAll(w, counts, pieces, args, bound) ==
          Joined(done, ExpandAll(w, counts, pieces[i..], args, bound))
      {
        PieceAt(w, counts, pieces, args, bound, i, done);
        var text, to := ExpandString(pieces[i], 0, args, Never);
        if text.Bad? { return Stopped(text.error); }
        done := done + [text.text];
        i := i + 1;
      }
      PieceAt(w, counts, pieces, args, bound, i, done);
      return Texts(done);
    }

    method ExpandDollar(s: string, from: nat, args: seq<string>) returns (r: Outcome, to: nat)
      requires Valid() && from <= |s|
      modifies this`counts
      ensures !r.Missing? && to <= |s|
      ensures Dollar(w, old(counts), s[from..], args) == if r.Bad? then Failed(r.error) else Expanded(r.text, s[to..])
      ensures !r.Bad? ==> counts == old(counts)
      decreases Budget(counts), |s| - from, 0, 0
    {
      hide Closing, ClosingFrom, Clause, SplitFrom;
      if from == |s| || s[from] != '(' { return Text(['$']), from; }
      DollarAt(w, counts, s, from, args);
      var q, nest := from + 1, 0;
      ClosingStep(s, q, nest);
      while q < |s| && !(s[q] == ')' && nest == 0)
        invariant from < q <= |s| && nest >= 0 && counts == old(counts)
        invariant q < |s| && s[q] == ')' && nest == 0 ==> ClosingFrom(s, q, nest) == Some(q)
        invariant ClosingFrom(s, from + 1, 0) == ClosingFrom(s, q, nest)
      {
        ClosingStep(s, q, nest);
        if s[q] == '(' { nest := nest + 1; } else if s[q] == ')' { nest := nest - 1; }
        q := q + 1;
        ClosingStep(s, q, nest);
      }
      ClosingStep(s, q, nest);
      if q == |s| { return Bad(Unterminated), from; }
      to := q + 1;
      r := EvalClause(s[from + 1..q], args);
    }

    method ExpandString(s: string, from: nat, args: seq<string>, stop: char -> bool) returns (r: Outcome, to: nat)
      requires Valid() && from <= |s|
      modifies this`counts
      ensures !r.Missing? && to <= |s|
      ensures Expand(w, old(counts), s[from..], args, stop) ==
        if r.Bad? then Failed(r.error) else Expanded(r.text, s[to..])
      ensures !r.Bad? ==> counts == old(counts)
      decreases Budget(counts), |s| - from, 0, 1
    {
      hide Expand, Dollar, Prefixed;
      ExpandEnds(w, counts, s, from, from, [], args, stop);
      var out: string, start, p := [], from, from;
      while p < |s| && (s[p] == '$' || !stop(s[p]))
        invariant from <= start <= p <= |s| && counts == old(counts)
        invariant Expand(w, counts, s[from..], args, stop)
          == Prefixed(out + s[start..p], Expand(w, counts, s[p..], args, stop))
      {
        if s[p] == '$' {
          ExpandReference(w, counts, s, start, p, out, args, stop);
          var expansion, next := ExpandDollar(s, p + 1, args);
          if expansion.Bad? { return expansion, from; }
          out := out + s[start..p] + expansion.text;
          start, p := next, next;
          assert out + s[start..p] == out;
        } else {
          ExpandSkips(w, counts, s, start, p, out, args, stop);
          p := p + 1;
        }
      }
      ExpandEnds(w, counts, s, start, p, out, args, stop);
      return Text(out + s[start..p]), p;
    }
  
    /** Assigns a variable; on an error the program ends. 'stale' is what the released or fresh
        value of the variable would read as while its own new value is being expanded. */
    method VariableAdd(name: string, value: string, how: Assignment, stale: string) returns (r: Outcome)
      requires Valid()
      modifies this
      ensures w.run == old(w).run && w.env == old(w).env
      ensures var (entered, i) := Entered(old(w).vars, name, how, stale);
        var during := old(w).(vars := entered);
        var running := if |entered| == |old(w).vars| then old(counts) else old(counts) + [0];
        match r
        case Missing => false
        case Bad(e) => entered[i].flavor == Simple && Expand(during, running, value, [], Never) == Failed(e)
        case Text(text) =>
          (if entered[i].flavor == Simple then
             Expand(during, running, value, [], Never).Expanded? &&
               Expand(during, running, value, [], Never).text == text
           else text == value)
          && w.vars == Assigned(old(w).vars, name, how, text) && counts == running && Valid()
    {
      hide Expand, Lookup;
      var found := VariableLookup(name);
      var i := if found.Some? then found.value else |w.vars|;
      var before := if found.Some? then w.vars[i].value else [];
      var append := how == AssignAppend && found.Some?;
      if found.None? {
        w := w.(vars := w.vars + [Variable(name, stale, if how == AssignSimple then Simple else Recursive)]);
        counts := counts + [0];
      } else if !append {
        w := w.(vars := w.vars[i := Variable(name, stale, if how == AssignSimple then Simple else Recursive)]);
      }
      r := Text(value);
      if w.vars[i].flavor == Simple {
        var to;
        assert value[0..] == value;
        r, to := ExpandString(value, 0, [], Never);
        if r.Bad? { return; }
      }
      w := w.(vars := w.vars[i := w.vars[i].(value := if append then before + [' '] + r.text else r.text)]);
    }
  }
}
