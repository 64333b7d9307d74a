/** One line of .config or auto.conf: what is written for a symbol and what is read back
    (scripts/config/confdata.c). */
module ConfLine {
  import opened Expressions
  import opened Chars

  const PREFIX: string := "CONFIG_"
  const UNSET: string := "is not set"

  predicate Special(c: char) { c == '"' || c == '\\' }

  // ----- quoting -----

  function Escaped(s: string): string {
    if s == [] then []
    else if Special(s[0]) then ['\\', s[0]] + Escaped(s[1..])
    else [s[0]] + Escaped(s[1..])
  }

  function Quoted(s: string): string { ['"'] + Escaped(s) + ['"'] }

  /** The text up to the closing quote, a backslash standing for the character behind it; None
      when there is no closing quote. */
  function Unescaped(s: string): Option<string> {
    if s == [] then None
    else if s[0] == '"' then Some([])
    else if s[0] == '\\' then
      if |s| == 1 then None else Behind([s[1]], Unescaped(s[2..]))
    else Behind([s[0]], Unescaped(s[1..]))
  }

  function Behind(head: string, s: Option<string>): Option<string> {
    if s.None? then None else Some(head + s.value)
  }

  /** A text with a backslash in front of every character that is marked. */
  function Spelled(s: string, marks: seq<bool>): string
    requires |marks| == |s|
  {
    if s == [] then [] else (if marks[0] then ['\\', s[0]] else [s[0]]) + Spelled(s[1..], marks[1..])
  }

  lemma SpelledStep(s: string, marks: seq<bool>)
    requires |marks| == |s| && s != []
    ensures Spelled(s, marks) == (if marks[0] then ['\\', s[0]] else [s[0]]) + Spelled(s[1..], marks[1..])
  {
  }

  /** However it is spelled, as long as quotes and backslashes are marked, it is the text that is read. */
  lemma {:induction false} UnescapeSpelled(s: string, marks: seq<bool>, rest: string)
    requires |marks| == |s| && forall k :: 0 <= k < |s| && Special(s[k]) ==> marks[k]
    ensures Unescaped(Spelled(s, marks) + ['"'] + rest) == Some(s)
  {
    if s != [] {
      UnescapeSpelled(s[1..], marks[1..], rest);
      SpelledStep(s, marks);
      var below := Spelled(s[1..], marks[1..]);
      var tail := below + ['"'] + rest;
      hide Spelled;
      if marks[0] {
        assert ['\\', s[0]] + below + ['"'] + rest == ['\\', s[0]] + tail;
        assert (['\\', s[0]] + tail)[2..] == tail;
      } else {
        assert [s[0]] + below + ['"'] + rest == [s[0]] + tail;
      }
      assert [s[0]] + s[1..] == s;
    }
  }

  lemma {:induction false} EscapedSpelled(s: string)
    ensures Escaped(s) == Spelled(s, seq(|s|, k requires 0 <= k < |s| => Special(s[k])))
  {
    if s != [] {
      EscapedSpelled(s[1..]);
      assert seq(|s|, k requires 0 <= k < |s| => Special(s[k]))[1..]
        == seq(|s[1..]|, k requires 0 <= k < |s[1..]| => Special(s[1..][k]));
    }
  }

  /** Whatever stands behind the closing quote is ignored. */
  lemma UnescapeEscaped(s: string, rest: string)
    ensures Unescaped(Escaped(s) + ['"'] + rest) == Some(s)
  {
    hide Escaped, Spelled, Unescaped;
    EscapedSpelled(s);
    UnescapeSpelled(s, seq(|s|, k requires 0 <= k < |s| => Special(s[k])), rest);
  }

  /** How many backslashes stand directly in front of s[i]. */
  function Backslashes(s: string, i: nat): nat
    requires i <= |s|
  {
    if i == 0 || s[i - 1] != '\\' then 0 else 1 + Backslashes(s, i - 1)
  }

  /** A quote that ends the text: the backslashes in front of it belong together in pairs. */
  ghost predicate EndsText(s: string, i: nat) { i < |s| && s[i] == '"' && Backslashes(s, i) % 2 == 0 }

  lemma {:induction false} BackslashesBehind(s: string, skip: nat, i: nat)
    requires skip <= i <= |s|
    requires skip == 1 || skip == 2
    requires s[0] == '\\' <==> skip == 2
    ensures Backslashes(s, i) % 2 == Backslashes(s[skip..], i - skip) % 2
    decreases i
  {
    if i > skip {
      assert s[i - 1] == s[skip..][i - 1 - skip];
      if s[i - 1] == '\\' { BackslashesBehind(s, skip, i - 1); }
    } else {
      assert Backslashes(s, 1) == if s[0] == '\\' then 1 else 0;
    }
  }

  /** A quoted text is complete exactly when some quote ends it. */
  lemma {:induction false} UnescapedExact(s: string)
    ensures Unescaped(s).Some? <==> exists i: nat :: EndsText(s, i)
  {
    if s == [] {
    } else if s[0] == '"' {
      assert EndsText(s, 0);
    } else {
      var skip := if s[0] == '\\' then 2 else 1;
      if |s| >= skip {
        EndsBehind(s, skip);
        UnescapedExact(s[skip..]);
      }
    }
  }

  lemma {:induction false} EndsBehind(s: string, skip: nat)
    requires |s| >= skip && s != [] && s[0] != '"' && skip == if s[0] == '\\' then 2 else 1
    ensures (exists i: nat :: EndsText(s, i)) <==> exists i: nat :: EndsText(s[skip..], i)
  {
    forall i: nat | EndsText(s[skip..], i) ensures EndsText(s, i + skip) { BackslashesBehind(s, skip, i + skip); }
    forall i: nat | EndsText(s, i) ensures i >= skip && EndsText(s[skip..], i - skip) {
      assert i == 1 && skip == 2 ==> Backslashes(s, 1) == 1 + Backslashes(s, 0);
      assert i >= skip;
      BackslashesBehind(s, skip, i);
    }
  }

  lemma {:induction false} EscapedAppend(a: string, b: string)
    ensures Escaped(a + b) == Escaped(a) + Escaped(b)
  {
    if a == [] {
      assert a + b == b;
    } else {
      assert (a + b)[1..] == a[1..] + b;
      EscapedAppend(a[1..], b);
    }
  }

  /** Only quotes and backslashes are escaped. */
  lemma {:induction false} EscapedPlain(s: string)
    requires forall k :: 0 <= k < |s| ==> s[k] != '"' && s[k] != '\\'
    ensures Escaped(s) == s
  {
    if s != [] {
      EscapedPlain(s[1..]);
      assert [s[0]] + s[1..] == s;
    }
  }

  /** strcspn(s + at, "\"\\"). */
  function Span(s: string, at: nat): (n: nat)
    requires at <= |s|
    ensures at + n <= |s| && (at + n < |s| ==> Special(s[at + n]))
    ensures forall k :: at <= k < at + n ==> !Special(s[k])
    decreases |s| - at
  {
    if at == |s| || Special(s[at]) then 0 else 1 + Span(s, at + 1)
  }

  /** A run of ordinary characters, and the special one behind it. */
  lemma EscapedRun(s: string, p: nat)
    requires p <= |s|
    ensures Escaped(s[..p + Span(s, p)]) == Escaped(s[..p]) + s[p..p + Span(s, p)]
    ensures p + Span(s, p) < |s| ==>
      Escaped(s[..p + Span(s, p) + 1]) == Escaped(s[..p]) + s[p..p + Span(s, p)] + ['\\', s[p + Span(s, p)]]
  {
    var q := p + Span(s, p);
    assert s[..q] == s[..p] + s[p..q];
    EscapedAppend(s[..p], s[p..q]);
    EscapedPlain(s[p..q]);
    if q < |s| {
      assert s[..q + 1] == s[..q] + [s[q]];
      EscapedAppend(s[..q], [s[q]]);
      assert Escaped([s[q]]) == ['\\', s[q]];
    }
  }

  /** Two passes: the first sizes the output (terminating zero included), the second fills it. */
  method EscapeStringValue(input: string) returns (out: string, size: nat)
    ensures out == Quoted(input)
    ensures size == |out| + 1
  {
    hide Escaped, Span;
    size := |input| + 2 + 1;
    var p := 0;
    EscapedPlain([]);
    assert input[..p] == [];
    while true
      invariant p <= |input|
      invariant size == |input| + 3 + |Escaped(input[..p])| - p
      decreases |input| - p
    {
      EscapedRun(input, p);
      p := p + Span(input, p);
      if p == |input| { break; }
      size := size + 1;
      p := p + 1;
    }
    assert input[..p] == input;

    out := ['"'];
    p := 0;
    assert input[..p] == [];
    while true
      invariant p <= |input|
      invariant out == ['"'] + Escaped(input[..p])
      decreases |input| - p
    {
      EscapedRun(input, p);
      var len := Span(input, p);
      out := out + input[p..p + len];
      p := p + len;
      if p == |input| { break; }
      out := out + ['\\'] + [input[p]];
      p := p + 1;
    }
    assert input[..p] == input;
    out := out + ['"'];
  }

  // ----- values -----


  function WithoutMinus(s: string): string { if s != [] && s[0] == '-' then s[1..] else s }

  function WithoutPrefix(s: string): string {
    if |s| >= 2 && s[0] == '0' && (s[1] == 'x' || s[1] == 'X') then s[2..] else s
  }

  predicate HexDigits(s: string) { s != [] && forall k :: 0 <= k < |s| ==> IsHexDigit(s[k]) }

  /** sym_string_valid for the types whose values are texts. */
  predicate StringValid(kind: SymbolType, s: string) {
    match kind
    case Str => true
    case Int =>
      var digits := WithoutMinus(s);
      digits != [] && AllDigits(digits) && (digits[0] == '0' ==> |digits| == 1)
    case Hex => HexDigits(WithoutPrefix(s))
    case _ => false
  }

  /** What a value read for a symbol does: refused with a warning, passed over in silence, or
      stored. */
  datatype Setting = Refused | Ignored | SetTri(tri: Tristate) | SetText(text: string)

  /** conf_set_sym_val; 'auto' when reading auto.conf, whose strings carry no quotes. */
  function SetSymVal(kind: SymbolType, auto: bool, p: string): Setting {
    match kind
    case Tristates => if p != [] && p[0] == 'm' then SetTri(MOD) else SetSwitch(p)
    case Boolean => SetSwitch(p)
    case Str =>
      if auto then SetText(p)
      else if p == [] || p[0] != '"' then Ignored
      else if Unescaped(p[1..]).None? then Refused
      else SetText(Unescaped(p[1..]).value)
    case Unknown => Ignored
    case _ => if StringValid(kind, p) then SetText(p) else Refused
  }

  function SetSwitch(p: string): Setting {
    if p != [] && p[0] == 'y' then SetTri(YES)
    else if p != [] && p[0] == 'n' then SetTri(NO)
    else Refused
  }

  lemma BehindNothing(s: Option<string>)
    ensures Behind([], s) == s
  {
    if s.Some? { assert [] + s.value == s.value; }
  }

  /** Two neighbouring characters: an ordinary one moves on, a backslash takes the next with it. */
  lemma UnescapedStep(head: string, s: string)
    requires s != [] && s[0] != '"'
    ensures s[0] != '\\' ==> Behind(head, Unescaped(s)) == Behind(head + [s[0]], Unescaped(s[1..]))
    ensures s[0] == '\\' && |s| > 1 ==> Behind(head, Unescaped(s)) == Behind(head + [s[1]], Unescaped(s[2..]))
    ensures s[0] == '\\' && |s| == 1 ==> Unescaped(s) == None
  {
    var skip := if s[0] == '\\' then 1 else 0;
    if |s| > skip {
      var rest := Unescaped(s[skip + 1..]);
      if rest.Some? { assert head + ([s[skip]] + rest.value) == head + [s[skip]] + rest.value; }
    }
  }

  /** memmove over the character at p, for a text that ends at buf[last]. */
  method MoveDown(buf: array<char>, p: nat, last: nat)
    requires p < last < buf.Length
    modifies buf
    ensures buf[..p] == old(buf[..p]) && buf[p..last - 1] == old(buf[p + 1..last])
  {
    forall k | p <= k < last { buf[k] := buf[k + 1]; }
  }

  /** One character of the loop, which leaves b[from..p] unescaped: an ordinary one stays, ... */
  lemma CopyStep(b: string, from: nat, p: nat, last: nat)
    requires from <= p < last <= |b| && !Special(b[p])
    ensures Behind(b[from..p], Unescaped(b[p..last])) == Behind(b[from..p + 1], Unescaped(b[p + 1..last]))
  {
    hide Unescaped, Behind;
    UnescapedStep(b[from..p], b[p..last]);
    assert b[p..last][1..] == b[p + 1..last] && b[from..p + 1] == b[from..p] + [b[p]];
  }

  /** ... and a backslash makes way for the next one. */
  lemma SkipStep(b: string, c: string, from: nat, p: nat, last: nat)
    requires |b| == |c| && from <= p < last < |b| && b[p] == '\\'
    requires c[..p] == b[..p] && c[p..last] == b[p + 1..last + 1]
    ensures Behind(b[from..p], Unescaped(b[p..last + 1])) == Behind(c[from..p + 1], Unescaped(c[p + 1..last]))
  {
    hide Unescaped, Behind;
    var tail := b[p..last + 1];
    UnescapedStep(b[from..p], tail);
    assert c[p] == c[p..last][0] == b[p + 1..last + 1][0] == tail[1];
    assert c[from..p] == c[..p][from..] == b[..p][from..] == b[from..p];
    assert c[from..p + 1] == b[from..p] + [tail[1]];
    assert c[p + 1..last] == c[p..last][1..] == tail[2..];
  }

  lemma SameFront(b: string, c: string, from: nat, p: nat)
    requires from <= p <= |b| && p <= |c| && c[..p] == b[..p]
    ensures c[..from] == b[..from]
  {
    assert c[..from] == c[..p][..from];
  }

  /** Removes the backslashes of buf[from..end] where it stands, up to the closing quote; the text
      is followed by a zero at buf[end]. Returns where the unescaped text now ends. */
  method UnescapeInPlace(buf: array<char>, from: nat, end: nat) returns (stop: Option<nat>)
    requires from <= end < buf.Length
    modifies buf
    ensures stop.Some? ==> from <= stop.value <= end
    ensures Unescaped(old(buf[from..end])) == if stop.None? then None else Some(buf[from..stop.value])
    ensures buf[..from] == old(buf[..from])
  {
    hide Unescaped, Behind;
    var p, last := from, end;
    BehindNothing(Unescaped(buf[from..end]));
    assert buf[from..from] == [];
    while p < last
      invariant from <= p <= last <= end
      invariant Unescaped(old(buf[from..end])) == Behind(buf[from..p], Unescaped(buf[p..last]))
      invariant buf[..from] == old(buf[..from])
      decreases last - p
    {
      if buf[p] == '"' {
        AtQuote(buf[from..p], buf[p..last]);
        return Some(p);
      }
      ghost var before := buf[..];
      if buf[p] == '\\' {
        MoveDown(buf, p, last);
        SameFront(before, buf[..], from, p);
        last := last - 1;
        if p == last {
          AtEnd(before[from..p], before[p..last + 1]);
          return None;
        }
        SkipStep(before, buf[..], from, p, last);
      } else {
        CopyStep(before, from, p, last);
      }
      p := p + 1;
    }
    AtEnd(buf[from..p], buf[p..last]);
    return None;
  }

  lemma AtQuote(head: string, s: string)
    requires s != [] && s[0] == '"'
    ensures Behind(head, Unescaped(s)) == Some(head)
  {
    assert head + [] == head;
  }

  lemma AtEnd(head: string, s: string)
    requires s == [] || s == ['\\']
    ensures Behind(head, Unescaped(s)) == None
  {
  }

  /** conf_set_sym_val on the value at buf[from..end]: strings are unescaped where they stand. */
  method ConfSetSymVal(kind: SymbolType, auto: bool, buf: array<char>, from: nat, end: nat) returns (r: Setting)
    requires from <= end < buf.Length
    modifies buf
    ensures r == SetSymVal(kind, auto, old(buf[from..end]))
  {
    if kind == Tristates && from < end && buf[from] == 'm' { return SetTri(MOD); }
    if kind == Tristates || kind == Boolean {
      if from < end && buf[from] == 'y' { return SetTri(YES); }
      if from < end && buf[from] == 'n' { return SetTri(NO); }
      return Refused;
    }
    if kind == Unknown { return Ignored; }
    var start, stop := from, end;
    if kind == Str && !auto {
      if from == end || buf[from] != '"' { return Ignored; }
      start := from + 1;
      assert buf[from..end][1..] == buf[start..end];
      var closing := UnescapeInPlace(buf, start, end);
      if closing.None? { return Refused; }
      stop := closing.value;
    }
    var text := buf[start..stop];
    return if StringValid(kind, text) then SetText(text) else Refused;
  }

  // ----- lines -----

  /** How a bool or tristate symbol that is n is written. */
  datatype OutputN = AsIs | AsUnset | Nothing

  /** __print_symbol: the line for a symbol, empty when nothing is written. */
  function PrintSymbol(name: string, kind: SymbolType, value: string, n: OutputN, escape: bool): string {
    if kind == Unknown then []
    else if Switch(kind) && n != AsIs && value != [] && value[0] == 'n' then
      if n == AsUnset then "# " + PREFIX + name + " " + UNSET + "\n" else []
    else PREFIX + name + "=" + (if kind == Str && escape then Quoted(value) else value) + "\n"
  }

  /** strchr: the position of the first c in s. */
  function IndexOf(s: string, c: char): (i: Option<nat>)
    ensures i.Some? ==> i.value < |s| && s[i.value] == c && c !in s[..i.value]
    ensures i.None? ==> c !in s
  {
    if s == [] then None
    else if s[0] == c then Some(0)
    else
      var i := IndexOf(s[1..], c);
      if i.None? then None else Some(i.value + 1)
  }

  predicate StartsWith(s: string, head: string) { |head| <= |s| && s[..|head|] == head }

  /** Cuts the value at the end of the line, and a carriage return in front of it. */
  function Chomp(p: string): string {
    match IndexOf(p, '\n')
    case None => p
    case Some(i) => if i > 0 && p[i - 1] == '\r' then p[..i - 1] else p[..i]
  }

  /** The symbol a line is about and what the line does to it; None for lines passed over. */
  datatype Entry = Entry(name: string, setting: Setting)

  /** conf_read_simple's treatment of one line; 'kindOf' is the type of the symbol of a name. */
  function ReadLine(line: string, kindOf: string -> SymbolType, auto: bool): Option<Entry> {
    if line != [] && line[0] == '#' then
      if |line| < 2 || !StartsWith(line[2..], PREFIX) then None
      else
        var rest := line[2 + |PREFIX|..];
        match IndexOf(rest, ' ')
        case None => None
        case Some(i) =>
          if !StartsWith(rest[i + 1..], UNSET) then None
          else
            Some(Entry(rest[..i],
              if Switch(kindOf(rest[..i])) || (auto && kindOf(rest[..i]) == Unknown) then SetTri(NO) else Ignored))
    else if StartsWith(line, PREFIX) then
      var rest := line[|PREFIX|..];
      match IndexOf(rest, '=')
      case None => None
      case Some(i) => Some(Entry(rest[..i], SetSymVal(kindOf(rest[..i]), auto, Chomp(rest[i + 1..]))))
    else None
  }

  // ----- a line that is written is read back -----

  /** A symbol name: none of the characters that end it in a line. */
  predicate ProperName(name: string) { '=' !in name && ' ' !in name && '\n' !in name }

  lemma {:induction false} IndexOfAfter(a: string, c: char, b: string)
    requires c !in a
    ensures IndexOf(a + [c] + b, c) == Some(|a|)
  {
    if a != [] {
      assert (a + [c] + b)[1..] == a[1..] + [c] + b;
      IndexOfAfter(a[1..], c, b);
    }
  }

  lemma ChompLine(value: string)
    requires '\n' !in value
    ensures Chomp(value + "\n") == if value != [] && value[|value| - 1] == '\r' then value[..|value| - 1] else value
  {
    IndexOfAfter(value, '\n', []);
    assert value + "\n" == value + ['\n'] + [];
    if value != [] { assert (value + "\n")[..|value| - 1] == value[..|value| - 1]; }
    assert (value + "\n")[..|value|] == value;
  }

  /** A line NAME=text is read as the value in front of its end. */
  lemma ReadAssignment(name: string, text: string, kindOf: string -> SymbolType, auto: bool)
    requires ProperName(name)
    ensures ReadLine(PREFIX + name + "=" + text + "\n", kindOf, auto)
      == Some(Entry(name, SetSymVal(kindOf(name), auto, Chomp(text + "\n"))))
  {
    var line := PREFIX + name + "=" + text + "\n";
    var rest := line[|PREFIX|..];
    assert line == PREFIX + rest;
    assert rest == name + ['='] + (text + "\n");
    IndexOfAfter(name, '=', text + "\n");
    assert rest[..|name|] == name && rest[|name| + 1..] == text + "\n";
  }

  /** The comment for a symbol that is not set, whatever stands behind it, is read as n for a bool or
      tristate, and in auto.conf also for a symbol that is not known. */
  lemma ReadComment(name: string, c: char, tail: string, kindOf: string -> SymbolType, auto: bool)
    requires ' ' !in name
    ensures ReadLine(['#', c] + PREFIX + name + " " + UNSET + tail, kindOf, auto) ==
      Some(Entry(name, if Switch(kindOf(name)) || (auto && kindOf(name) == Unknown) then SetTri(NO) else Ignored))
  {
    hide IndexOf;
    var line := ['#', c] + PREFIX + name + " " + UNSET + tail;
    var rest := line[2 + |PREFIX|..];
    assert line[2..] == PREFIX + rest;
    assert rest == name + [' '] + (UNSET + tail);
    IndexOfAfter(name, ' ', UNSET + tail);
    assert rest[..|name|] == name && rest[|name| + 1..] == UNSET + tail;
  }

  lemma ReadUnset(name: string, kindOf: string -> SymbolType, auto: bool)
    requires ProperName(name) && Switch(kindOf(name))
    ensures ReadLine("# " + PREFIX + name + " " + UNSET + "\n", kindOf, auto) == Some(Entry(name, SetTri(NO)))
  {
    hide ReadLine;
    ReadComment(name, ' ', "\n", kindOf, auto);
    assert "# " + PREFIX + name + " " + UNSET + "\n" == ['#', ' '] + PREFIX + name + " " + UNSET + "\n";
  }

  ghost predicate IsAssignment(line: string, name: string, text: string) {
    '=' !in name && line == "CONFIG_" + name + "=" + text
  }

  ghost predicate IsComment(line: string, c: char, name: string, tail: string) {
    ' ' !in name && line == ['#', c] + "CONFIG_" + name + " " + "is not set" + tail
  }

  /** All other lines are passed over. */
  lemma LinesRead(line: string, kindOf: string -> SymbolType, auto: bool)
    ensures ReadLine(line, kindOf, auto).Some? <==>
      (exists name, text :: IsAssignment(line, name, text)) || exists c, name, tail :: IsComment(line, c, name, tail)
  {
    hide ReadLine;
    forall name, text | IsAssignment(line, name, text) ensures ReadLine(line, kindOf, auto).Some? {
      AssignmentRead(line, name, text, kindOf, auto);
    }
    forall c, name, tail | IsComment(line, c, name, tail) ensures ReadLine(line, kindOf, auto).Some? {
      ReadComment(name, c, tail, kindOf, auto);
    }
    hide IsAssignment, IsComment;
    if ReadLine(line, kindOf, auto).Some? { LineForm(line, kindOf, auto); }
  }

  lemma AssignmentRead(line: string, name: string, text: string, kindOf: string -> SymbolType, auto: bool)
    requires IsAssignment(line, name, text)
    ensures ReadLine(line, kindOf, auto).Some?
  {
    hide IndexOf, Chomp, SetSymVal;
    var rest := line[|PREFIX|..];
    assert line == PREFIX + rest && rest == name + ['='] + text;
    IndexOfAfter(name, '=', text);
  }

  lemma LineForm(line: string, kindOf: string -> SymbolType, auto: bool)
    requires ReadLine(line, kindOf, auto).Some?
    ensures (exists name, text :: IsAssignment(line, name, text)) ||
      exists c, name, tail :: IsComment(line, c, name, tail)
  {
    hide IndexOf, Chomp, SetSymVal, IsAssignment, IsComment;
    if line[0] == '#' { CommentForm(line); } else { AssignmentForm(line); }
  }

  lemma AssignmentParts(line: string, prefix: string, i: nat)
    requires StartsWith(line, prefix) && i < |line[|prefix|..]| && line[|prefix|..][i] == '='
    ensures var rest := line[|prefix|..]; line == prefix + rest[..i] + ['='] + rest[i + 1..]
  {
    var rest := line[|prefix|..];
    assert line == prefix + rest && rest == rest[..i] + ['='] + rest[i + 1..];
  }

  lemma AssignmentForm(line: string)
    requires StartsWith(line, PREFIX) && IndexOf(line[|PREFIX|..], '=').Some?
    ensures exists name, text :: IsAssignment(line, name, text)
  {
    hide IndexOf;
    var rest := line[|PREFIX|..];
    var i := IndexOf(rest, '=').value;
    AssignmentParts(line, PREFIX, i);
    assert IsAssignment(line, rest[..i], rest[i + 1..]);
  }

  lemma CommentParts(line: string, prefix: string, unset: string, i: nat)
    requires |line| >= 2 && StartsWith(line[2..], prefix) && i < |line[2 + |prefix|..]|
    requires var rest := line[2 + |prefix|..]; rest[i] == ' ' && StartsWith(rest[i + 1..], unset)
    ensures var rest := line[2 + |prefix|..];
      line == line[..2] + prefix + rest[..i] + [' '] + unset + rest[i + 1..][|unset|..]
  {
    var rest := line[2 + |prefix|..];
    var behind := rest[i + 1..];
    assert behind == unset + behind[|unset|..];
    assert rest == rest[..i] + [' '] + behind;
    assert line == line[..2] + prefix + rest;
  }

  lemma CommentForm(line: string)
    requires |line| >= 2 && line[0] == '#' && StartsWith(line[2..], PREFIX)
    requires var rest := line[2 + |PREFIX|..];
      IndexOf(rest, ' ').Some? && StartsWith(rest[IndexOf(rest, ' ').value + 1..], UNSET)
    ensures exists c, name, tail :: IsComment(line, c, name, tail)
  {
    hide IndexOf;
    var rest := line[2 + |PREFIX|..];
    var i := IndexOf(rest, ' ').value;
    CommentParts(line, PREFIX, UNSET, i);
    assert line[..2] == ['#', line[1]];
    assert IsComment(line, line[1], rest[..i], rest[i + 1..][|UNSET|..]);
  }

  function TriText(v: Tristate): string { if v == NO then "n" else if v == MOD then "m" else "y" }

  /** The end of the file or of a line. A carriage return in front of the line end belongs to it. */
  predicate LineEnd(text: string, eol: string) {
    '\n' !in text && (eol == "" || eol == "\r\n" || (eol == "\n" && (text == "" || text[|text| - 1] != '\r')))
  }

  lemma ChompEnd(text: string, eol: string)
    requires LineEnd(text, eol)
    ensures Chomp(text + eol) == text
  {
    if eol == "" {
      assert text + eol == text;
    } else {
      var p := text + eol[..|eol| - 1];
      assert text + eol == p + ['\n'] + [];
      IndexOfAfter(p, '\n', []);
      assert (text + eol)[..|text|] == text;
    }
  }

  lemma ReadValue(name: string, text: string, eol: string, kindOf: string -> SymbolType, auto: bool)
    requires ProperName(name) && LineEnd(text, eol)
    ensures ReadLine(PREFIX + name + "=" + text + eol, kindOf, auto)
      == Some(Entry(name, SetSymVal(kindOf(name), auto, text)))
  {
    hide Chomp, IndexOf, LineEnd;
    var line := PREFIX + name + "=" + text + eol;
    var rest := line[|PREFIX|..];
    assert line == PREFIX + rest;
    assert rest == name + ['='] + (text + eol);
    IndexOfAfter(name, '=', text + eol);
    assert rest[..|name|] == name && rest[|name| + 1..] == text + eol;
    ChompEnd(text, eol);
  }

  /** A value for a bool or tristate is one of three letters, whatever stands behind it, m for a
      tristate only. Anything else is refused. */
  lemma SwitchExactly(name: string, text: string, eol: string, kindOf: string -> SymbolType, auto: bool)
    requires ProperName(name) && LineEnd(text, eol) && Switch(kindOf(name))
    ensures var r := ReadLine("CONFIG_" + name + "=" + text + eol, kindOf, auto);
      && r.Some? && r.value.name == name
      && (r.value.setting == SetTri(YES) <==> text != "" && text[0] == 'y')
      && (r.value.setting == SetTri(NO) <==> text != "" && text[0] == 'n')
      && (r.value.setting == SetTri(MOD) <==> text != "" && text[0] == 'm' && kindOf(name) == Tristates)
      && (r.value.setting == Refused <==>
            text == "" || (text[0] !in {'y', 'n'} && (text[0] == 'm' ==> kindOf(name) == Boolean)))
  {
    hide ReadLine, ProperName, LineEnd;
    ReadValue(name, text, eol, kindOf, auto);
  }

  /** A string in .config must be quoted, or it is passed over, and its quotes must be closed, or it
      is refused. */
  lemma StringExactly(name: string, text: string, eol: string, kindOf: string -> SymbolType)
    requires ProperName(name) && LineEnd(text, eol) && kindOf(name) == Str
    ensures var r := ReadLine("CONFIG_" + name + "=" + text + eol, kindOf, false);
      && r.Some? && r.value.name == name
      && (r.value.setting == Ignored <==> text == "" || text[0] != '"')
      && (r.value.setting == Refused <==> text != "" && text[0] == '"' && forall i: nat :: !EndsText(text[1..], i))
      && (r.value.setting.SetText? <==> text != "" && text[0] == '"' && exists i: nat :: EndsText(text[1..], i))
  {
    hide ReadLine, ProperName, LineEnd, EndsText;
    ReadValue(name, text, eol, kindOf, false);
    if text != "" { UnescapedExact(text[1..]); }
  }

  /** The text stored for a quoted string, however it is spelled. */
  lemma StringSpelled(name: string, s: string, marks: seq<bool>, rest: string, eol: string,
      kindOf: string -> SymbolType)
    requires ProperName(name) && kindOf(name) == Str
    requires |marks| == |s| && (forall k :: 0 <= k < |s| && Special(s[k]) ==> marks[k])
    requires LineEnd("\"" + Spelled(s, marks) + "\"" + rest, eol)
    ensures ReadLine(PREFIX + name + "=" + ("\"" + Spelled(s, marks) + "\"" + rest) + eol, kindOf, false)
      == Some(Entry(name, SetText(s)))
  {
    hide ReadLine, ProperName, LineEnd, Unescaped, Spelled;
    var text := "\"" + Spelled(s, marks) + "\"" + rest;
    ReadValue(name, text, eol, kindOf, false);
    assert text[1..] == Spelled(s, marks) + ['"'] + rest;
    UnescapeSpelled(s, marks, rest);
  }

  /** A line is written for every symbol of a known type, unless it is n and such lines are left out. */
  lemma PrintsNothing(name: string, kind: SymbolType, value: string, n: OutputN, escape: bool)
    ensures PrintSymbol(name, kind, value, n, escape) == "" <==>
      kind == Unknown || (kind in {Boolean, Tristates} && n == Nothing && value != "" && value[0] == 'n')
  {
  }

  /** Every value a bool (n, y) or tristate symbol can have survives being written, if a line is written
      for it. */
  lemma SwitchRoundTrip(name: string, v: Tristate, n: OutputN, escape: bool, kindOf: string -> SymbolType, auto: bool)
    requires ProperName(name) && Switch(kindOf(name)) && (v == NO ==> n != Nothing)
    ensures ReadLine(PrintSymbol(name, kindOf(name), TriText(v), n, escape), kindOf, auto) ==
      Some(Entry(name, SetTri(v)))
      <==> (kindOf(name) == Boolean ==> v != MOD)
  {
    hide ReadLine, IndexOf, Chomp, ProperName;
    if v == NO && n == AsUnset {
      ReadUnset(name, kindOf, auto);
    } else {
      ReadAssignment(name, TriText(v), kindOf, auto);
      ChompLine(TriText(v));
    }
  }

  lemma {:induction false} EscapedKeepsOut(s: string, c: char)
    requires c !in s && c != '\\'
    ensures c !in Escaped(s)
  {
    if s != [] { EscapedKeepsOut(s[1..], c); }
  }

  /** Any text without a newline survives being written to .config as a string. */
  lemma StringRoundTrip(name: string, value: string, kindOf: string -> SymbolType, n: OutputN)
    requires ProperName(name) && kindOf(name) == Str
    requires '\n' !in value
    ensures ReadLine(PrintSymbol(name, Str, value, n, true), kindOf, false) == Some(Entry(name, SetText(value)))
  {
    hide ReadLine, IndexOf, Chomp, ProperName, Unescaped, Escaped;
    var text := Quoted(value);
    ReadAssignment(name, text, kindOf, false);
    EscapedKeepsOut(value, '\n');
    ChompLine(text);
    assert text[1..] == Escaped(value) + ['"'] + [];
    UnescapeEscaped(value, []);
  }

  /** In auto.conf strings stand without quotes: a text without a newline survives exactly when it
      does not end in a carriage return. */
  lemma AutoStringRoundTrip(name: string, value: string, kindOf: string -> SymbolType, n: OutputN)
    requires ProperName(name) && kindOf(name) == Str
    requires '\n' !in value
    ensures ReadLine(PrintSymbol(name, Str, value, n, false), kindOf, true) == Some(Entry(name, SetText(value)))
      <==> !(value != [] && value[|value| - 1] == '\r')
  {
    hide ReadLine, IndexOf, Chomp, ProperName;
    ReadAssignment(name, value, kindOf, true);
    ChompLine(value);
  }

  /** What is not a valid number is refused; what is valid is stored as it was written. */
  lemma NumberRoundTrip(name: string, value: string, kindOf: string -> SymbolType, n: OutputN, escape: bool, auto: bool)
    requires ProperName(name) && kindOf(name) in {Int, Hex}
    requires '\n' !in value && '\r' !in value
    ensures ReadLine(PrintSymbol(name, kindOf(name), value, n, escape), kindOf, auto)
      == Some(Entry(name, if StringValid(kindOf(name), value) then SetText(value) else Refused))
  {
    hide ReadLine, IndexOf, Chomp, ProperName;
    ReadAssignment(name, value, kindOf, auto);
    ChompLine(value);
  }

  /** The valid int values are the decimal numbers, without leading zeros, and -0. */
  lemma IntExactly(s: string)
    ensures StringValid(Int, s) <==> exists n: nat :: s == Decimal(n) || s == ['-'] + Decimal(n)
  {
    hide Decimal;
    if StringValid(Int, s) {
      var digits := WithoutMinus(s);
      ValueDecimal(digits);
      assert s[0] == '-' ==> s == ['-'] + Decimal(DigitsValue(digits));
    }
    forall n: nat | s == Decimal(n) || s == ['-'] + Decimal(n) ensures StringValid(Int, s) {
      DecimalValue(n);
      assert s == ['-'] + Decimal(n) ==> s[1..] == Decimal(n);
    }
  }

  /** The valid hex values are one or more hexadecimal digits, with or without 0x in front. */
  lemma HexExactly(s: string)
    ensures StringValid(Hex, s) <==>
      exists t: string :: HexDigits(t) && (s == t || s == "0x" + t || s == "0X" + t)
  {
    if StringValid(Hex, s) {
      var t := WithoutPrefix(s);
      assert s == t || s == [s[0], s[1]] + t;
    }
    forall t: string | HexDigits(t) && (s == t || s == "0x" + t || s == "0X" + t) ensures StringValid(Hex, s) {
      assert s == t && |s| >= 2 ==> IsHexDigit(s[1]);
      assert s != t ==> s[2..] == t;
    }
  }

  /** A valid int or hex value holds no line break. */
  lemma ValidStaysOnLine(kind: SymbolType, value: string)
    requires kind in {Int, Hex} && StringValid(kind, value)
    ensures '\n' !in value && '\r' !in value
  {
    var digits := if kind == Int then WithoutMinus(value) else WithoutPrefix(value);
    forall k | 0 <= k < |value| ensures value[k] != '\n' && value[k] != '\r' {
      if k >= |value| - |digits| { assert IsHexDigit(digits[k - (|value| - |digits|)]); }
    }
  }
}
