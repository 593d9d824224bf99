/** LDAP search filters and their text (CompileFilter, DecompileFilter; filter.go). */
module Filters {
  import opened Collections
  import opened Utf8
  import opened FilterEscape

  datatype Place = Initial | Any | Final

  datatype Part = Part(place: Place, value: seq<Byte>)

  datatype Comparison = Equal | GreaterOrEqual | LessOrEqual | Approx

  /** The packets CompileFilter builds. An absent rule or attribute is the empty string. */
  datatype Filter =
    | And(children: seq<Filter>)
    | Or(children: seq<Filter>)
    | Not(child: Filter)
    | Compare(op: Comparison, attr: seq<Byte>, value: seq<Byte>)
    | Present(attr: seq<Byte>)
    | Substrings(attr: seq<Byte>, parts: seq<Part>)
    | Extensible(attr: seq<Byte>, dn: bool, rule: seq<Byte>, value: seq<Byte>)

  const OPEN: Byte := '(' as int
  const CLOSE: Byte := ')' as int
  const STAR: Byte := '*' as int
  const COLON: Byte := ':' as int
  const EQUALS: Byte := '=' as int
  const GREATER: Byte := '>' as int
  const LESS: Byte := '<' as int
  const TILDE: Byte := '~' as int

  const DN: seq<Byte> := ['d' as int, 'n' as int]

  // Decompile

  function Symbol(op: Comparison): seq<Byte> {
    match op
    case Equal => [EQUALS]
    case GreaterOrEqual => [GREATER, EQUALS]
    case LessOrEqual => [LESS, EQUALS]
    case Approx => [TILDE, EQUALS]
  }

  /** Substrings from the i-th on: a star after each but a final one. */
  function PrintPartsFrom(parts: seq<Part>, i: nat): seq<Byte>
    requires i <= |parts|
    decreases |parts| - i
  {
    if i == |parts| then []
    else Escape(parts[i].value) + (if parts[i].place != Final then [STAR] else []) + PrintPartsFrom(parts, i + 1)
  }

  function PrintParts(parts: seq<Part>): seq<Byte> {
    (if parts != [] && parts[0].place != Initial then [STAR] else []) + PrintPartsFrom(parts, 0)
  }

  function PrintRule(dn: bool, rule: seq<Byte>): seq<Byte> {
    (if dn then [COLON] + DN else []) + (if rule != [] then [COLON] + rule else [])
  }

  /** The text between the parentheses. */
  function Body(f: Filter): seq<Byte>
    decreases f, 0
  {
    match f
    case And(children) => ['&' as int] + PrintFrom(f, 0)
    case Or(children) => ['|' as int] + PrintFrom(f, 0)
    case Not(child) => ['!' as int] + Print(child)
    case Compare(op, attr, value) => attr + Symbol(op) + Escape(value)
    case Present(attr) => attr + [EQUALS, STAR]
    case Substrings(attr, parts) => attr + [EQUALS] + PrintParts(parts)
    case Extensible(attr, dn, rule, value) => attr + PrintRule(dn, rule) + [COLON, EQUALS] + Escape(value)
  }

  function PrintFrom(f: Filter, i: nat): seq<Byte>
    requires (f.And? || f.Or?) && i <= |f.children|
    decreases f, 0, |f.children| - i
  {
    if i == |f.children| then [] else Print(f.children[i]) + PrintFrom(f, i + 1)
  }

  function Print(f: Filter): seq<Byte>
    decreases f, 1
  {
    [OPEN] + Body(f) + [CLOSE]
  }

  /** DecompileFilter. */
  method Decompile(f: Filter) returns (buf: seq<Byte>)
    ensures buf == Print(f)
    decreases f, 1
  {
    buf := [OPEN];
    match f {
      case And(_) =>
        var children := DecompileAll(f);
        buf := buf + (['&' as int] + children);
      case Or(_) =>
        var children := DecompileAll(f);
        buf := buf + (['|' as int] + children);
      case Not(child) =>
        var text := Decompile(child);
        buf := buf + (['!' as int] + text);
      case Compare(op, attr, value) =>
        var text := EscapeFilter(value);
        buf := buf + (attr + Symbol(op) + text);
      case Present(attr) =>
        buf := buf + (attr + [EQUALS, STAR]);
      case Substrings(attr, parts) =>
        var text := DecompileParts(parts);
        buf := buf + (attr + [EQUALS] + text);
      case Extensible(attr, dn, rule, value) =>
        var text := EscapeFilter(value);
        buf := buf + (attr + PrintRule(dn, rule) + [COLON, EQUALS] + text);
    }
    buf := buf + [CLOSE];
  }

  method DecompileAll(f: Filter) returns (text: seq<Byte>)
    requires f.And? || f.Or?
    ensures text == PrintFrom(f, 0)
    decreases f, 0
  {
    text := [];
    for i := 0 to |f.children|
      invariant text + PrintFrom(f, i) == PrintFrom(f, 0)
    {
      var child := Decompile(f.children[i]);
      assert text + (child + PrintFrom(f, i + 1)) == (text + child) + PrintFrom(f, i + 1);
      text := text + child;
    }
  }

  method DecompileParts(parts: seq<Part>) returns (text: seq<Byte>)
    ensures text == PrintParts(parts)
  {
    hide Escape;
    text := [];
    for i := 0 to |parts|
      invariant i == 0 ==> text == []
      invariant i > 0 ==> text + PrintPartsFrom(parts, i) == PrintParts(parts)
    {
      if i == 0 && parts[i].place != Initial { text := text + [STAR]; }
      assert text + PrintPartsFrom(parts, i) == PrintParts(parts);
      var value := EscapeFilter(parts[i].value);
      var star := if parts[i].place != Final then [STAR] else [];
      OnePart(text, value, star, parts, i, PrintParts(parts));
      text := text + value + star;
    }
  }

  lemma {:induction false} OnePart(text: seq<Byte>, value: seq<Byte>, star: seq<Byte>, parts: seq<Part>, i: nat, all: seq<Byte>)
    requires i < |parts| && value == Escape(parts[i].value) && star == (if parts[i].place != Final then [STAR] else [])
    requires text + PrintPartsFrom(parts, i) == all
    ensures text + value + star + PrintPartsFrom(parts, i + 1) == all
  {
    hide Escape;
    var rest := PrintPartsFrom(parts, i + 1);
    assert text + (value + star + rest) == text + value + star + rest;
  }

  // Compile: the parts of an assertion

  datatype Kind = Comparing(op: Comparison) | Extending

  /** What ends an attribute: it may be followed by a matching rule. */
  datatype Operator = Operator(kind: Kind, dn: bool, ruled: bool, width: nat)

  const DN_VALUE: seq<Byte> := [COLON, 'd' as int, 'n' as int, COLON, EQUALS]
  const DN_RULE: seq<Byte> := [COLON, 'd' as int, 'n' as int, COLON]

  /** s continues with first and an equals sign at pos. */
  predicate EqualsAfter(s: seq<Byte>, pos: nat, first: Byte) {
    pos + 1 < |s| && s[pos] == first && s[pos + 1] == EQUALS
  }

  function OperatorAt(s: seq<Byte>, p: nat): (op: Option<Operator>)
    ensures op.Some? ==> p < p + op.value.width <= |s| && s[p] < 0x80 && s[p] != CLOSE
  {
    if p >= |s| then None
    else if s[p] == COLON then
      Some(if At(s, p, DN_VALUE) then Operator(Extending, true, false, 5)
           else if At(s, p, DN_RULE) then Operator(Extending, true, true, 4)
           else if EqualsAfter(s, p, COLON) then Operator(Extending, false, false, 2)
           else Operator(Extending, false, true, 1))
    else if s[p] == EQUALS then Some(Operator(Comparing(Equal), false, false, 1))
    else if EqualsAfter(s, p, GREATER) then Some(Operator(Comparing(GreaterOrEqual), false, false, 2))
    else if EqualsAfter(s, p, LESS) then Some(Operator(Comparing(LessOrEqual), false, false, 2))
    else if EqualsAfter(s, p, TILDE) then Some(Operator(Comparing(Approx), false, false, 2))
    else None
  }

  predicate EndsAttr(s: seq<Byte>, p: nat) {
    OperatorAt(s, p).Some?
  }

  predicate EndsRule(s: seq<Byte>, p: nat) {
    EqualsAfter(s, p, COLON)
  }

  predicate EndsNothing(s: seq<Byte>, p: nat) {
    false
  }

  /** Reading stops at p: the end of the text, a parenthesis, a bad rune, or what is looked for. */
  predicate IsEnd(s: seq<Byte>, p: nat, stop: (seq<Byte>, nat) -> bool)
    requires p <= |s|
  {
    p == |s| || s[p] == CLOSE || !Reads(s, p) || stop(s, p)
  }

  /** Where reading rune by rune from p on stops. */
  function End(s: seq<Byte>, p: nat, stop: (seq<Byte>, nat) -> bool): (q: nat)
    requires p <= |s|
    ensures p <= q <= |s| && IsEnd(s, q, stop)
    decreases |s| - p
  {
    if IsEnd(s, p, stop) then p else End(s, p + DecodeRune(s, p).width, stop)
  }

  /** The pieces of an assertion, and the position of its closing parenthesis. */
  datatype Assertion = Assertion(kind: Kind, attr: seq<Byte>, dn: bool, rule: seq<Byte>, condition: seq<Byte>, close: nat)

  /** The value after an operator and a rule. */
  function ReadValue(s: seq<Byte>, attr: seq<Byte>, op: Operator, rule: seq<Byte>, p: nat): Option<Assertion>
    requires p <= |s|
  {
    var q := End(s, p, EndsNothing);
    if q < |s| && s[q] == CLOSE then Some(Assertion(op.kind, attr, op.dn, rule, s[p..q], q)) else None
  }

  /** The rule, if there is one; without a value after it, the value is empty. */
  function ReadRule(s: seq<Byte>, attr: seq<Byte>, op: Operator, p: nat): Option<Assertion>
    requires p <= |s|
  {
    if !op.ruled then ReadValue(s, attr, op, [], p)
    else
      var q := End(s, p, EndsRule);
      if q == |s| then None
      else if s[q] == CLOSE then Some(Assertion(op.kind, attr, op.dn, s[p..q], [], q))
      else if !EndsRule(s, q) then None
      else ReadValue(s, attr, op, s[p..q], q + 2)
  }

  /** An assertion: attribute, operator, rule, value. */
  function ReadAssertion(s: seq<Byte>, p: nat): Option<Assertion>
    requires p <= |s|
  {
    var q := End(s, p, EndsAttr);
    match OperatorAt(s, q)
    case None => None
    case Some(op) => ReadRule(s, s[p..q], op, q + op.width)
  }

  // Compile: the loop that reads them

  datatype Stage = ReadingAttr | ReadingRule | ReadingCondition

  /** The variables of the loop; kind is the packet, once its type is known. */
  datatype Reading = Reading(
    stage: Stage,
    kind: Option<Kind>,
    attr: seq<Byte>,
    dn: bool,
    rule: seq<Byte>,
    condition: seq<Byte>)

  /** At pos, the loop has what ReadAssertion has; its current piece starts at p. */
  ghost predicate Progress(s: seq<Byte>, start: nat, pos: nat, st: Reading, op: Operator, p: nat)
    requires start <= |s| && pos <= |s|
  {
    p <= pos &&
    match st.stage
    case ReadingAttr =>
      && p == start && st == Reading(ReadingAttr, None, s[p..pos], false, [], [])
      && End(s, p, EndsAttr) == End(s, pos, EndsAttr)
    case ReadingRule =>
      && st == Reading(ReadingRule, Some(op.kind), st.attr, op.dn, s[p..pos], [])
      && End(s, p, EndsRule) == End(s, pos, EndsRule)
      && op.ruled && ReadAssertion(s, start) == ReadRule(s, st.attr, op, p)
    case ReadingCondition =>
      && st == Reading(ReadingCondition, Some(op.kind), st.attr, op.dn, st.rule, s[p..pos])
      && End(s, p, EndsNothing) == End(s, pos, EndsNothing)
      && ReadAssertion(s, start) == ReadValue(s, st.attr, op, st.rule, p)
  }

  method ReadLoop(s: seq<Byte>, start: nat) returns (r: Option<Assertion>)
    requires start <= |s|
    ensures r == ReadAssertion(s, start)
  {
    var pos, st := start, Reading(ReadingAttr, None, [], false, [], []);
    ghost var op, p := Operator(Extending, false, false, 0), start;
    while pos < |s|
      invariant start <= pos <= |s| && Progress(s, start, pos, st, op, p)
    {
      var rune := DecodeRune(s, pos);
      if rune.code == CLOSE { break; }
      if rune.code == ERROR { NothingRead(s, start, pos, st, op, p); return None; }
      match st.stage {
        case ReadingAttr => pos, st, op, p := AttrTurn(s, start, pos, st, rune, op, p);
        case ReadingRule => pos, st, p := RuleTurn(s, start, pos, st, rune, op, p);
        case ReadingCondition => pos, st := ValueTurn(s, start, pos, st, rune, op, p);
      }
    }
    if pos == |s| { NothingRead(s, start, pos, st, op, p); return None; }
    AllRead(s, start, pos, st, op, p);
    if st.kind.None? { return None; }
    r := Some(Assertion(st.kind.value, st.attr, st.dn, st.rule, st.condition, pos));
  }

  lemma {:induction false} NothingRead(s: seq<Byte>, start: nat, pos: nat, st: Reading, op: Operator, p: nat)
    requires start <= pos <= |s| && Progress(s, start, pos, st, op, p) && (pos == |s| || (s[pos] != CLOSE && !Reads(s, pos)))
    ensures ReadAssertion(s, start) == None
  {
    match st.stage
    case ReadingAttr => assert End(s, p, EndsAttr) == pos;
    case ReadingRule => assert End(s, p, EndsRule) == pos;
    case ReadingCondition => assert End(s, p, EndsNothing) == pos;
  }

  lemma {:induction false} AllRead(s: seq<Byte>, start: nat, pos: nat, st: Reading, op: Operator, p: nat)
    requires start <= pos < |s| && Progress(s, start, pos, st, op, p) && s[pos] == CLOSE
    ensures ReadAssertion(s, start) ==
            if st.kind.None? then None else Some(Assertion(st.kind.value, st.attr, st.dn, st.rule, st.condition, pos))
  {
    match st.stage
    case ReadingAttr => assert End(s, p, EndsAttr) == pos;
    case ReadingRule => assert End(s, p, EndsRule) == pos;
    case ReadingCondition => assert End(s, p, EndsNothing) == pos;
  }

  method AttrTurn(s: seq<Byte>, start: nat, pos: nat, st: Reading, rune: Rune, ghost op: Operator, ghost p: nat)
    returns (newPos: nat, next: Reading, ghost op': Operator, ghost p': nat)
    requires start <= pos < |s| && s[pos] != CLOSE && Reads(s, pos) && rune == DecodeRune(s, pos)
    requires st.stage == ReadingAttr && Progress(s, start, pos, st, op, p)
    ensures pos < newPos <= |s| && Progress(s, start, newPos, next, op', p')
  {
    hide End, Reads, EncodeRune, IsEnd;
    next := st;
    if rune.code == COLON {
      next := next.(kind := Some(Extending));
      if At(s, pos, DN_VALUE) {
        next, newPos := next.(dn := true, stage := ReadingCondition), pos + 5;
      } else if At(s, pos, DN_RULE) {
        next, newPos := next.(dn := true, stage := ReadingRule), pos + 4;
      } else if EqualsAfter(s, pos, COLON) {
        next, newPos := next.(stage := ReadingCondition), pos + 2;
      } else {
        next, newPos := next.(stage := ReadingRule), pos + 1;
      }
    } else if rune.code == EQUALS {
      next, newPos := next.(kind := Some(Comparing(Equal)), stage := ReadingCondition), pos + 1;
    } else if rune.code == GREATER && EqualsAfter(s, pos, GREATER) {
      next, newPos := next.(kind := Some(Comparing(GreaterOrEqual)), stage := ReadingCondition), pos + 2;
    } else if rune.code == LESS && EqualsAfter(s, pos, LESS) {
      next, newPos := next.(kind := Some(Comparing(LessOrEqual)), stage := ReadingCondition), pos + 2;
    } else if rune.code == TILDE && EqualsAfter(s, pos, TILDE) {
      next, newPos := next.(kind := Some(Comparing(Approx)), stage := ReadingCondition), pos + 2;
    } else {
      WriteBack(s, pos);
      next, newPos := next.(attr := st.attr + EncodeRune(rune.code)), pos + rune.width;
      AttrGrows(s, pos, st, op, p);
      return newPos, next, op, p;
    }
    AttrEnds(s, start, pos, st, op, p);
    op', p' := OperatorAt(s, pos).value, newPos;
  }

  lemma {:induction false} AttrGrows(s: seq<Byte>, pos: nat, st: Reading, op: Operator, p: nat)
    requires p <= pos < |s| && s[pos] != CLOSE && Reads(s, pos) && OperatorAt(s, pos).None?
    requires st.stage == ReadingAttr && Progress(s, p, pos, st, op, p)
    ensures var w := DecodeRune(s, pos).width;
            pos + w <= |s| && Progress(s, p, pos + w, st.(attr := st.attr + s[pos..pos + w]), op, p)
  {
    var w := DecodeRune(s, pos).width;
    assert s[p..pos] + s[pos..pos + w] == s[p..pos + w];
  }

  lemma {:induction false} AttrEnds(s: seq<Byte>, start: nat, pos: nat, st: Reading, op: Operator, p: nat)
    requires start <= pos < |s| && s[pos] != CLOSE && Reads(s, pos) && OperatorAt(s, pos).Some?
    requires st.stage == ReadingAttr && Progress(s, start, pos, st, op, p)
    ensures var op' := OperatorAt(s, pos).value;
            var newPos := pos + op'.width;
            newPos <= |s| && Progress(s, start, newPos,
              st.(stage := if op'.ruled then ReadingRule else ReadingCondition, kind := Some(op'.kind), dn := op'.dn), op', newPos)
  {
    assert End(s, start, EndsAttr) == pos;
  }

  method RuleTurn(s: seq<Byte>, start: nat, pos: nat, st: Reading, rune: Rune, ghost op: Operator, ghost p: nat)
    returns (newPos: nat, next: Reading, ghost p': nat)
    requires start <= pos < |s| && s[pos] != CLOSE && Reads(s, pos) && rune == DecodeRune(s, pos)
    requires st.stage == ReadingRule && Progress(s, start, pos, st, op, p)
    ensures pos < newPos <= |s| && Progress(s, start, newPos, next, op, p')
  {
    hide ReadAssertion, ReadValue;
    if rune.code == COLON && EqualsAfter(s, pos, COLON) {
      next, newPos, p' := st.(stage := ReadingCondition), pos + 2, pos + 2;
      assert End(s, p, EndsRule) == pos;
    } else {
      WriteBack(s, pos);
      next, newPos, p' := st.(rule := st.rule + EncodeRune(rune.code)), pos + rune.width, p;
      assert s[p..pos] + s[pos..newPos] == s[p..newPos];
    }
  }

  method ValueTurn(s: seq<Byte>, start: nat, pos: nat, st: Reading, rune: Rune, ghost op: Operator, ghost p: nat)
    returns (newPos: nat, next: Reading)
    requires start <= pos < |s| && s[pos] != CLOSE && Reads(s, pos) && rune == DecodeRune(s, pos)
    requires st.stage == ReadingCondition && Progress(s, start, pos, st, op, p)
    ensures pos < newPos <= |s| && Progress(s, start, newPos, next, op, p)
  {
    hide Parse, DecodeRune;
    WriteBack(s, pos);
    next, newPos := st.(condition := st.condition + EncodeRune(rune.code)), pos + rune.width;
    assert s[p..pos] + s[pos..newPos] == s[p..newPos];
  }

  // Compile: making sense of it

  /** bytes.Split(b[from:], "*"), the current piece starting at from and read up to i. */
  function SplitFrom(b: seq<Byte>, from: nat, i: nat): (pieces: seq<seq<Byte>>)
    requires from <= i <= |b|
    ensures pieces != []
    decreases |b| - i
  {
    if i == |b| then [b[from..]]
    else if b[i] == STAR then [b[from..i]] + SplitFrom(b, i + 1, i + 1)
    else SplitFrom(b, from, i + 1)
  }

  function Split(b: seq<Byte>): seq<seq<Byte>> {
    SplitFrom(b, 0, 0)
  }

  function PlaceOf(i: nat, count: nat): Place {
    if i == 0 then Initial else if i == count - 1 then Final else Any
  }

  /** The substrings of the first k pieces: empty pieces are skipped, but count for the place. */
  function PartsOf(pieces: seq<seq<Byte>>, k: nat): Option<seq<Part>>
    requires k <= |pieces|
  {
    if k == 0 then Some([])
    else
      var before := PartsOf(pieces, k - 1);
      if pieces[k - 1] == [] || before.None? then before
      else
        match Unescape(pieces[k - 1])
        case None => None
        case Some(value) => Some(before.value + [Part(PlaceOf(k - 1, |pieces|), value)])
  }

  method CompileParts(pieces: seq<seq<Byte>>) returns (parts: Option<seq<Part>>)
    ensures parts == PartsOf(pieces, |pieces|)
  {
    var sequence := [];
    for i := 0 to |pieces|
      invariant PartsOf(pieces, i) == Some(sequence)
    {
      if pieces[i] != [] {
        var value := DecodeEscapedSymbols(pieces[i]);
        if value.None? {
          NoneStays(pieces, i + 1);
          return None;
        }
        sequence := sequence + [Part(PlaceOf(i, |pieces|), value.value)];
      }
    }
    parts := Some(sequence);
  }

  lemma {:induction false} NoneStays(pieces: seq<seq<Byte>>, k: nat)
    requires k <= |pieces| && PartsOf(pieces, k).None?
    ensures PartsOf(pieces, |pieces|).None?
    decreases |pieces| - k
  {
    if k < |pieces| { NoneStays(pieces, k + 1); }
  }

  /** What was read, as a filter. */
  function Make(a: Assertion): Option<Filter> {
    if a.kind == Comparing(Equal) && a.condition == [STAR] then Some(Present(a.attr))
    else if a.kind == Comparing(Equal) && STAR in a.condition then
      (match PartsOf(Split(a.condition), |Split(a.condition)|)
       case None => None
       case Some(parts) => Some(Substrings(a.attr, parts)))
    else
      (match Unescape(a.condition)
       case None => None
       case Some(value) =>
         Some(match a.kind
              case Comparing(op) => Compare(op, a.attr, value)
              case Extending => Extensible(a.attr, a.dn, a.rule, value)))
  }

  method MakeFilter(a: Assertion) returns (f: Option<Filter>)
    ensures f == Make(a)
  {
    if a.kind.Extending? {
      var value := DecodeEscapedSymbols(a.condition);
      if value.None? { return None; }
      return Some(Extensible(a.attr, a.dn, a.rule, value.value));
    }
    if a.kind.op == Equal && a.condition == [STAR] { return Some(Present(a.attr)); }
    if a.kind.op == Equal && STAR in a.condition {
      var parts := CompileParts(Split(a.condition));
      if parts.None? { return None; }
      return Some(Substrings(a.attr, parts.value));
    }
    var value := DecodeEscapedSymbols(a.condition);
    if value.None? { return None; }
    f := Some(Compare(a.kind.op, a.attr, value.value));
  }

  // Compile

  /** A filter and the position after it. */
  datatype Parsed = Parsed(filter: Filter, next: nat)

  /** The filter whose text, after its opening parenthesis, starts at pos. */
  function Parse(s: seq<Byte>, pos: nat): (r: Option<Parsed>)
    requires pos <= |s|
    ensures r.Some? ==> pos < r.value.next
    decreases |s| - pos, 0
  {
    if pos == |s| || !Reads(s, pos) then None
    else if s[pos] == OPEN then
      (match Parse(s, pos + 1)
       case None => None
       case Some(inner) => Some(Parsed(inner.filter, inner.next + 1)))
    else if s[pos] == '&' as int then
      (match ParseSet(s, pos + 1)
       case None => None
       case Some(found) => Some(Parsed(And(found.0), found.1)))
    else if s[pos] == '|' as int then
      (match ParseSet(s, pos + 1)
       case None => None
       case Some(found) => Some(Parsed(Or(found.0), found.1)))
    else if s[pos] == '!' as int then
      (match Parse(s, pos + 1)
       case None => None
       case Some(inner) => Some(Parsed(Not(inner.filter), inner.next)))
    else
      (match ReadAssertion(s, pos)
       case None => None
       case Some(a) =>
         (match Make(a)
          case None => None
          case Some(f) => Some(Parsed(f, a.close + 1))))
  }

  /** Filters in parentheses one after the other, then one more character. */
  function ParseSet(s: seq<Byte>, pos: nat): (r: Option<(seq<Filter>, nat)>)
    ensures r.Some? ==> pos < r.value.1
    decreases if pos <= |s| then |s| - pos else 0, 1
  {
    if pos < |s| && s[pos] == OPEN then
      (match Parse(s, pos + 1)
       case None => None
       case Some(child) =>
         (match ParseSet(s, child.next)
          case None => None
          case Some(rest) => Some(([child.filter] + rest.0, rest.1))))
    else if pos == |s| then None
    else Some(([], pos + 1))
  }

  function Compile(s: seq<Byte>): Option<Filter> {
    if s == [] || s[0] != OPEN then None
    else
      match Parse(s, 1)
      case None => None
      case Some(parsed) => if parsed.next == |s| then Some(parsed.filter) else None
  }

  /** CompileFilter. */
  method CompileFilter(s: seq<Byte>) returns (f: Option<Filter>)
    ensures f == Compile(s)
  {
    if |s| == 0 || s[0] != OPEN { return None; }
    var parsed := CompileAt(s, 1);
    if parsed.None? || parsed.value.next != |s| { return None; }
    f := Some(parsed.value.filter);
  }

  method CompileAt(s: seq<Byte>, pos: nat) returns (r: Option<Parsed>)
    requires pos <= |s|
    ensures r == Parse(s, pos)
    decreases |s| - pos, 0
  {
    hide ParseSet, End, DecodeRune, Make, EndsAttr, OperatorAt, ReadRule;
    var rune := DecodeRune(s, pos);
    if rune.code == ERROR { return None; }
    if rune.code == OPEN {
      var inner := CompileAt(s, pos + 1);
      if inner.None? { return None; }
      return Some(Parsed(inner.value.filter, inner.value.next + 1));
    }
    if rune.code == '&' as int || rune.code == '|' as int {
      var found := CompileSet(s, pos + 1);
      if found.None? { return None; }
      return Some(Parsed(if rune.code == '&' as int then And(found.value.0) else Or(found.value.0), found.value.1));
    }
    if rune.code == '!' as int {
      var inner := CompileAt(s, pos + 1);
      if inner.None? { return None; }
      return Some(Parsed(Not(inner.value.filter), inner.value.next));
    }
    var a := ReadLoop(s, pos);
    if a.None? { return None; }
    var f := MakeFilter(a.value);
    if f.None? { return None; }
    r := Some(Parsed(f.value, a.value.close + 1));
  }

  function Onto(head: seq<Filter>, rest: Option<(seq<Filter>, nat)>): Option<(seq<Filter>, nat)> {
    match rest
    case None => None
    case Some(found) => Some((head + found.0, found.1))
  }

  lemma {:induction false} OntoTwice(a: seq<Filter>, f: Filter, rest: Option<(seq<Filter>, nat)>)
    ensures Onto(a + [f], rest) == Onto(a, Onto([f], rest))
  {
    if rest.Some? { assert (a + [f]) + rest.value.0 == a + ([f] + rest.value.0); }
  }

  method CompileSet(s: seq<Byte>, start: nat) returns (r: Option<(seq<Filter>, nat)>)
    requires start <= |s|
    ensures r == ParseSet(s, start)
    decreases |s| - start, 1
  {
    var pos, children := start, [];
    assert ParseSet(s, start) == Onto([], ParseSet(s, start)) by {
      if ParseSet(s, start).Some? { assert [] + ParseSet(s, start).value.0 == ParseSet(s, start).value.0; }
    }
    while pos < |s| && s[pos] == OPEN
      invariant start <= pos && ParseSet(s, start) == Onto(children, ParseSet(s, pos))
      decreases |s| - pos
    {
      var child := CompileAt(s, pos + 1);
      if child.None? { return None; }
      OntoTwice(children, child.value.filter, ParseSet(s, child.value.next));
      pos, children := child.value.next, children + [child.value.filter];
    }
    if pos == |s| { return None; }
    assert children + [] == children;
    r := Some((children, pos + 1));
  }
}
