/** Templates printed from literals and fields, and read back. */
module TemplateRoundTrip {
  import opened Collections
  import opened Templates

  // Printing

  function EscapeOne(c: char): string {
    if c == '{' then "{{" else if c == '}' then "}}" else [c]
  }

  /** A literal with its braces doubled. */
  function Escape(text: string): string {
    if text == "" then "" else EscapeOne(text[0]) + Escape(text[1..])
  }

  function HeadText(f: Field): string {
    if f.call == "" then f.name else f.name + "." + f.call
  }

  function SpecText(f: Field): string {
    if f.spec == "" then "" else ":" + f.spec
  }

  function FieldText(f: Field): string {
    if f.conversion == "" then HeadText(f) + SpecText(f) else HeadText(f) + ("!" + (f.conversion + SpecText(f)))
  }

  function Print(section: Section): string {
    match section
    case Literal(text) => Escape(text)
    case Reference(f) => "{" + (FieldText(f) + "}")
  }

  function PrintFrom(items: seq<Section>, i: nat): string
    requires i <= |items|
    decreases |items| - i
  {
    if i == |items| then "" else Print(items[i]) + PrintFrom(items, i + 1)
  }

  // Fields

  /** A field whose text reads back: no part holds the separator that would end it, a method is
      called by a name without a dot, and the text does not look like an escaped brace. */
  predicate IsPlain(f: Field) {
    && IsHead(f)
    && (if f.conversion == "" then ':' !in HeadText(f) && '!' !in f.spec else ':' !in f.conversion)
    && '}' !in FieldText(f)
    && (FieldText(f) != "" ==> FieldText(f)[0] != '{')
  }

  predicate IsHead(f: Field) {
    && '!' !in HeadText(f)
    && if f.call == "" then !HasSuffix(f.name, PARENS) else HasSuffix(f.call, PARENS) && '.' !in f.call
  }

  lemma {:induction false} CutAt(head: string, c: char, rest: string)
    requires c !in head
    ensures var s := head + ([c] + rest);
      c in s && Before(s, c) == head && After(s, c) == rest
  {
    var s := head + ([c] + rest);
    assert s[|head|] == c;
    FindsAt(s, 0, c, |head|);
    assert s[..|head|] == head && s[|head| + 1..] == rest;
  }

  lemma {:induction false} FindsAt(s: string, i: nat, c: char, j: nat)
    requires i <= j <= |s| && (j < |s| ==> s[j] == c) && forall k :: i <= k < j ==> s[k] != c
    ensures Find(s, i, c) == j
  {
    FindsFirst(s, i, c);
  }

  lemma {:induction false} NoCut(s: string, c: char)
    requires c !in s
    ensures Before(s, c) == s && After(s, c) == ""
  {
    FindsAt(s, 0, c, |s|);
    assert s[..|s|] == s;
  }

  /** The specification of a field after what comes before it. */
  lemma {:induction false} CutSpec(head: string, f: Field)
    requires ':' !in head
    ensures Before(head + SpecText(f), ':') == head && After(head + SpecText(f), ':') == f.spec
  {
    if f.spec == "" {
      assert head + SpecText(f) == head;
      NoCut(head, ':');
    } else {
      CutAt(head, ':', f.spec);
    }
  }

  lemma {:induction false} SplitHead(f: Field)
    requires IsHead(f)
    ensures SplitMethod(HeadText(f), f.spec, f.conversion) == Some(f)
  {
    hide FindLast;
    if f.call != "" {
      var head := HeadText(f);
      var n := |f.name|;
      assert head[n] == '.' && head[n + 1..] == f.call && head[..n] == f.name;
      assert head[|head| - 2..] == f.call[|f.call| - 2..];
      FindsLast(head, |head|, '.');
      assert forall k :: n < k < |head| ==> head[k] == f.call[k - n - 1];
    }
  }

  lemma {:induction false} ParsePrintField(f: Field)
    requires IsPlain(f)
    ensures ParseField(FieldText(f)) == Some(f)
  {
    SplitHead(f);
    if f.conversion == "" {
      assert '!' !in SpecText(f);
      CutSpec(HeadText(f), f);
    } else {
      CutAt(HeadText(f), '!', f.conversion + SpecText(f));
      CutSpec(f.conversion, f);
    }
  }

  // Literals

  /** p parses to text, followed by what q parses to. */
  ghost predicate Yields(p: Parsed, text: string, q: Parsed) {
    && p.end == q.end
    && FieldsOf(p.sections) == FieldsOf(q.sections)
    && forall env: Env :: ShowAll(p.sections, env) == text + ShowAll(q.sections, env)
  }

  lemma {:induction false} TextYields(text: string, q: Parsed)
    ensures Yields(PrependText(text, q), Unbrace(text), q)
  {
    if text != "" {
      var p := PrependText(text, q);
      assert p.sections[1..] == q.sections;
    }
  }

  lemma {:induction false} YieldsConcat(p: Parsed, a: string, b: string, q: Parsed, r: Parsed)
    requires Yields(p, a + b, r) && Yields(q, b, r)
    ensures Yields(p, a, q)
  {
    forall env: Env ensures ShowAll(p.sections, env) == a + ShowAll(q.sections, env) {
      assert a + b + ShowAll(r.sections, env) == a + (b + ShowAll(r.sections, env));
    }
  }

  lemma {:induction false} YieldsTrans(p: Parsed, a: string, q: Parsed, b: string, r: Parsed)
    requires Yields(p, a, q) && Yields(q, b, r)
    ensures Yields(p, a + b, r)
  {
    forall env: Env ensures ShowAll(p.sections, env) == a + b + ShowAll(r.sections, env) {
      assert a + b + ShowAll(r.sections, env) == a + (b + ShowAll(r.sections, env));
    }
  }

  /** The text up to the next field or escaped brace, from i or from a later m, and what is
      parsed behind it. */
  lemma {:induction false} NextBrace(s: string, i: nat, m: nat) returns (end: nat, rest: Parsed)
    requires i <= |s| && i <= m <= Find(s, i, '{')
    ensures m <= end <= |s|
    ensures SectionsFrom(s, i) == PrependText(s[i..end], rest)
    ensures SectionsFrom(s, m) == PrependText(s[m..end], rest)
  {
    hide Find, FieldFrom;
    var j := Find(s, i, '{');
    FindsFirst(s, i, '{');
    FindsAt(s, m, '{', j);
    end := if IsEscape(s, j) then j + 1 else j;
    var inField := j < |s| && !IsEscape(s, j);
    NextText(s, i, end, end + 1, inField);
    NextText(s, m, end, end + 1, inField);
    rest := Rest(s, end + 1, inField);
  }

  /** A character that is not a brace. */
  lemma {:induction false} OneCharacter(s: string, i: nat)
    requires i < |s| && s[i] != '{' && s[i] != '}'
    ensures Yields(SectionsFrom(s, i), [s[i]], SectionsFrom(s, i + 1))
  {
    var end, rest := NextBrace(s, i, i + 1);
    assert s[i..end] == [s[i]] + s[i + 1..end];
    assert ([s[i]] + s[i + 1..end])[1..] == s[i + 1..end];
    TextYields(s[i..end], rest);
    TextYields(s[i + 1..end], rest);
    YieldsConcat(SectionsFrom(s, i), [s[i]], Unbrace(s[i + 1..end]), SectionsFrom(s, i + 1), rest);
  }

  lemma {:induction false} ClosingBraces(s: string, i: nat)
    requires i + 1 < |s| && s[i] == '}' && s[i + 1] == '}'
    ensures Yields(SectionsFrom(s, i), "}", SectionsFrom(s, i + 2))
  {
    FindsAfter(s, i);
    var end, rest := NextBrace(s, i, i + 2);
    var t := s[i + 2..end];
    assert s[i..end] == "}}" + t;
    assert ("}}" + t)[2..] == t;
    TextYields(s[i..end], rest);
    TextYields(t, rest);
    YieldsConcat(SectionsFrom(s, i), "}", Unbrace(t), SectionsFrom(s, i + 2), rest);
  }

  lemma {:induction false} FindsAfter(s: string, i: nat)
    requires i + 1 < |s| && s[i] == '}' && s[i + 1] == '}'
    ensures Find(s, i, '{') >= i + 2
  {
  }

  lemma {:induction false} OpeningBraces(s: string, i: nat)
    requires IsEscape(s, i)
    ensures Yields(SectionsFrom(s, i), "{", SectionsFrom(s, i + 2))
  {
    assert Find(s, i, '{') == i;
    assert s[i..i + 1] == "{" && Unbrace("{") == "{";
    TextYields("{", SectionsFrom(s, i + 2));
  }

  /** s continues with text at i. */
  predicate At(s: string, i: nat, text: string) {
    i + |text| <= |s| && s[i..i + |text|] == text
  }

  lemma {:induction false} AtConcat(s: string, i: nat, a: string, b: string)
    requires At(s, i, a + b)
    ensures At(s, i, a) && At(s, i + |a|, b)
  {
    var t := s[i..i + |a + b|];
    assert t[..|a|] == a && t[|a|..] == b;
    assert s[i..i + |a|] == t[..|a|] && s[i + |a|..i + |a| + |b|] == t[|a|..];
  }

  lemma {:induction false} OneYields(s: string, i: nat, c: char, next: nat)
    requires At(s, i, EscapeOne(c)) && next == i + |EscapeOne(c)|
    ensures Yields(SectionsFrom(s, i), [c], SectionsFrom(s, next))
  {
    hide SectionsFrom, ShowAll, Yields, IsEscape;
    var one := EscapeOne(c);
    assert s[i] == s[i..i + |one|][0] && (|one| == 2 ==> s[i + 1] == s[i..i + 2][1]);
    if c == '{' { OpeningBraces(s, i); } else if c == '}' { ClosingBraces(s, i); } else { OneCharacter(s, i); }
  }

  lemma {:induction false} LiteralYields(s: string, i: nat, text: string, end: nat)
    requires At(s, i, Escape(text)) && end == i + |Escape(text)|
    ensures Yields(SectionsFrom(s, i), text, SectionsFrom(s, end))
    decreases |text|
  {
    hide SectionsFrom, FieldsOf, ShowAll, At;
    if text != "" {
      var c, rest := text[0], text[1..];
      var next := i + |EscapeOne(c)|;
      AtConcat(s, i, EscapeOne(c), Escape(rest));
      OneYields(s, i, c, next);
      LiteralYields(s, next, rest, end);
      YieldsTrans(SectionsFrom(s, i), [c], SectionsFrom(s, next), rest, SectionsFrom(s, end));
      assert text == [c] + rest;
    }
  }

  lemma {:induction false} FieldStands(s: string, i: nat, text: string, k: nat)
    requires At(s, i, "{" + (text + "}")) && '}' !in text && (text != "" ==> text[0] != '{') && k == i + 1 + |text|
    ensures i < k < |s| && s[i] == '{' && !IsEscape(s, i)
    ensures s[i + 1..k] == text && Find(s, i + 1, '}') == k
  {
    AtConcat(s, i, "{", text + "}");
    AtConcat(s, i + 1, text, "}");
    assert s[i] == s[i..i + 1][0] && s[k] == s[k..k + 1][0];
    assert text != "" ==> s[i + 1] == s[i + 1..k][0];
    forall j | i + 1 <= j < k ensures s[j] != '}' { assert s[j] == s[i + 1..k][j - i - 1]; }
    FindsAt(s, i + 1, '}', k);
  }

  /** A field is read as such. */
  lemma {:induction false} FieldIsRead(s: string, i: nat, f: Field, next: nat)
    requires IsPlain(f) && At(s, i, Print(Reference(f))) && next == i + |Print(Reference(f))|
    ensures SectionsFrom(s, i) == Prepend(Reference(f), SectionsFrom(s, next))
  {
    ParsePrintField(f);
    TextIsRead(s, i, FieldText(f), f, next);
  }

  lemma {:induction false} TextIsRead(s: string, i: nat, text: string, f: Field, next: nat)
    requires At(s, i, "{" + (text + "}")) && '}' !in text && (text != "" ==> text[0] != '{')
    requires ParseField(text) == Some(f) && next == i + 2 + |text|
    ensures next <= |s| && SectionsFrom(s, i) == Prepend(Reference(f), SectionsFrom(s, next))
  {
    FieldStands(s, i, text, next - 1);
    ReadsField(s, i, next - 1, f, next);
  }

  lemma {:induction false} ReadsField(s: string, i: nat, k: nat, f: Field, next: nat)
    requires i < k < |s| && next == k + 1 && s[i] == '{' && !IsEscape(s, i) && Find(s, i + 1, '}') == k
    requires ParseField(s[i + 1..k]) == Some(f)
    ensures SectionsFrom(s, i) == Prepend(Reference(f), SectionsFrom(s, next))
  {
    hide Find, SectionsFrom, FindLast, IsEscape, ParseField;
    OpensField(s, i, i + 1);
    EndsField(s, i + 1, k, Some(f), SectionsFrom(s, next));
  }

  lemma {:induction false} OpensField(s: string, i: nat, next: nat)
    requires i < |s| && s[i] == '{' && !IsEscape(s, i) && next == i + 1
    ensures SectionsFrom(s, i) == FieldFrom(s, next)
  {
    FindsAt(s, i, '{', i);
    assert s[i..i] == "";
  }

  lemma {:induction false} EndsField(s: string, i: nat, k: nat, field: Option<Field>, q: Parsed)
    requires i <= k < |s| && Find(s, i, '}') == k && ParseField(s[i..k]) == field && q == SectionsFrom(s, k + 1)
    ensures FieldFrom(s, i) == PrependField(field, q)
  {
    hide Find, SectionsFrom, FindLast, ParseField, PrependField;
  }

  // Templates

  /** What the printed items stand for. */
  function Meaning(items: seq<Section>, i: nat, env: Env): string
    requires i <= |items|
    decreases |items| - i
  {
    if i == |items| then "" else Show(items[i], env) + Meaning(items, i + 1, env)
  }

  /** Parse succeeds, finds the fields in order, and shows what the items stand for. */
  ghost predicate Recovers(p: Parsed, items: seq<Section>, i: nat)
    requires i <= |items|
  {
    && p.end == Fine
    && FieldsOf(p.sections) == FieldsOf(items[i..])
    && forall env: Env :: ShowAll(p.sections, env) == Meaning(items, i, env)
  }

  ghost predicate ArePlain(items: seq<Section>) {
    forall i :: 0 <= i < |items| && items[i].Reference? ==> IsPlain(items[i].field)
  }

  lemma {:induction false} ParsePrintFrom(s: string, at: nat, items: seq<Section>, i: nat)
    requires ArePlain(items) && i <= |items|
    requires At(s, at, PrintFrom(items, i)) && |s| == at + |PrintFrom(items, i)|
    ensures Recovers(SectionsFrom(s, at), items, i)
    decreases |items| - i
  {
    if i == |items| {
      NoText(s);
    } else {
      var next := at + |Print(items[i])|;
      PrintSplits(s, at, items, i, next);
      ParsePrintFrom(s, next, items, i + 1);
      ItemRecovers(s, at, items, i, next);
    }
  }

  lemma {:induction false} PrintSplits(s: string, at: nat, items: seq<Section>, i: nat, next: nat)
    requires i < |items| && At(s, at, PrintFrom(items, i)) && next == at + |Print(items[i])|
    ensures At(s, at, Print(items[i])) && At(s, next, PrintFrom(items, i + 1))
    ensures at + |PrintFrom(items, i)| == next + |PrintFrom(items, i + 1)|
  {
    hide At, Print;
    var first, rest := Print(items[i]), PrintFrom(items, i + 1);
    assert PrintFrom(items, i) == first + rest;
    AtConcat(s, at, first, rest);
  }

  lemma {:induction false} ItemRecovers(s: string, at: nat, items: seq<Section>, i: nat, next: nat)
    requires ArePlain(items) && i < |items| && At(s, at, Print(items[i])) && next == at + |Print(items[i])|
    requires Recovers(SectionsFrom(s, next), items, i + 1)
    ensures Recovers(SectionsFrom(s, at), items, i)
  {
    match items[i] {
      case Literal(text) =>
        LiteralYields(s, at, text, next);
        LiteralRecovers(SectionsFrom(s, at), text, SectionsFrom(s, next), items, i);
      case Reference(f) =>
        FieldIsRead(s, at, f, next);
        FieldRecovers(SectionsFrom(s, at), f, SectionsFrom(s, next), items, i);
    }
  }

  lemma {:induction false} LiteralRecovers(p: Parsed, text: string, q: Parsed, items: seq<Section>, i: nat)
    requires i < |items| && items[i] == Literal(text) && Yields(p, text, q) && Recovers(q, items, i + 1)
    ensures Recovers(p, items, i)
  {
    assert items[i..][1..] == items[i + 1..];
  }

  lemma {:induction false} FieldRecovers(p: Parsed, f: Field, q: Parsed, items: seq<Section>, i: nat)
    requires i < |items| && items[i] == Reference(f) && p == Prepend(Reference(f), q) && Recovers(q, items, i + 1)
    ensures Recovers(p, items, i)
  {
    assert items[i..][1..] == items[i + 1..];
    assert p.sections[1..] == q.sections;
  }

  /** Parse of a printed template. */
  lemma {:induction false} ParsePrint(items: seq<Section>)
    requires ArePlain(items)
    ensures Recovers(SectionsFrom(PrintFrom(items, 0), 0), items, 0)
  {
    var s := PrintFrom(items, 0);
    assert s[0..|s|] == s;
    ParsePrintFrom(s, 0, items, 0);
  }

  /** A method call without a dot before it panics. */
  lemma {:induction false} CallNeedsDot(head: string, spec: string, conversion: string)
    ensures SplitMethod(head, spec, conversion).None? <==> HasSuffix(head, PARENS) && '.' !in head
  {
    var dot := FindLast(head, |head|, '.');
    FindsLast(head, |head|, '.');
    if dot >= 0 { assert head[dot] in head; }
  }
}
