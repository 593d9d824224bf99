/** Format strings with {field} references (internal/pyfmt/format.go). */
module Templates {
  import opened Collections

  datatype Field = Field(name: string, spec: string, conversion: string, call: string)

  datatype Section = Literal(text: string) | Reference(field: Field)

  // Searching strings

  /** The first c in s from i on, or the length of s. */
  function Find(s: string, i: nat, c: char): (j: nat)
    requires i <= |s|
    ensures i <= j <= |s|
    decreases |s| - i
  {
    if i == |s| || s[i] == c then i else Find(s, i + 1, c)
  }

  /** The index of the last c in s[..i], -1 if there is none. */
  function FindLast(s: string, i: nat, c: char): (j: int)
    requires i <= |s|
    ensures -1 <= j < i
  {
    if i == 0 then -1 else if s[i - 1] == c then i - 1 else FindLast(s, i - 1, c)
  }

  lemma {:induction false} FindsFirst(s: string, i: nat, c: char)
    requires i <= |s|
    ensures var j := Find(s, i, c);
      (j < |s| ==> s[j] == c) && forall k :: i <= k < j ==> s[k] != c
    decreases |s| - i
  {
    if i < |s| && s[i] != c { FindsFirst(s, i + 1, c); }
  }

  lemma {:induction false} FindsLast(s: string, i: nat, c: char)
    requires i <= |s|
    ensures var j := FindLast(s, i, c);
      (j >= 0 ==> s[j] == c) && forall k :: j < k < i ==> s[k] != c
  {
    if i > 0 && s[i - 1] != c { FindsLast(s, i - 1, c); }
  }

  /** strings.Cut at a character. */
  function Before(s: string, c: char): string {
    s[..Find(s, 0, c)]
  }

  function After(s: string, c: char): string {
    if Find(s, 0, c) < |s| then s[Find(s, 0, c) + 1..] else ""
  }

  predicate HasSuffix(s: string, suffix: string) {
    |s| >= |suffix| && s[|s| - |suffix|..] == suffix
  }

  /** strings.ReplaceAll(s, "}}", "}"). */
  function Unbrace(s: string): string {
    if |s| >= 2 && s[0] == '}' && s[1] == '}' then "}" + Unbrace(s[2..])
    else if s == "" then ""
    else [s[0]] + Unbrace(s[1..])
  }

  // Parsing

  const PARENS := "()"

  /** A method call without a dot before it panics. */
  function SplitMethod(name: string, spec: string, conversion: string): Option<Field> {
    if !HasSuffix(name, PARENS) then Some(Field(name, spec, conversion, ""))
    else
      var dot := FindLast(name, |name|, '.');
      if dot == -1 then None else Some(Field(name[..dot], spec, conversion, name[dot + 1..]))
  }

  /** parseField; None for a panic. */
  function ParseField(s: string): Option<Field> {
    if '!' in s then
      var after := After(s, '!');
      SplitMethod(Before(s, '!'), After(after, ':'), Before(after, ':'))
    else SplitMethod(Before(s, ':'), After(s, ':'), "")
  }

  datatype End = Fine | Error | Panic

  /** The sections found and how parsing ended. */
  datatype Parsed = Parsed(sections: seq<Section>, end: End)

  function Prepend(section: Section, rest: Parsed): Parsed {
    Parsed([section] + rest.sections, rest.end)
  }

  /** A literal is left out when it is empty. */
  function PrependText(text: string, rest: Parsed): Parsed {
    if text == "" then rest else Prepend(Literal(Unbrace(text)), rest)
  }

  function PrependField(field: Option<Field>, rest: Parsed): Parsed {
    if field.None? then Parsed([], Panic) else Prepend(Reference(field.value), rest)
  }

  predicate IsEscape(s: string, i: nat) {
    i + 1 < |s| && s[i] == '{' && s[i + 1] == '{'
  }

  /** The sections of s from i on, outside of a field. */
  function SectionsFrom(s: string, i: nat): Parsed
    requires i <= |s|
    decreases |s| - i, 1
  {
    var j := Find(s, i, '{');
    if j == |s| then PrependText(s[i..j], Parsed([], Fine))
    else if IsEscape(s, j) then PrependText(s[i..j + 1], SectionsFrom(s, j + 2))
    else PrependText(s[i..j], FieldFrom(s, j + 1))
  }

  /** Inside a field. */
  function FieldFrom(s: string, i: nat): Parsed
    requires i <= |s|
    decreases |s| - i, 2
  {
    var k := Find(s, i, '}');
    if k == |s| then Parsed([], Error)
    else PrependField(ParseField(s[i..k]), SectionsFrom(s, k + 1))
  }

  function FieldsOf(sections: seq<Section>): seq<Field> {
    if sections == [] then []
    else if sections[0].Reference? then [sections[0].field] + FieldsOf(sections[1..])
    else FieldsOf(sections[1..])
  }

  lemma {:induction false} FieldsSnoc(sections: seq<Section>, last: Section)
    ensures FieldsOf(sections + [last]) == FieldsOf(sections) + if last.Reference? then [last.field] else []
  {
    if sections != [] {
      FieldsSnoc(sections[1..], last);
      assert (sections + [last])[1..] == sections[1..] + [last];
    } else {
      assert sections + [last] == [last];
    }
  }

  // Formatting

  /** The values of the fields, and how strings change case. */
  datatype Env = Env(values: map<string, string>, lower: string -> string, upper: string -> string)

  /** strings.ReplaceAll(v, "'", "''"). */
  function DoubleQuotes(v: string): string {
    if v == "" then "" else (if v[0] == '\'' then "''" else [v[0]]) + DoubleQuotes(v[1..])
  }

  function Transform(call: string, v: string, env: Env): string {
    if call == "" then v
    else if call == "lower()" then env.lower(v)
    else if call == "upper()" then env.upper(v)
    else if call == "identifier()" then "\"" + v + "\""
    else if call == "string()" then "'" + DoubleQuotes(v) + "'"
    else "!INVALID_METHOD"
  }

  function Show(section: Section, env: Env): string {
    match section
    case Literal(text) => text
    case Reference(f) => Transform(f.call, if f.name in env.values then env.values[f.name] else "", env)
  }

  function ShowAll(sections: seq<Section>, env: Env): string {
    if sections == [] then "" else Show(sections[0], env) + ShowAll(sections[1..], env)
  }

  /** done, followed by what the rest gives, is all. */
  predicate Continues(done: seq<Section>, rest: Parsed, all: Parsed) {
    all.sections == done + rest.sections && all.end == rest.end
  }

  lemma {:induction false} Continue(done: seq<Section>, section: Section, rest: Parsed, all: Parsed)
    requires Continues(done, Prepend(section, rest), all)
    ensures Continues(done + [section], rest, all)
  {
  }

  /** What is left to parse. */
  function Rest(s: string, i: nat, inField: bool): Parsed {
    if i > |s| then Parsed([], Fine) else if inField then FieldFrom(s, i) else SectionsFrom(s, i)
  }

  lemma {:induction false} NextText(s: string, start: nat, i: nat, next: nat, inField: bool)
    requires start <= i <= |s| && next == i + 1 && var j := Find(s, start, '{');
      if j == |s| then i == j && !inField else if IsEscape(s, j) then i == j + 1 && !inField else i == j && inField
    ensures SectionsFrom(s, start) == PrependText(s[start..i], Rest(s, next, inField))
  {
    hide Find, Unbrace, FieldFrom;
  }

  /** One round of the loop outside of a field. */
  method CutText(s: string, start: nat) returns (text: string, next: nat, inField: bool)
    requires start < |s|
    ensures start < next <= |s| + 1 && (next > |s| ==> !inField)
    ensures SectionsFrom(s, start) == PrependText(text, Rest(s, next, inField))
  {
    var i := Find(s, start, '{');
    inField := false;
    FindsFirst(s, start, '{');
    if i < |s| {
      if i < |s| - 1 && s[i + 1] == '{' { i := i + 1; } else { inField := true; }
    }
    text, next := s[start..i], i + 1;
    NextText(s, start, i, next, inField);
  }

  /** One round inside: not found when no brace closes the field, no field for a panic. */
  method CutField(s: string, start: nat) returns (found: bool, field: Option<Field>, next: nat)
    requires start < |s|
    ensures start < next <= |s| && (!found ==> next == |s| && FieldFrom(s, start) == Parsed([], Error))
    ensures found ==> FieldFrom(s, start) == PrependField(field, SectionsFrom(s, next))
  {
    var k := Find(s, start, '}');
    if k == |s| { return false, None, k; }
    found, field, next := true, ParseField(s[start..k]), k + 1;
  }

  lemma {:induction false} NoField(s: string)
    ensures FieldFrom(s, |s|) == Parsed([], Error)
  {
  }

  lemma {:induction false} NoText(s: string)
    ensures SectionsFrom(s, |s|) == Parsed([], Fine)
  {
    assert s[|s|..|s|] == "";
  }

  class Format {
    var sections: seq<Section>
    var fields: seq<Field>

    constructor ()
      ensures sections == [] && fields == []
    {
      sections, fields := [], [];
    }

    /** Parse: appends the sections found, also before an error. */
    method Parse(s: string) returns (end: End)
      requires fields == FieldsOf(sections)
      modifies this
      ensures sections == old(sections) + SectionsFrom(s, 0).sections
      ensures fields == FieldsOf(sections)
      ensures end == SectionsFrom(s, 0).end
    {
      ghost var all := Parsed(sections + SectionsFrom(s, 0).sections, SectionsFrom(s, 0).end);
      var inField, i := false, 0;
      while i < |s|
        invariant i <= |s| + 1 && (i > |s| ==> !inField)
        invariant fields == FieldsOf(sections)
        invariant Continues(sections, Rest(s, i, inField), all)
      {
        if inField {
          var found, field, next := CutField(s, i);
          if found {
            if field.None? {
              assert sections + [] == sections;
              return Panic;
            }
            inField := false;
            Continue(sections, Reference(field.value), Rest(s, next, false), all);
            FieldsSnoc(sections, Reference(field.value));
            sections, fields := sections + [Reference(field.value)], fields + [field.value];
          } else {
            NoField(s);
          }
          i := next;
        } else {
          var text, next;
          text, next, inField := CutText(s, i);
          if text != "" {
            var literal := Literal(Unbrace(text));
            Continue(sections, literal, Rest(s, next, inField), all);
            FieldsSnoc(sections, literal);
            sections := sections + [literal];
          }
          i := next;
        }
      }
      assert sections + [] == sections;
      if inField { NoField(s); } else { NoText(s); }
      end := if inField then Error else Fine;
    }

    /** Format, with values. */
    method Render(env: Env) returns (text: string)
      ensures text == ShowAll(sections, env)
    {
      text := "";
      for i := 0 to |sections|
        invariant text + ShowAll(sections[i..], env) == ShowAll(sections, env)
      {
        text := text + Show(sections[i], env);
        assert sections[i..][1..] == sections[i + 1..];
      }
    }
  }
}
