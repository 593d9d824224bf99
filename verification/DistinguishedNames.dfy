/** Distinguished names (ParseDN, the String and Equal methods; partialvendor/go-ldap/dn.go),
    sections 2 and 3 of RFC 4514. */
module DistinguishedNames {
  import opened Collections
  import opened Utf8
  import opened FilterEscape
  import opened DnEscape
  import Sorting

  /** An attribute type, here its kind, and its value. */
  datatype Attribute = Attribute(kind: seq<Byte>, value: seq<Byte>)

  type RelativeName = seq<Attribute>
  type Name = seq<RelativeName>

  const COMMA: Byte := ',' as int
  const PLUS: Byte := '+' as int
  const SEMICOLON: Byte := ';' as int

  // Printing

  function FoldByte(c: Byte): Byte {
    if 'A' as int <= c <= 'Z' as int then c + 32 else c
  }

  /** foldString, and what strings.EqualFold compares, for ASCII strings. */
  function Fold(s: seq<Byte>): (t: seq<Byte>)
    ensures |t| == |s|
  {
    seq(|s|, i requires 0 <= i < |s| => FoldByte(s[i]))
  }

  predicate IsAscii(s: seq<Byte>) {
    forall i :: 0 <= i < |s| ==> s[i] < 0x80
  }

  function PrintAttribute(a: Attribute): seq<Byte> {
    Encode(Fold(a.kind), false) + [EQUALS] + Encode(a.value, true)
  }

  function ByteLess(a: Byte, b: Byte): bool { a < b }

  function Texts(r: RelativeName): (texts: seq<seq<Byte>>)
    ensures |texts| == |r|
  {
    seq(|r|, i requires 0 <= i < |r| => PrintAttribute(r[i]))
  }

  /** strings.Join(parts[i:], sep). */
  function JoinFrom(parts: seq<seq<Byte>>, i: nat, sep: Byte): seq<Byte>
    requires i <= |parts|
    decreases |parts| - i
  {
    if i == |parts| then [] else if i == |parts| - 1 then parts[i] else parts[i] + [sep] + JoinFrom(parts, i + 1, sep)
  }

  function SortedTexts(r: RelativeName): (texts: seq<seq<Byte>>)
    ensures |texts| == |r| && multiset(texts) == multiset(Texts(r))
  {
    Sorting.Sort(ByteLess, Texts(r))
  }

  function PrintRelative(r: RelativeName): seq<Byte> {
    JoinFrom(SortedTexts(r), 0, PLUS)
  }

  function Print(d: Name): seq<Byte> {
    JoinFrom(seq(|d|, i requires 0 <= i < |d| => PrintRelative(d[i])), 0, COMMA)
  }

  // Parsing

  predicate Separates(c: Byte) {
    c == COMMA || c == PLUS || c == SEMICOLON
  }

  /** The next separator from i on, or equals sign while there is no type yet, not escaped. */
  function NextStop(s: seq<Byte>, i: nat, escaping: bool, typed: bool): (j: nat)
    requires i <= |s|
    ensures i <= j <= |s|
    ensures j < |s| ==> Separates(s[j]) || (!typed && s[j] == EQUALS)
    decreases |s| - i
  {
    if i == |s| then i
    else if escaping then NextStop(s, i + 1, false, typed)
    else if s[i] == BACKSLASH then NextStop(s, i + 1, true, typed)
    else if Separates(s[i]) || (!typed && s[i] == EQUALS) then i
    else NextStop(s, i + 1, false, typed)
  }

  /** setValue; ber decodes what follows a number sign. */
  function ValueOf(ber: seq<Byte> -> Option<seq<Byte>>, s: seq<Byte>): Option<seq<Byte>> {
    if s != [] && s[0] == SHARP then ber(s[1..]) else Decode(s)
  }

  /** How types and values are decoded. */
  datatype Reader = Reader(kind: seq<Byte> -> Option<seq<Byte>>, value: seq<Byte> -> Option<seq<Byte>>)

  function ReaderOf(ber: seq<Byte> -> Option<seq<Byte>>): Reader {
    Reader(s => Decode(s), s => ValueOf(ber, s))
  }

  /** The rest of a name, from start on: kind is the type read, attributes those of the
      current relative name, names the ones before. None is an error. */
  function ParseAt(reader: Reader, s: seq<Byte>, start: nat, kind: seq<Byte>, attributes: RelativeName, names: Name): Option<Name>
    requires start <= |s|
    decreases |s| - start
  {
    var typed := kind != [];
    var j := NextStop(s, start, false, typed);
    if j < |s| && s[j] == EQUALS then
      match reader.kind(s[start..j])
      case None => None
      case Some(k) => ParseAt(reader, s, j + 1, k, attributes, names)
    else if !typed then None
    else
      match reader.value(s[start..j])
      case None => None
      case Some(value) =>
        var more := attributes + [Attribute(kind, value)];
        if j == |s| then Some(names + [more])
        else if s[j] == PLUS then ParseAt(reader, s, j + 1, [], more, names)
        else ParseAt(reader, s, j + 1, [], [], names + [more])
  }

  /** unicode.IsSpace. */
  predicate IsSpace(code: int) {
    0x9 <= code <= 0xD || code == 0x20 || code == 0x85 || code == 0xA0 || code == 0x1680 || 0x2000 <= code <= 0x200A
    || code == 0x2028 || code == 0x2029 || code == 0x202F || code == 0x205F || code == 0x3000
  }

  /** strings.TrimSpace(s[i:]) is empty. */
  predicate IsBlank(s: seq<Byte>, i: nat)
    requires i <= |s|
    decreases |s| - i
  {
    i == |s| || (IsSpace(DecodeRune(s, i).code) && IsBlank(s, i + DecodeRune(s, i).width))
  }

  function Parse(ber: seq<Byte> -> Option<seq<Byte>>, s: seq<Byte>): Option<Name> {
    if IsBlank(s, 0) then Some([]) else ParseAt(ReaderOf(ber), s, 0, [], [], [])
  }

  /** What ParseDN has read: the type, the attributes of the current relative name, the
      relative names before it, and where the current piece starts. */
  datatype Progress = Progress(start: nat, kind: seq<Byte>, attributes: RelativeName, names: Name)

  ghost function Rest(reader: Reader, s: seq<Byte>, p: Progress): Option<Name>
    requires p.start <= |s|
  {
    ParseAt(reader, s, p.start, p.kind, p.attributes, p.names)
  }

  ghost predicate StopsAt(s: seq<Byte>, p: Progress, j: nat)
    requires p.start <= |s|
  {
    j == NextStop(s, p.start, false, p.kind != [])
  }

  lemma {:induction false} AtEquals(
    reader: Reader, s: seq<Byte>, p: Progress, j: nat, result: Option<Name>, kind: Option<seq<Byte>>)
    requires p.start <= j < |s| && StopsAt(s, p, j) && s[j] == EQUALS
    requires result == Rest(reader, s, p) && kind == reader.kind(s[p.start..j])
    ensures kind.None? ==> result == None
    ensures kind.Some? ==> result == Rest(reader, s, Progress(j + 1, kind.value, p.attributes, p.names))
  {
  }

  lemma {:induction false} AtSeparator(
    reader: Reader, s: seq<Byte>, p: Progress, j: nat, result: Option<Name>, value: Option<seq<Byte>>)
    requires p.start <= j < |s| && StopsAt(s, p, j) && Separates(s[j])
    requires result == Rest(reader, s, p) && value == reader.value(s[p.start..j])
    ensures p.kind == [] || value.None? ==> result == None
    ensures p.kind != [] && value.Some? ==> result == Rest(reader, s, Advanced(p, value.value, j + 1, s[j] != PLUS))
  {
  }

  lemma {:induction false} AtEnd(
    reader: Reader, s: seq<Byte>, p: Progress, result: Option<Name>, value: Option<seq<Byte>>)
    requires p.start <= |s| && StopsAt(s, p, |s|) && result == Rest(reader, s, p) && value == reader.value(s[p.start..])
    ensures p.kind == [] || value.None? ==> result == None
    ensures p.kind != [] && value.Some? ==> result == Some(p.names + [p.attributes + [Attribute(p.kind, value.value)]])
  {
    assert s[p.start..|s|] == s[p.start..];
  }

  /** appendAttributesToRDN. */
  function Advanced(p: Progress, value: seq<Byte>, start: nat, end: bool): Progress {
    var more := p.attributes + [Attribute(p.kind, value)];
    if end then Progress(start, [], [], p.names + [more]) else Progress(start, [], more, p.names)
  }

  /** ParseDN. */
  method ParseDN(ber: seq<Byte> -> Option<seq<Byte>>, str: seq<Byte>) returns (dn: Option<Name>)
    ensures dn == Parse(ber, str)
  {
    hide Decode, Length;
    if IsBlank(str, 0) { return Some([]); }
    var escaping, p := false, Progress(0, [], [], []);
    ghost var result, reader := Parse(ber, str), ReaderOf(ber);
    for i := 0 to |str|
      invariant p.start <= i && result == Rest(reader, str, p)
      invariant NextStop(str, p.start, false, p.kind != []) == NextStop(str, i, escaping, p.kind != [])
    {
      var c := str[i];
      if escaping {
        escaping := false;
      } else if c == BACKSLASH {
        escaping := true;
      } else if c == EQUALS && |p.kind| == 0 {
        var kind := DecodeString(str[p.start..i]);
        AtEquals(reader, str, p, i, result, kind);
        if kind.None? { return None; }
        p := Progress(i + 1, kind.value, p.attributes, p.names);
      } else if c == COMMA || c == PLUS || c == SEMICOLON {
        AtSeparator(reader, str, p, i, result, ValueOf(ber, str[p.start..i]));
        if |p.kind| == 0 { return None; }
        var value := SetValue(ber, str[p.start..i]);
        if value.None? { return None; }
        p := Advanced(p, value.value, i + 1, c == COMMA || c == SEMICOLON);
      }
    }
    AtEnd(reader, str, p, result, ValueOf(ber, str[p.start..]));
    if |p.kind| == 0 { return None; }
    var value := SetValue(ber, str[p.start..]);
    if value.None? { return None; }
    dn := Some(p.names + [p.attributes + [Attribute(p.kind, value.value)]]);
  }

  method SetValue(ber: seq<Byte> -> Option<seq<Byte>>, s: seq<Byte>) returns (value: Option<seq<Byte>>)
    ensures value == ValueOf(ber, s)
  {
    if |s| > 0 && s[0] == SHARP {
      value := ber(s[1..]);
    } else {
      value := DecodeString(s);
    }
  }

  // Equality

  predicate EqualAttributes(a: Attribute, b: Attribute) {
    Fold(a.kind) == Fold(b.kind) && a.value == b.value
  }

  /** hasAllAttributes. */
  ghost predicate HasAll(r: RelativeName, attributes: seq<Attribute>) {
    forall i :: 0 <= i < |attributes| ==> Has(r, attributes[i])
  }

  ghost predicate Has(r: RelativeName, a: Attribute) {
    exists j :: 0 <= j < |r| && EqualAttributes(r[j], a)
  }

  ghost predicate EqualRelatives(r: RelativeName, other: RelativeName) {
    |r| == |other| && HasAll(r, other) && HasAll(other, r)
  }

  ghost predicate EqualNames(d: Name, other: Name) {
    |d| == |other| && forall i :: 0 <= i < |d| ==> EqualRelatives(d[i], other[i])
  }

  method HasAllAttributes(r: RelativeName, attributes: seq<Attribute>) returns (all: bool)
    ensures all <==> HasAll(r, attributes)
  {
    for i := 0 to |attributes|
      invariant forall k :: 0 <= k < i ==> Has(r, attributes[k])
    {
      var found := false;
      for j := 0 to |r|
        invariant found <==> exists k :: 0 <= k < j && EqualAttributes(r[k], attributes[i])
      {
        if EqualAttributes(r[j], attributes[i]) {
          found := true;
          break;
        }
      }
      assert found <==> Has(r, attributes[i]);
      if !found { return false; }
    }
    all := true;
  }

  /** DN.Equal. */
  method Equal(d: Name, other: Name) returns (equal: bool)
    ensures equal <==> EqualNames(d, other)
  {
    if |d| != |other| { return false; }
    for i := 0 to |d|
      invariant forall k :: 0 <= k < i ==> EqualRelatives(d[k], other[k])
    {
      if |d[i]| != |other[i]| { return false; }
      var first := HasAllAttributes(d[i], other[i]);
      var second := HasAllAttributes(other[i], d[i]);
      if !(first && second) { return false; }
    }
    equal := true;
  }
}
