/** Parsing what was printed. */
module DnRoundTrip {
  import opened Collections
  import opened Utf8
  import opened FilterEscape
  import opened DnEscape
  import opened DistinguishedNames
  import Sorting

  // Texts inside texts

  /** s continues with text at p, as one fact about a slice. */
  predicate Lies(s: seq<Byte>, p: nat, text: seq<Byte>) {
    p + |text| <= |s| && s[p..p + |text|] == text
  }

  lemma {:induction false} LiesConcat(s: seq<Byte>, p: nat, a: seq<Byte>, b: seq<Byte>)
    requires Lies(s, p, a + b)
    ensures Lies(s, p, a) && Lies(s, p + |a|, b)
  {
    var t := s[p..p + |a + b|];
    assert s[p..p + |a|] == t[..|a|] == a;
    assert s[p + |a|..p + |a| + |b|] == t[|a|..] == b;
  }

  lemma {:induction false} HeadLies(s: seq<Byte>, p: nat, head: Byte, rest: seq<Byte>)
    requires Lies(s, p, [head] + rest)
    ensures p < |s| && s[p] == head && Lies(s, p + 1, rest)
  {
    LiesConcat(s, p, [head], rest);
    assert s[p] == s[p..p + 1][0];
  }

  // Encoded text has no separator of its own

  lemma {:induction false} UnitIsQuiet(s: seq<Byte>, p: nat, v: seq<Byte>, i: nat, isValue: bool, typed: bool, next: nat, j: nat)
    requires i < |v| && Lies(s, p, Unit(v, i, isValue)) && (isValue ==> typed)
    requires next == p + |Unit(v, i, isValue)| && NextStop(s, next, false, typed) == j
    ensures NextStop(s, p, false, typed) == j
  {
    var u := Unit(v, i, isValue);
    assert s[p] == s[p..p + |u|][0] == u[0];
    if |u| > 1 { assert s[p + 1] == s[p..p + |u|][1] == u[1]; }
    if |u| > 2 {
      assert s[p + 2] == s[p..p + |u|][2] == u[2];
      HexIsQuiet(v[i] % 16);
      assert NextStop(s, p + 2, false, typed) == j;
      assert NextStop(s, p + 1, true, typed) == j;
    }
  }

  lemma {:induction false} HexIsQuiet(n: int)
    requires 0 <= n < 16
    ensures !Separates(HexDigit(n)) && HexDigit(n) != EQUALS && HexDigit(n) != BACKSLASH
  {
  }

  lemma {:induction false} TextIsQuiet(s: seq<Byte>, p: nat, v: seq<Byte>, i: nat, isValue: bool, typed: bool, j: nat)
    requires i <= |v| && Lies(s, p, EncodeFrom(v, i, isValue)) && (isValue ==> typed)
    requires j == p + |EncodeFrom(v, i, isValue)| && NextStop(s, j, false, typed) == j
    ensures NextStop(s, p, false, typed) == j
    decreases |v| - i
  {
    if i < |v| {
      var next := p + |Unit(v, i, isValue)|;
      LiesConcat(s, p, Unit(v, i, isValue), EncodeFrom(v, i + 1, isValue));
      TextIsQuiet(s, next, v, i + 1, isValue, typed, j);
      UnitIsQuiet(s, p, v, i, isValue, typed, next, j);
    }
  }

  // One attribute

  /** The attribute as it is printed. */
  function Folded(a: Attribute): Attribute {
    Attribute(Fold(a.kind), a.value)
  }

  lemma {:induction false} EncodedValue(ber: seq<Byte> -> Option<seq<Byte>>, v: seq<Byte>, text: seq<Byte>)
    requires text == Encode(v, true)
    ensures ValueOf(ber, text) == Some(v)
  {
    DecodeEncode(v, true);
    if v != [] { assert text[0] == Unit(v, 0, true)[0] != SHARP; }
  }

  /** Where the attribute ends: at the end of the text or before a separator. */
  predicate EndsAt(s: seq<Byte>, q: nat) {
    q == |s| || (q < |s| && Separates(s[q]))
  }

  lemma {:induction false} AttributeSplits(s: seq<Byte>, p: nat, a: Attribute)
    requires Lies(s, p, PrintAttribute(a))
    ensures var k := Encode(Fold(a.kind), false);
            && Lies(s, p, k) && p + |k| < |s| && s[p + |k|] == EQUALS && Lies(s, p + |k| + 1, Encode(a.value, true))
            && |PrintAttribute(a)| == |k| + 1 + |Encode(a.value, true)|
  {
    hide EncodeFrom, Lies, Fold;
    var k, v := Encode(Fold(a.kind), false), Encode(a.value, true);
    assert PrintAttribute(a) == k + ([EQUALS] + v);
    LiesConcat(s, p, k, [EQUALS] + v);
    HeadLies(s, p + |k|, EQUALS, v);
  }

  /** The reader decodes what was encoded. */
  ghost predicate ReadsBack(reader: Reader) {
    forall v :: reader.kind(Encode(v, false)) == Some(v) && reader.value(Encode(v, true)) == Some(v)
  }

  lemma {:induction false} DecodingReadsBack(ber: seq<Byte> -> Option<seq<Byte>>)
    ensures ReadsBack(ReaderOf(ber))
  {
    forall v ensures Decode(Encode(v, false)) == Some(v) && ValueOf(ber, Encode(v, true)) == Some(v) {
      DecodeEncode(v, false);
      EncodedValue(ber, v, Encode(v, true));
    }
  }

  lemma {:induction false} KindStands(s: seq<Byte>, p: Progress, kind: seq<Byte>, q: nat)
    requires p.start <= |s| && p.kind == [] && Lies(s, p.start, Encode(kind, false))
    requires q == p.start + |Encode(kind, false)| < |s| && s[q] == EQUALS
    ensures StopsAt(s, p, q) && s[p.start..q] == Encode(kind, false)
  {
    TextIsQuiet(s, p.start, kind, 0, false, false, q);
  }

  lemma {:induction false} KindIsRead(
    reader: Reader, s: seq<Byte>, p: Progress, kind: seq<Byte>, result: Option<Name>, next: Progress)
    requires p.start <= |s| && p.kind == [] && Lies(s, p.start, Encode(kind, false)) && result == Rest(reader, s, p)
    requires next == Progress(p.start + |Encode(kind, false)| + 1, kind, p.attributes, p.names)
    requires ReadsBack(reader) && next.start <= |s| && s[next.start - 1] == EQUALS
    ensures result == Rest(reader, s, next)
  {
    KindStands(s, p, kind, next.start - 1);
    AtEquals(reader, s, p, next.start - 1, result, Some(kind));
  }

  lemma {:induction false} ValueStands(s: seq<Byte>, p: Progress, value: seq<Byte>, q: nat)
    requires p.start <= |s| && p.kind != [] && Lies(s, p.start, Encode(value, true)) && q == p.start + |Encode(value, true)| && EndsAt(s, q)
    ensures StopsAt(s, p, q) && s[p.start..q] == Encode(value, true)
  {
    TextIsQuiet(s, p.start, value, 0, true, true, q);
  }

  lemma {:induction false} ValueIsRead(
    reader: Reader, s: seq<Byte>, p: Progress, value: seq<Byte>, q: nat, result: Option<Name>)
    requires p.start <= q <= |s| && p.kind != [] && EndsAt(s, q) && StopsAt(s, p, q) && s[p.start..q] == Encode(value, true)
    requires ReadsBack(reader) && result == Rest(reader, s, p)
    ensures q == |s| ==> result == Some(p.names + [p.attributes + [Attribute(p.kind, value)]])
    ensures q < |s| ==> result == Rest(reader, s, Advanced(p, value, q + 1, s[q] != PLUS))
  {
    if q == |s| {
      assert s[p.start..] == s[p.start..q];
      AtEnd(reader, s, p, result, Some(value));
    } else {
      AtSeparator(reader, s, p, q, result, Some(value));
    }
  }

  /** What is left to read after the attribute a that p starts with. */
  ghost predicate IsAfterAttribute(
    reader: Reader, s: seq<Byte>, p: Progress, a: Attribute, q: nat, result: Option<Name>)
    requires q <= |s|
  {
    && (q == |s| ==> result == Some(p.names + [p.attributes + [Folded(a)]]))
    && (q < |s| && s[q] == PLUS ==> result == Rest(reader, s, Progress(q + 1, [], p.attributes + [Folded(a)], p.names)))
    && (q < |s| && s[q] != PLUS ==> result == Rest(reader, s, Progress(q + 1, [], [], p.names + [p.attributes + [Folded(a)]])))
  }

  lemma {:induction false} AttributeIsRead(
    reader: Reader, s: seq<Byte>, p: Progress, a: Attribute, q: nat, result: Option<Name>)
    requires p.start <= |s| && p.kind == [] && a.kind != [] && Lies(s, p.start, PrintAttribute(a))
    requires q == p.start + |PrintAttribute(a)| && EndsAt(s, q) && ReadsBack(reader) && result == Rest(reader, s, p)
    ensures IsAfterAttribute(reader, s, p, a, q, result)
  {
    hide EncodeFrom, NextStop, Rest;
    AttributeSplits(s, p.start, a);
    var next := Progress(p.start + |Encode(Fold(a.kind), false)| + 1, Fold(a.kind), p.attributes, p.names);
    KindIsRead(reader, s, p, Fold(a.kind), result, next);
    ValueStands(s, next, a.value, q);
    ValueIsRead(reader, s, next, a.value, q, result);
    assert Folded(a) == Attribute(next.kind, a.value);
  }

  // One relative name

  /** The attributes, in the order of texts, that the texts are printed from. */
  ghost predicate AreSources(texts: seq<seq<Byte>>, attributes: seq<Attribute>) {
    |attributes| == |texts| && forall j :: 0 <= j < |texts| ==> IsSource(texts[j], attributes[j])
  }

  ghost predicate IsSource(text: seq<Byte>, a: Attribute) {
    text == PrintAttribute(a) && a.kind != []
  }

  function FoldedFrom(attributes: seq<Attribute>, j: nat): seq<Attribute>
    requires j <= |attributes|
    decreases |attributes| - j
  {
    if j == |attributes| then [] else [Folded(attributes[j])] + FoldedFrom(attributes, j + 1)
  }

  /** Reading stops at q after a relative name. */
  predicate EndsNameAt(s: seq<Byte>, q: nat) {
    q == |s| || (q < |s| && s[q] == COMMA)
  }

  /** What is left to read after a relative name. */
  ghost predicate IsAfterRelative(
    reader: Reader, s: seq<Byte>, p: Progress, read: RelativeName, q: nat, result: Option<Name>)
    requires q <= |s|
  {
    && (q == |s| ==> result == Some(p.names + [read]))
    && (q < |s| ==> result == Rest(reader, s, Progress(q + 1, [], [], p.names + [read])))
  }

  lemma {:induction false} JoinSplits(s: seq<Byte>, p: nat, parts: seq<seq<Byte>>, j: nat, sep: Byte)
    requires j + 1 < |parts| && Lies(s, p, JoinFrom(parts, j, sep))
    ensures Lies(s, p, parts[j]) && p + |parts[j]| < |s| && s[p + |parts[j]|] == sep
    ensures Lies(s, p + |parts[j]| + 1, JoinFrom(parts, j + 1, sep))
    ensures |JoinFrom(parts, j, sep)| == |parts[j]| + 1 + |JoinFrom(parts, j + 1, sep)|
  {
    var rest := JoinFrom(parts, j + 1, sep);
    assert JoinFrom(parts, j, sep) == parts[j] + ([sep] + rest);
    LiesConcat(s, p, parts[j], [sep] + rest);
    HeadLies(s, p + |parts[j]|, sep, rest);
  }

  lemma {:induction false} SourceIsRead(
    reader: Reader, s: seq<Byte>, p: Progress, texts: seq<seq<Byte>>, attributes: seq<Attribute>, j: nat, q: nat,
    result: Option<Name>)
    requires p.start <= |s| && p.kind == [] && AreSources(texts, attributes) && j < |texts| && Lies(s, p.start, texts[j])
    requires q == p.start + |texts[j]| && EndsAt(s, q) && ReadsBack(reader) && result == Rest(reader, s, p)
    ensures IsAfterAttribute(reader, s, p, attributes[j], q, result)
  {
    assert IsSource(texts[j], attributes[j]);
    AttributeIsRead(reader, s, p, attributes[j], q, result);
  }

  lemma {:induction false} FirstIsRead(
    reader: Reader, s: seq<Byte>, p: Progress, texts: seq<seq<Byte>>, attributes: seq<Attribute>, j: nat, next: Progress,
    result: Option<Name>)
    requires p.start <= |s| && p.kind == [] && AreSources(texts, attributes) && j + 1 < |texts|
    requires Lies(s, p.start, JoinFrom(texts, j, PLUS)) && ReadsBack(reader) && result == Rest(reader, s, p)
    requires next == Progress(p.start + |texts[j]| + 1, [], p.attributes + [Folded(attributes[j])], p.names)
    ensures next.start <= |s| && result == Rest(reader, s, next) && Lies(s, next.start, JoinFrom(texts, j + 1, PLUS))
    ensures p.start + |JoinFrom(texts, j, PLUS)| == next.start + |JoinFrom(texts, j + 1, PLUS)|
  {
    hide JoinFrom, ParseAt, EncodeFrom, AreSources, Lies, ReadsBack, Fold;
    JoinSplits(s, p.start, texts, j, PLUS);
    SourceIsRead(reader, s, p, texts, attributes, j, next.start - 1, result);
  }

  lemma {:induction false} RelativeIsRead(
    reader: Reader, s: seq<Byte>, p: Progress, texts: seq<seq<Byte>>, attributes: seq<Attribute>, j: nat, q: nat,
    all: RelativeName, result: Option<Name>)
    requires p.start <= |s| && p.kind == [] && AreSources(texts, attributes) && j < |texts|
    requires Lies(s, p.start, JoinFrom(texts, j, PLUS)) && q == p.start + |JoinFrom(texts, j, PLUS)| && EndsNameAt(s, q)
    requires ReadsBack(reader) && result == Rest(reader, s, p) && all == p.attributes + FoldedFrom(attributes, j)
    ensures IsAfterRelative(reader, s, p, all, q, result)
    decreases |texts| - j
  {
    var a := attributes[j];
    if j + 1 == |texts| {
      SourceIsRead(reader, s, p, texts, attributes, j, q, result);
      assert all == p.attributes + [Folded(a)];
    } else {
      var next := Progress(p.start + |texts[j]| + 1, [], p.attributes + [Folded(a)], p.names);
      FirstIsRead(reader, s, p, texts, attributes, j, next, result);
      Reassociate(p.attributes, Folded(a), FoldedFrom(attributes, j + 1));
      RelativeIsRead(reader, s, next, texts, attributes, j + 1, q, all, result);
    }
  }

  lemma {:induction false} Reassociate(a: RelativeName, b: Attribute, c: RelativeName)
    ensures a + ([b] + c) == a + [b] + c
  {
  }

  /** Attributes have a type; ASCII, as folding is modelled for ASCII. */
  ghost predicate IsWellFormed(r: RelativeName) {
    r != [] && forall i :: 0 <= i < |r| ==> r[i].kind != [] && IsAscii(r[i].kind)
  }

  /** The sorted texts come from the attributes, each as often. */
  lemma {:induction false} SourcesOf(r: RelativeName) returns (attributes: seq<Attribute>)
    requires IsWellFormed(r)
    ensures AreSources(SortedTexts(r), attributes) && forall j :: 0 <= j < |attributes| ==> attributes[j] in r
  {
    var texts := SortedTexts(r);
    attributes := [];
    for j := 0 to |texts|
      invariant |attributes| == j
      invariant forall k :: 0 <= k < j ==> IsSource(texts[k], attributes[k]) && attributes[k] in r
    {
      var a := SourceOf(r, texts[j]);
      attributes := attributes + [a];
    }
  }

  lemma {:induction false} SourceOf(r: RelativeName, text: seq<Byte>) returns (a: Attribute)
    requires IsWellFormed(r) && text in SortedTexts(r)
    ensures a in r && IsSource(text, a)
  {
    assert text in multiset(SortedTexts(r));
    assert text in Texts(r);
    var i :| 0 <= i < |r| && Texts(r)[i] == text;
    a := r[i];
  }

  lemma {:induction false} FoldTwice(s: seq<Byte>)
    ensures Fold(Fold(s)) == Fold(s)
  {
  }

  lemma {:induction false} FoldedAt(attributes: seq<Attribute>, j: nat, k: nat)
    requires j <= k < |attributes|
    ensures |FoldedFrom(attributes, j)| == |attributes| - j && FoldedFrom(attributes, j)[k - j] == Folded(attributes[k])
    decreases |attributes| - j
  {
    if j + 1 < |attributes| { FoldedAt(attributes, j + 1, if k > j then k else j + 1); }
  }

  lemma {:induction false} KindEnds(s: seq<Byte>, a: Attribute)
    requires s == PrintAttribute(a)
    ensures var k := Encode(Fold(a.kind), false);
            && NextStop(s, 0, false, false) == |k| < |s| && s[..|k|] == k && s[|k| + 1..] == Encode(a.value, true)
  {
    var k := Encode(Fold(a.kind), false);
    AttributeSplits(s, 0, a);
    TextIsQuiet(s, 0, Fold(a.kind), 0, false, false, |k|);
  }

  lemma {:induction false} EncodeIsInjective(v: seq<Byte>, w: seq<Byte>, isValue: bool)
    requires Encode(v, isValue) == Encode(w, isValue)
    ensures v == w
  {
    DecodeEncode(v, isValue);
    DecodeEncode(w, isValue);
  }

  /** A text has one meaning: the type up to case, and the value. */
  lemma {:induction false} TextDetermines(a: Attribute, b: Attribute)
    requires PrintAttribute(a) == PrintAttribute(b)
    ensures EqualAttributes(a, b)
  {
    KindEnds(PrintAttribute(a), a);
    KindEnds(PrintAttribute(a), b);
    EncodeIsInjective(Fold(a.kind), Fold(b.kind), false);
    EncodeIsInjective(a.value, b.value, true);
  }

  /** What is read of a relative name equals it. */
  lemma {:induction false} ReadIsEqual(r: RelativeName, attributes: seq<Attribute>)
    requires IsWellFormed(r) && AreSources(SortedTexts(r), attributes) && forall j :: 0 <= j < |attributes| ==> attributes[j] in r
    ensures EqualRelatives(r, FoldedFrom(attributes, 0))
  {
    var read, texts := FoldedFrom(attributes, 0), SortedTexts(r);
    FoldedAt(attributes, 0, 0);
    forall j | 0 <= j < |read|
      ensures Has(r, read[j])
    {
      FoldedAt(attributes, 0, j);
      var i :| 0 <= i < |r| && r[i] == attributes[j];
      FoldTwice(attributes[j].kind);
      assert EqualAttributes(r[i], read[j]);
    }
    forall i | 0 <= i < |r|
      ensures Has(read, r[i])
    {
      assert Texts(r)[i] in multiset(Texts(r));
      assert Texts(r)[i] in texts;
      var j :| 0 <= j < |texts| && texts[j] == Texts(r)[i];
      assert IsSource(texts[j], attributes[j]);
      TextDetermines(attributes[j], r[i]);
      FoldedAt(attributes, 0, j);
      FoldTwice(attributes[j].kind);
      assert EqualAttributes(read[j], r[i]);
    }
  }

  // Whole names

  function Relatives(d: Name): (parts: seq<seq<Byte>>)
    ensures |parts| == |d|
  {
    seq(|d|, i requires 0 <= i < |d| => PrintRelative(d[i]))
  }

  ghost predicate AllWellFormed(d: Name) {
    forall i :: 0 <= i < |d| ==> IsWellFormed(d[i])
  }

  ghost predicate AreSourcesOf(r: RelativeName, attributes: seq<Attribute>) {
    AreSources(SortedTexts(r), attributes) && forall j :: 0 <= j < |attributes| ==> attributes[j] in r
  }

  lemma {:induction false} SourcesExist(r: RelativeName)
    requires IsWellFormed(r)
    ensures exists attributes :: AreSourcesOf(r, attributes)
  {
    var attributes := SourcesOf(r);
    assert AreSourcesOf(r, attributes);
  }

  ghost function SourceList(r: RelativeName): (attributes: seq<Attribute>)
    requires IsWellFormed(r)
    ensures AreSourcesOf(r, attributes)
  {
    SourcesExist(r);
    var attributes :| AreSourcesOf(r, attributes);
    attributes
  }

  /** What is read of a relative name. */
  ghost function ReadOf(r: RelativeName): RelativeName
    requires IsWellFormed(r)
  {
    FoldedFrom(SourceList(r), 0)
  }

  /** The k-th relative name, how it is printed, and what is read of it. */
  ghost predicate PartIs(d: Name, parts: seq<seq<Byte>>, read: Name, k: nat)
    requires k < |d| == |parts| == |read|
  {
    IsWellFormed(d[k]) && parts[k] == PrintRelative(d[k]) && read[k] == ReadOf(d[k])
  }

  lemma {:induction false} OneIsRead(
    reader: Reader, s: seq<Byte>, p: Progress, r: RelativeName, text: seq<Byte>, one: RelativeName, q: nat,
    result: Option<Name>)
    requires p.start <= |s| && p.kind == [] && p.attributes == [] && IsWellFormed(r) && text == PrintRelative(r) && one == ReadOf(r)
    requires Lies(s, p.start, text) && q == p.start + |text| && EndsNameAt(s, q) && ReadsBack(reader) && result == Rest(reader, s, p)
    ensures IsAfterRelative(reader, s, p, one, q, result)
  {
    assert p.attributes + one == one;
    RelativeIsRead(reader, s, p, SortedTexts(r), SourceList(r), 0, q, one, result);
  }

  ghost predicate PartsAre(d: Name, parts: seq<seq<Byte>>, read: Name) {
    |d| == |parts| == |read| && forall k: nat :: k < |d| ==> PartIs(d, parts, read, k)
  }

  lemma {:induction false} PartIsRead(
    reader: Reader, s: seq<Byte>, p: Progress, d: Name, parts: seq<seq<Byte>>, read: Name, i: nat, q: nat,
    result: Option<Name>)
    requires p.start <= |s| && p.kind == [] && p.attributes == [] && PartsAre(d, parts, read) && i < |d|
    requires Lies(s, p.start, parts[i]) && q == p.start + |parts[i]| && EndsNameAt(s, q) && ReadsBack(reader) && result == Rest(reader, s, p)
    ensures IsAfterRelative(reader, s, p, read[i], q, result)
  {
    assert PartIs(d, parts, read, i);
    OneIsRead(reader, s, p, d[i], parts[i], read[i], q, result);
  }

  lemma {:induction false} NameIsRead(
    reader: Reader, s: seq<Byte>, p: Progress, d: Name, parts: seq<seq<Byte>>, read: Name, i: nat,
    result: Option<Name>)
    requires p.start <= |s| && p.kind == [] && p.attributes == [] && PartsAre(d, parts, read) && i < |d|
    requires Lies(s, p.start, JoinFrom(parts, i, COMMA)) && p.start + |JoinFrom(parts, i, COMMA)| == |s|
    requires ReadsBack(reader) && result == Rest(reader, s, p)
    ensures result == Some(p.names + read[i..])
    decreases |d| - i
  {
    hide ParseAt, EncodeFrom, Lies, ReadsBack, PartIs;
    if i + 1 == |d| {
      PartIsRead(reader, s, p, d, parts, read, i, |s|, result);
      assert read[i..] == [read[i]];
    } else {
      JoinSplits(s, p.start, parts, i, COMMA);
      var q := p.start + |parts[i]|;
      PartIsRead(reader, s, p, d, parts, read, i, q, result);
      var next := Progress(q + 1, [], [], p.names + [read[i]]);
      NameIsRead(reader, s, next, d, parts, read, i + 1, result);
      assert next.names + read[i + 1..] == p.names + read[i..];
    }
  }

  lemma {:induction false} StartsVisibly(d: Name)
    requires AllWellFormed(d) && d != []
    ensures var s := Print(d); s != [] && 0x20 < s[0] < 0x7F
  {
    var r, s := d[0], Print(d);
    assert IsWellFormed(r);
    var a := SourceOf(r, SortedTexts(r)[0]);
    var k := Fold(a.kind);
    var text := PrintAttribute(a);
    assert text[0] == Encode(k, false)[0] == Unit(k, 0, false)[0];
    assert PrintRelative(r)[0] == text[0];
    assert s[0] == Relatives(d)[0][0];
  }

  ghost function ReadAll(d: Name): (read: Name)
    requires AllWellFormed(d)
    ensures |read| == |d|
  {
    seq(|d|, k requires 0 <= k < |d| => ReadOf(d[k]))
  }

  lemma {:induction false} PrintedIsRead(ber: seq<Byte> -> Option<seq<Byte>>, d: Name)
    requires AllWellFormed(d) && d != []
    ensures Parse(ber, Print(d)) == Some(ReadAll(d))
  {
    var s, read := Print(d), ReadAll(d);
    StartsVisibly(d);
    assert DecodeRune(s, 0).code == s[0];
    assert PartsAre(d, Relatives(d), read) by { forall k: nat | k < |d| ensures PartIs(d, Relatives(d), read, k) { } }
    DecodingReadsBack(ber);
    NameIsRead(ReaderOf(ber), s, Progress(0, [], [], []), d, Relatives(d), read, 0, Parse(ber, s));
    assert [] + read[0..] == read;
  }

  lemma {:induction false} ReadAllIsEqual(d: Name)
    requires AllWellFormed(d)
    ensures EqualNames(d, ReadAll(d))
  {
    forall k | 0 <= k < |d| ensures EqualRelatives(d[k], ReadAll(d)[k]) { ReadIsEqual(d[k], SourceList(d[k])); }
  }

  /** Parsing a printed name succeeds and gives an equal name. */
  lemma {:induction false} ParsePrint(ber: seq<Byte> -> Option<seq<Byte>>, d: Name) returns (e: Name)
    requires AllWellFormed(d)
    ensures Parse(ber, Print(d)) == Some(e) && EqualNames(d, e)
  {
    if d == [] {
      e := [];
    } else {
      PrintedIsRead(ber, d);
      ReadAllIsEqual(d);
      e := ReadAll(d);
    }
  }

  // Equal texts, equal names

  lemma {:induction false} RelativesCompare(r: RelativeName, o: RelativeName, e: RelativeName)
    requires EqualRelatives(r, e) && EqualRelatives(o, e)
    ensures EqualRelatives(r, o)
  {
    AllThrough(r, e, o);
    AllThrough(o, e, r);
  }

  lemma {:induction false} AllThrough(r: RelativeName, e: RelativeName, o: RelativeName)
    requires HasAll(r, e) && HasAll(e, o)
    ensures HasAll(r, o)
  {
    forall i | 0 <= i < |o|
      ensures Has(r, o[i])
    {
      assert Has(e, o[i]);
      var j :| 0 <= j < |e| && EqualAttributes(e[j], o[i]);
      assert Has(r, e[j]);
      var k :| 0 <= k < |r| && EqualAttributes(r[k], e[j]);
      assert EqualAttributes(r[k], o[i]);
    }
  }

  /** Names with the same text are equal. */
  lemma {:induction false} SameTextIsEqual(d: Name, e: Name)
    requires AllWellFormed(d) && AllWellFormed(e) && Print(d) == Print(e)
    ensures EqualNames(d, e)
  {
    var ber: seq<Byte> -> Option<seq<Byte>> := _ => None;
    var p := ParsePrint(ber, d);
    var q := ParsePrint(ber, e);
    assert p == q;
    forall i | 0 <= i < |d|
      ensures EqualRelatives(d[i], e[i])
    {
      RelativesCompare(d[i], e[i], p[i]);
    }
  }

  // Exactly which names have the same text

  function FoldedAll(r: RelativeName): (folded: seq<Attribute>)
    ensures |folded| == |r|
  {
    seq(|r|, i requires 0 <= i < |r| => Folded(r[i]))
  }

  /** The same attributes, each as often, up to the case of types. */
  ghost predicate SameCounts(r: RelativeName, o: RelativeName) {
    multiset(FoldedAll(r)) == multiset(FoldedAll(o))
  }

  ghost predicate IsFolded(a: Attribute) {
    Folded(a) == a
  }

  lemma {:induction false} FoldedIsFolded(a: Attribute)
    ensures IsFolded(Folded(a))
  {
    FoldTwice(a.kind);
  }

  /** Folded attributes with the same text are the same. */
  lemma {:induction false} FoldedText(a: Attribute, b: Attribute)
    requires IsFolded(a) && IsFolded(b) && PrintAttribute(a) == PrintAttribute(b)
    ensures a == b
  {
    TextDetermines(a, b);
  }

  ghost predicate AllFolded(list: seq<Attribute>) {
    forall i :: 0 <= i < |list| ==> IsFolded(list[i])
  }

  /** A text is there as often as its attribute. */
  lemma {:induction false} TextCount(list: seq<Attribute>, a: Attribute)
    requires AllFolded(list) && IsFolded(a)
    ensures multiset(Texts(list))[PrintAttribute(a)] == multiset(list)[a]
  {
    hide PrintAttribute;
    if list != [] {
      var front, last := list[..|list| - 1], list[|list| - 1];
      TextCount(front, a);
      assert list == front + [last] && Texts(list) == Texts(front) + [PrintAttribute(last)];
      if PrintAttribute(last) == PrintAttribute(a) { FoldedText(last, a); }
    }
  }

  lemma {:induction false} SameTextCounts(f: seq<Attribute>, g: seq<Attribute>)
    requires AllFolded(f) && AllFolded(g)
    ensures multiset(Texts(f)) == multiset(Texts(g)) <==> multiset(f) == multiset(g)
  {
    hide PrintAttribute;
    if multiset(Texts(f)) == multiset(Texts(g)) {
      forall a ensures multiset(f)[a] == multiset(g)[a] {
        if IsFolded(a) {
          TextCount(f, a);
          TextCount(g, a);
        } else {
          NotFolded(f, a);
          NotFolded(g, a);
        }
      }
    }
    if multiset(f) == multiset(g) {
      forall t ensures multiset(Texts(f))[t] == multiset(Texts(g))[t] {
        TextOrNone(f, g, t);
        TextOrNone(g, f, t);
      }
    }
  }

  lemma {:induction false} NotFolded(list: seq<Attribute>, a: Attribute)
    requires AllFolded(list) && !IsFolded(a)
    ensures multiset(list)[a] == 0
  {
    assert a !in list;
  }

  lemma {:induction false} TextOrNone(f: seq<Attribute>, g: seq<Attribute>, t: seq<Byte>)
    requires AllFolded(f) && AllFolded(g) && multiset(f) == multiset(g)
    ensures t in Texts(f) ==> multiset(Texts(f))[t] == multiset(Texts(g))[t]
  {
    hide PrintAttribute;
    if t in Texts(f) {
      var i :| 0 <= i < |f| && Texts(f)[i] == t;
      assert t == PrintAttribute(f[i]);
      TextCount(f, f[i]);
      TextCount(g, f[i]);
    }
  }

  lemma {:induction false} TextsOfFolded(r: RelativeName)
    ensures Texts(FoldedAll(r)) == Texts(r) && AllFolded(FoldedAll(r))
  {
    hide PrintAttribute;
    forall i | 0 <= i < |r| ensures PrintAttribute(FoldedAll(r)[i]) == PrintAttribute(r[i]) && IsFolded(FoldedAll(r)[i]) {
      FoldedPrints(r[i]);
      FoldedIsFolded(r[i]);
    }
  }

  /** Relative names print the same attributes exactly when they have the same attributes. */
  lemma {:induction false} SameCountsIff(r: RelativeName, o: RelativeName)
    ensures multiset(Texts(r)) == multiset(Texts(o)) <==> SameCounts(r, o)
  {
    TextsOfFolded(r);
    TextsOfFolded(o);
    SameTextCounts(FoldedAll(r), FoldedAll(o));
  }

  lemma {:induction false} BytesAreOrdered()
    ensures Sorting.IsOrder(ByteLess)
  {
  }

  lemma {:induction false} CountsDetermineText(r: RelativeName, o: RelativeName)
    requires SameCounts(r, o)
    ensures SortedTexts(r) == SortedTexts(o)
  {
    SameCountsIff(r, o);
    BytesAreOrdered();
    Sorting.SortSorts(ByteLess, Texts(r));
    Sorting.SortSorts(ByteLess, Texts(o));
    Sorting.SortedIsUnique(ByteLess, SortedTexts(r), SortedTexts(o));
  }

  /** What is read prints as what was read. */
  lemma {:induction false} ReadPrintsAgain(r: RelativeName)
    requires IsWellFormed(r)
    ensures Texts(ReadOf(r)) == SortedTexts(r)
  {
    PrintsAgain(SourceList(r), ReadOf(r), SortedTexts(r));
  }

  lemma {:induction false} PrintsAgain(attributes: seq<Attribute>, read: seq<Attribute>, texts: seq<seq<Byte>>)
    requires AreSources(texts, attributes) && texts != [] && read == FoldedFrom(attributes, 0)
    ensures Texts(read) == texts
  {
    FoldedAt(attributes, 0, 0);
    forall j: nat | j < |texts| ensures PrintAttribute(read[j]) == texts[j] { PrintsAgainAt(attributes, read, texts, j); }
    SameTexts(read, texts);
  }

  lemma {:induction false} SameTexts(read: seq<Attribute>, texts: seq<seq<Byte>>)
    requires |read| == |texts| && forall j: nat :: j < |texts| ==> PrintAttribute(read[j]) == texts[j]
    ensures Texts(read) == texts
  {
  }

  lemma {:induction false} PrintsAgainAt(attributes: seq<Attribute>, read: seq<Attribute>, texts: seq<seq<Byte>>, j: nat)
    requires AreSources(texts, attributes) && j < |texts| && read == FoldedFrom(attributes, 0)
    ensures j < |read| && PrintAttribute(read[j]) == texts[j]
  {
    FoldedAt(attributes, 0, j);
    assert IsSource(texts[j], attributes[j]);
    FoldedPrints(attributes[j]);
  }

  lemma {:induction false} FoldedPrints(a: Attribute)
    ensures PrintAttribute(Folded(a)) == PrintAttribute(a)
  {
    FoldTwice(a.kind);
  }

  /** Two names have the same text exactly when their relative names have, one by one, the
      same attributes the same number of times. */
  lemma {:induction false} SameTextIff(d: Name, e: Name)
    requires AllWellFormed(d) && AllWellFormed(e)
    ensures Print(d) == Print(e) <==> |d| == |e| && forall i :: 0 <= i < |d| ==> SameCounts(d[i], e[i])
  {
    if Print(d) == Print(e) {
      SameTextIsEqual(d, e);
      if d != [] {
        var ber: seq<Byte> -> Option<seq<Byte>> := _ => None;
        PrintedIsRead(ber, d);
        PrintedIsRead(ber, e);
        assert ReadAll(d) == ReadAll(e);
        forall i | 0 <= i < |d|
          ensures SameCounts(d[i], e[i])
        {
          assert ReadAll(d)[i] == ReadAll(e)[i];
          ReadPrintsAgain(d[i]);
          ReadPrintsAgain(e[i]);
          SameCountsIff(d[i], e[i]);
        }
      }
    }
    if |d| == |e| && forall i :: 0 <= i < |d| ==> SameCounts(d[i], e[i]) {
      forall i | 0 <= i < |d| ensures PrintRelative(d[i]) == PrintRelative(e[i]) { CountsDetermineText(d[i], e[i]); }
      assert Relatives(d) == Relatives(e);
    }
  }

  lemma {:induction false} RepeatsAreEqual(a: Attribute, b: Attribute)
    ensures EqualRelatives([a, a, b], [a, b, b])
  {
    var r, o: RelativeName := [a, a, b], [a, b, b];
    assert EqualAttributes(r[0], a) && EqualAttributes(r[2], b) && EqualAttributes(o[0], a) && EqualAttributes(o[1], b);
    forall i | 0 <= i < 3 ensures Has(r, o[i]) { }
    forall i | 0 <= i < 3 ensures Has(o, r[i]) { }
  }

  lemma {:induction false} RepeatsCount<T>(s: T, t: T)
    requires s != t
    ensures multiset([s, s, t]) != multiset([s, t, t])
  {
    assert multiset([s, s, t])[s] == 2 && multiset([s, t, t])[s] == 1;
  }

  lemma {:induction false} RepeatsDiffer(a: Attribute, b: Attribute)
    requires !EqualAttributes(a, b)
    ensures !SameCounts([a, a, b], [a, b, b])
  {
    var f, g := Folded(a), Folded(b);
    assert FoldedAll([a, a, b]) == [f, f, g] && FoldedAll([a, b, b]) == [f, g, g];
    RepeatsCount(f, g);
  }

  lemma {:induction false} ApartTexts(r: RelativeName, o: RelativeName)
    requires IsWellFormed(r) && IsWellFormed(o) && !SameCounts(r, o)
    ensures Print([r]) != Print([o])
  {
    SameTextIff([r], [o]);
    assert !SameCounts([r][0], [o][0]);
  }

  lemma {:induction false} OneRelativeIsEqual(r: RelativeName, o: RelativeName)
    requires EqualRelatives(r, o)
    ensures EqualNames([r], [o])
  {
  }

  /** Equal names need not have the same text: it tells how often an attribute is repeated. */
  lemma {:induction false} EqualWithoutSameText(a: Attribute, b: Attribute, r: RelativeName, o: RelativeName)
    requires r == [a, a, b] && o == [a, b, b] && IsWellFormed(r) && IsWellFormed(o) && !EqualAttributes(a, b)
    ensures EqualNames([r], [o]) && Print([r]) != Print([o])
  {
    RepeatsAreEqual(a, b);
    OneRelativeIsEqual(r, o);
    RepeatsDiffer(a, b);
    ApartTexts(r, o);
  }

  // Without repetition

  /** No attribute stands twice. */
  ghost predicate RepeatsNone(r: RelativeName) {
    forall i, j :: 0 <= i < j < |r| ==> !EqualAttributes(r[i], r[j])
  }

  lemma {:induction false} SmallerIsSame<T>(a: multiset<T>, b: multiset<T>)
    requires a <= b && |a| == |b|
    ensures a == b
  {
    assert b == a + (b - a);
    assert |b - a| == 0;
  }

  lemma {:induction false} OnlyThose<T>(r: seq<T>, o: seq<T>)
    requires Distinct(r) && |r| == |o| && forall x :: x in r ==> x in o
    ensures multiset(r) == multiset(o)
  {
    OnceEach(r);
    forall x ensures multiset(r)[x] <= multiset(o)[x] {
      if x in r { assert x in multiset(o); }
    }
    SmallerIsSame(multiset(r), multiset(o));
  }

  lemma {:induction false} FoldedIsThere(r: RelativeName, o: RelativeName, i: nat)
    requires HasAll(o, r) && i < |r|
    ensures FoldedAll(r)[i] in FoldedAll(o)
  {
    hide Fold;
    assert Has(o, r[i]);
    var j :| 0 <= j < |o| && EqualAttributes(o[j], r[i]);
    assert FoldedAll(o)[j] == FoldedAll(r)[i];
  }

  lemma {:induction false} FoldedOnce(r: RelativeName)
    requires RepeatsNone(r)
    ensures Distinct(FoldedAll(r))
  {
    hide Fold;
    var f := FoldedAll(r);
    forall i, j | 0 <= i < j < |f| ensures f[i] != f[j] { assert !EqualAttributes(r[i], r[j]); }
  }

  lemma {:induction false} EqualHasSame(r: RelativeName, o: RelativeName)
    requires EqualRelatives(r, o) && RepeatsNone(r)
    ensures SameCounts(r, o)
  {
    hide Folded, HasAll, RepeatsNone;
    var f, g := FoldedAll(r), FoldedAll(o);
    FoldedOnce(r);
    forall x | x in f ensures x in g {
      var i: nat :| i < |f| && f[i] == x;
      FoldedIsThere(r, o, i);
    }
    OnlyThose(f, g);
  }

  /** Equal names in which no attribute is repeated have the same text. */
  lemma {:induction false} EqualPrintsSame(d: Name, e: Name)
    requires AllWellFormed(d) && AllWellFormed(e) && EqualNames(d, e) && forall i :: 0 <= i < |d| ==> RepeatsNone(d[i])
    ensures Print(d) == Print(e)
  {
    forall i | 0 <= i < |d| ensures SameCounts(d[i], e[i]) {
      assert RepeatsNone(d[i]);
      EqualHasSame(d[i], e[i]);
    }
    SameTextIff(d, e);
  }
}
