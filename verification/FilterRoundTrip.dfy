/** Compiling what was decompiled (CompileFilter, DecompileFilter; filter.go). */
module FilterRoundTrip {
  import opened Collections
  import opened Utf8
  import opened FilterEscape
  import opened Filters
  import opened FilterReading

  // Which filters have a text of their own

  predicate GoodPart(parts: seq<Part>, i: nat)
    requires i < |parts|
  {
    && parts[i].value != []
    && (parts[i].place == Initial ==> i == 0)
    && (parts[i].place == Final ==> i == |parts| - 1)
  }

  ghost predicate GoodParts(parts: seq<Part>) {
    forall i: nat :: i < |parts| ==> GoodPart(parts, i)
  }

  /** Names hold no filter syntax where it would be read as such; values are any bytes. */
  ghost predicate Tidy(f: Filter) {
    match f
    case And(children) => forall i :: 0 <= i < |children| ==> Tidy(children[i])
    case Or(children) => forall i :: 0 <= i < |children| ==> Tidy(children[i])
    case Not(child) => Tidy(child)
    case Compare(op, attr, _) => GoodAttr(attr) && (op == Equal ==> StopsBeforeEquals(attr))
    case Present(attr) => GoodAttr(attr) && StopsBeforeEquals(attr)
    case Substrings(attr, parts) => GoodAttr(attr) && StopsBeforeEquals(attr) && GoodParts(parts)
    case Extensible(attr, dn, rule, _) => GoodAttr(attr) && GoodRule(dn, rule)
  }

  /** What the text of f is read as. A substring match without substrings prints as an
      equality with the empty value; a rule named dn prints as the dn flag. */
  function Reread(f: Filter): Filter {
    match f
    case And(children) => And(seq(|children|, i requires 0 <= i < |children| => Reread(children[i])))
    case Or(children) => Or(seq(|children|, i requires 0 <= i < |children| => Reread(children[i])))
    case Not(child) => Not(Reread(child))
    case Substrings(attr, parts) => if parts == [] then Compare(Equal, attr, []) else f
    case Extensible(attr, dn, rule, value) => if !dn && rule == DN then Extensible(attr, true, [], value) else f
    case _ => f
  }

  /** Every substring match in f has a substring, and no rule without the dn flag is named dn. */
  ghost predicate Unambiguous(f: Filter) {
    match f
    case And(children) => forall i :: 0 <= i < |children| ==> Unambiguous(children[i])
    case Or(children) => forall i :: 0 <= i < |children| ==> Unambiguous(children[i])
    case Not(child) => Unambiguous(child)
    case Substrings(_, parts) => parts != []
    case Extensible(_, dn, rule, _) => dn || rule != DN
    case _ => true
  }

  lemma {:induction false} RereadIsSame(f: Filter)
    ensures Reread(f) == f <==> Unambiguous(f)
  {
    match f
    case And(children) =>
      forall i | 0 <= i < |children| ensures Reread(children[i]) == children[i] <==> Unambiguous(children[i]) { RereadIsSame(children[i]); }
      assert Reread(f) == f <==> forall i :: 0 <= i < |children| ==> Reread(f).children[i] == children[i];
    case Or(children) =>
      forall i | 0 <= i < |children| ensures Reread(children[i]) == children[i] <==> Unambiguous(children[i]) { RereadIsSame(children[i]); }
      assert Reread(f) == f <==> forall i :: 0 <= i < |children| ==> Reread(f).children[i] == children[i];
    case Not(child) => RereadIsSame(child);
    case _ =>
  }

  // Substrings

  lemma {:induction false} SplitPiece(b: seq<Byte>, from: nat, i: nat, e: seq<Byte>)
    requires from <= i <= from + |e| && At(b, from, e)
    requires forall k :: 0 <= k < |e| ==> e[k] != STAR
    requires from + |e| == |b| || b[from + |e|] == STAR
    ensures SplitFrom(b, from, i) == if from + |e| == |b| then [e] else [e] + SplitFrom(b, from + |e| + 1, from + |e| + 1)
    decreases from + |e| - i
  {
    if i == from + |e| {
      assert b[from..from + |e|] == e;
      assert from + |e| == |b| ==> b[from..] == e;
    } else {
      assert b[from + (i - from)] == e[i - from];
      SplitPiece(b, from, i + 1, e);
    }
  }

  /** The pieces between the stars, from the i-th part on. */
  function Pieces(parts: seq<Part>, i: nat): seq<seq<Byte>>
    requires i <= |parts|
    decreases |parts| - i
  {
    if i == |parts| then [[]]
    else [Escape(parts[i].value)] + if parts[i].place == Final then [] else Pieces(parts, i + 1)
  }

  lemma {:induction false} NoStar(value: seq<Byte>)
    ensures forall k :: 0 <= k < |Escape(value)| ==> Escape(value)[k] != STAR
  {
    EscapeIsClean(value, 0);
  }

  lemma {:induction false} LastPart(b: seq<Byte>, at: nat, parts: seq<Part>, i: nat, e: seq<Byte>)
    requires GoodParts(parts) && i < |parts| && parts[i].place == Final && e == Escape(parts[i].value)
    requires At(b, at, PrintPartsFrom(parts, i)) && at + |PrintPartsFrom(parts, i)| == |b|
    ensures SplitFrom(b, at, at) == [e]
  {
    hide SplitFrom, Escape;
    assert GoodPart(parts, i);
    assert PrintPartsFrom(parts, i) == e;
    NoStar(parts[i].value);
    SplitPiece(b, at, at, e);
  }

  lemma {:induction false} NextPart(b: seq<Byte>, at: nat, parts: seq<Part>, i: nat, e: seq<Byte>, rest: seq<Byte>)
    requires GoodParts(parts) && i < |parts| && parts[i].place != Final && e == Escape(parts[i].value) && rest == PrintPartsFrom(parts, i + 1)
    requires At(b, at, PrintPartsFrom(parts, i)) && at + |PrintPartsFrom(parts, i)| == |b|
    ensures at + |e| + 1 + |rest| == |b| && At(b, at + |e| + 1, rest)
    ensures SplitFrom(b, at, at) == [e] + SplitFrom(b, at + |e| + 1, at + |e| + 1)
  {
    hide SplitFrom, Escape;
    assert GoodPart(parts, i);
    assert PrintPartsFrom(parts, i) == e + ([STAR] + rest);
    NoStar(parts[i].value);
    AtConcat(b, at, e, [STAR] + rest);
    AtConcat(b, at + |e|, [STAR], rest);
    assert b[at + |e| + 0] == [STAR][0];
    SplitPiece(b, at, at, e);
  }

  lemma {:induction false} SplitParts(b: seq<Byte>, at: nat, parts: seq<Part>, i: nat)
    requires GoodParts(parts) && i <= |parts| && At(b, at, PrintPartsFrom(parts, i)) && at + |PrintPartsFrom(parts, i)| == |b|
    ensures SplitFrom(b, at, at) == Pieces(parts, i)
    decreases |parts| - i
  {
    hide Escape;
    if i == |parts| {
      assert b[at..] == [];
    } else {
      var e := Escape(parts[i].value);
      if parts[i].place == Final {
        LastPart(b, at, parts, i, e);
      } else {
        NextPart(b, at, parts, i, e, PrintPartsFrom(parts, i + 1));
        SplitParts(b, at + |e| + 1, parts, i + 1);
      }
    }
  }

  lemma {:induction false} SplitPrinted(parts: seq<Part>)
    requires GoodParts(parts) && parts != []
    ensures Split(PrintParts(parts)) == (if parts[0].place != Initial then [[]] else []) + Pieces(parts, 0)
  {
    var b := PrintParts(parts);
    if parts[0].place != Initial {
      AtConcat(b, 0, [STAR], PrintPartsFrom(parts, 0));
      SplitParts(b, 1, parts, 0);
      assert b[0..0] == [];
    } else {
      assert b == PrintPartsFrom(parts, 0);
      SplitParts(b, 0, parts, 0);
      assert [] + Pieces(parts, 0) == Pieces(parts, 0);
    }
  }

  /** The pieces after the first. */
  ghost predicate IsTail(pieces: seq<seq<Byte>>, rest: seq<seq<Byte>>) {
    |pieces| == |rest| + 1 && forall k :: 0 <= k < |rest| ==> pieces[k + 1] == rest[k]
  }

  lemma {:induction false} PiecesStep(parts: seq<Part>, i: nat, first: seq<Byte>)
    requires i < |parts| && first == Escape(parts[i].value)
    ensures Pieces(parts, i) != [] && Pieces(parts, i)[0] == first
    ensures parts[i].place == Final ==> |Pieces(parts, i)| == 1
    ensures parts[i].place != Final ==> IsTail(Pieces(parts, i), Pieces(parts, i + 1))
  {
    hide Escape;
  }

  lemma {:induction false} NoPieces(parts: seq<Part>)
    ensures Pieces(parts, |parts|) == [[]]
  {
  }

  lemma {:induction false} PieceCount(parts: seq<Part>, i: nat)
    requires GoodParts(parts) && i < |parts|
    ensures |Pieces(parts, i)| == |parts| - i + if parts[|parts| - 1].place == Final then 0 else 1
    decreases |parts| - i
  {
    hide Escape;
    assert GoodPart(parts, i);
    if i + 1 < |parts| { PieceCount(parts, i + 1); }
  }

  lemma {:induction false} PieceAt(parts: seq<Part>, i: nat, j: nat)
    requires GoodParts(parts) && i <= j < |parts|
    ensures j - i < |Pieces(parts, i)| && Pieces(parts, i)[j - i] == Escape(parts[j].value)
    decreases |parts| - i
  {
    hide Escape, Pieces;
    assert GoodPart(parts, i);
    PiecesStep(parts, i, Escape(parts[i].value));
    if j > i {
      PieceAt(parts, i + 1, j);
      assert Pieces(parts, i)[j - i - 1 + 1] == Pieces(parts, i + 1)[j - i - 1];
    }
  }

  lemma {:induction false} LastPiece(parts: seq<Part>, i: nat)
    requires GoodParts(parts) && i < |parts| && parts[|parts| - 1].place != Final
    ensures |Pieces(parts, i)| == |parts| - i + 1 && Pieces(parts, i)[|parts| - i] == []
    decreases |parts| - i
  {
    hide Escape, Pieces;
    assert GoodPart(parts, i);
    PiecesStep(parts, i, Escape(parts[i].value));
    if i + 1 == |parts| {
      NoPieces(parts);
    } else {
      LastPiece(parts, i + 1);
      assert Pieces(parts, i)[|parts| - i - 1 + 1] == Pieces(parts, i + 1)[|parts| - i - 1];
    }
  }

  /** pieces are the escaped parts, after an empty one unless the first part is initial,
      and before an empty one unless the last part is final. */
  ghost predicate ArePieces(parts: seq<Part>, pieces: seq<seq<Byte>>, lead: nat) {
    && parts != [] && lead == (if parts[0].place != Initial then 1 else 0)
    && |pieces| == lead + |parts| + (if parts[|parts| - 1].place == Final then 0 else 1)
    && (lead == 1 ==> pieces[0] == [])
    && (forall i: nat :: i < |parts| ==> IsPiece(parts, pieces, lead, i))
    && (parts[|parts| - 1].place != Final ==> pieces[lead + |parts|] == [])
  }

  ghost predicate IsPiece(parts: seq<Part>, pieces: seq<seq<Byte>>, lead: nat, i: nat)
    requires i < |parts| && lead + i < |pieces|
  {
    pieces[lead + i] == Escape(parts[i].value)
  }

  lemma {:induction false} PrintedArePieces(parts: seq<Part>)
    requires GoodParts(parts) && parts != []
    ensures ArePieces(parts, Split(PrintParts(parts)), if parts[0].place != Initial then 1 else 0)
  {
    hide Split, PrintParts, Escape;
    var pieces, lead := Split(PrintParts(parts)), if parts[0].place != Initial then 1 else 0;
    SplitPrinted(parts);
    PieceCount(parts, 0);
    if parts[|parts| - 1].place != Final { LastPiece(parts, 0); }
    forall i: nat | i < |parts|
      ensures IsPiece(parts, pieces, lead, i)
    {
      PieceAt(parts, 0, i);
    }
  }

  lemma {:induction false} OnePartBack(pieces: seq<seq<Byte>>, at: nat, before: seq<Part>, value: seq<Byte>)
    requires at < |pieces| && pieces[at] == Escape(value) && value != [] && PartsOf(pieces, at) == Some(before)
    ensures PartsOf(pieces, at + 1) == Some(before + [Part(PlaceOf(at, |pieces|), value)])
  {
    EscapeIsClean(value, 0);
    UnescapeEscape(value);
  }

  /** The pieces give the parts back, place by place. */
  lemma {:induction false} PartsBack(parts: seq<Part>, pieces: seq<seq<Byte>>, lead: nat, k: nat)
    requires GoodParts(parts) && ArePieces(parts, pieces, lead) && k <= |parts|
    ensures PartsOf(pieces, lead + k) == Some(parts[..k])
  {
    hide UnescapeFrom;
    if k == 0 {
      assert PartsOf(pieces, 0) == Some([]);
    } else {
      PartsBack(parts, pieces, lead, k - 1);
      assert GoodPart(parts, k - 1) && IsPiece(parts, pieces, lead, k - 1);
      OnePartBack(pieces, lead + k - 1, parts[..k - 1], parts[k - 1].value);
      assert parts[..k] == parts[..k - 1] + [parts[k - 1]];
    }
  }

  lemma {:induction false} SubstringsBack(parts: seq<Part>)
    requires GoodParts(parts) && parts != []
    ensures var pieces := Split(PrintParts(parts)); PartsOf(pieces, |pieces|) == Some(parts)
  {
    hide SplitFrom, PrintPartsFrom, UnescapeFrom, GoodParts, Unescape;
    var n, lead := |parts|, if parts[0].place != Initial then 1 else 0;
    PrintedArePieces(parts);
    PartsBack(parts, Split(PrintParts(parts)), lead, n);
    assert parts[..n] == parts;
  }

  lemma {:induction false} PartsAreCondition(parts: seq<Part>, i: nat)
    requires i <= |parts|
    ensures IsCondition(PrintPartsFrom(parts, i))
    decreases |parts| - i
  {
    if i < |parts| {
      EscapeIsClean(parts[i].value, 0);
      PartsAreCondition(parts, i + 1);
    }
  }

  /** Printed substrings are not taken for a presence test nor for an equality. */
  lemma {:induction false} PartsHaveStars(parts: seq<Part>)
    requires GoodParts(parts) && parts != []
    ensures var text := PrintParts(parts); IsCondition(text) && STAR in text && text != [STAR]
  {
    PartsAreCondition(parts, 0);
    assert GoodPart(parts, 0);
    var e := Escape(parts[0].value);
    EscapeIsClean(parts[0].value, 0);
    var text := PrintParts(parts);
    if parts[0].place == Initial {
      assert text[0] == e[0] != STAR && text[|e|] == STAR;
    } else {
      assert text[0] == STAR && text[1] == e[0];
    }
  }

  // Assertions

  predicate IsAssertion(f: Filter) {
    f.Compare? || f.Present? || f.Substrings? || f.Extensible?
  }

  /** The text after the attribute. */
  function Tail(f: Filter): seq<Byte>
    requires IsAssertion(f)
  {
    match f
    case Compare(op, _, value) => Symbol(op) + Escape(value)
    case Present(_) => [EQUALS, STAR]
    case Substrings(_, parts) => [EQUALS] + PrintParts(parts)
    case Extensible(_, dn, rule, value) => PrintRule(dn, rule) + [COLON, EQUALS] + Escape(value)
  }

  lemma {:induction false} BodySplits(f: Filter)
    requires IsAssertion(f)
    ensures Body(f) == f.attr + Tail(f)
  {
    if f.Extensible? {
      assert Body(f) == f.attr + (PrintRule(f.dn, f.rule) + [COLON, EQUALS] + Escape(f.value));
    }
  }

  lemma {:induction false} AssertionSplits(s: seq<Byte>, p: nat, f: Filter)
    requires IsAssertion(f) && At(s, p, Body(f) + [CLOSE])
    ensures At(s, p, f.attr) && At(s, p + |f.attr|, Tail(f) + [CLOSE]) && |Body(f)| == |f.attr| + |Tail(f)|
  {
    BodySplits(f);
    TailSplits(s, p, Body(f), f.attr, Tail(f));
  }

  /** An operator and a value, as the tail of an assertion. */
  lemma {:induction false} TailSplits(s: seq<Byte>, q: nat, tail: seq<Byte>, head: seq<Byte>, text: seq<Byte>)
    requires At(s, q, tail + [CLOSE]) && tail == head + text
    ensures At(s, q, head) && At(s, q + |head|, text + [CLOSE])
  {
    assert tail + [CLOSE] == head + (text + [CLOSE]);
    AtConcat(s, q, head, text + [CLOSE]);
  }

  lemma {:induction false} EscapeIsCondition(value: seq<Byte>)
    ensures IsCondition(Escape(value)) && STAR !in Escape(value)
  {
    EscapeIsClean(value, 0);
  }

  lemma {:induction false} MakesComparison(op: Comparison, attr: seq<Byte>, value: seq<Byte>, close: nat)
    ensures Make(Assertion(Comparing(op), attr, false, [], Escape(value), close)) == Some(Compare(op, attr, value))
  {
    EscapeIsCondition(value);
    UnescapeEscape(value);
  }

  lemma {:induction false} MakesSubstrings(attr: seq<Byte>, parts: seq<Part>, close: nat)
    requires GoodParts(parts)
    ensures IsCondition(PrintParts(parts))
    ensures Make(Assertion(Comparing(Equal), attr, false, [], PrintParts(parts), close)) == Some(Reread(Substrings(attr, parts)))
  {
    if parts == [] {
      MakesComparison(Equal, attr, [], close);
    } else {
      PartsHaveStars(parts);
      SubstringsBack(parts);
    }
  }

  lemma {:induction false} ComparisonAt(s: seq<Byte>, p: nat, op: Comparison, attr: seq<Byte>, value: seq<Byte>, q: nat)
    returns (a: Assertion)
    requires GoodAttr(attr) && (op == Equal ==> StopsBeforeEquals(attr)) && q == p + |attr|
    requires At(s, p, attr) && At(s, q, Symbol(op)) && At(s, q + |Symbol(op)|, Escape(value) + [CLOSE])
    ensures ReadAssertion(s, p) == Some(a) && Make(a) == Some(Compare(op, attr, value))
    ensures a.close == q + |Symbol(op)| + |Escape(value)|
  {
    hide End, ReadAssertion;
    EscapeIsCondition(value);
    ReadsComparison(s, p, attr, op, Escape(value));
    a := Assertion(Comparing(op), attr, false, [], Escape(value), q + |Symbol(op)| + |Escape(value)|);
    MakesComparison(op, attr, value, a.close);
  }

  /** What is read of an assertion makes it again. */
  lemma {:induction false} ComparisonBack(s: seq<Byte>, p: nat, f: Filter) returns (a: Assertion)
    requires f.Compare? && Tidy(f) && At(s, p, f.attr) && At(s, p + |f.attr|, Tail(f) + [CLOSE])
    ensures ReadAssertion(s, p) == Some(a) && Make(a) == Some(f) && a.close == p + |f.attr| + |Tail(f)|
  {
    hide End, EndsName, ReadAssertion, Make, GoodAttr, StopsBeforeEquals, Symbol, Escape, At;
    TailSplits(s, p + |f.attr|, Tail(f), Symbol(f.op), Escape(f.value));
    a := ComparisonAt(s, p, f.op, f.attr, f.value, p + |f.attr|);
  }

  lemma {:induction false} PresenceBack(s: seq<Byte>, p: nat, f: Filter) returns (a: Assertion)
    requires f.Present? && Tidy(f) && At(s, p, f.attr) && At(s, p + |f.attr|, Tail(f) + [CLOSE])
    ensures ReadAssertion(s, p) == Some(a) && Make(a) == Some(f) && a.close == p + |f.attr| + |Tail(f)|
  {
    hide ReadAssertion, GoodAttr, StopsBeforeEquals;
    TailSplits(s, p + |f.attr|, Tail(f), Symbol(Equal), [STAR]);
    ReadsComparison(s, p, f.attr, Equal, [STAR]);
    a := Assertion(Comparing(Equal), f.attr, false, [], [STAR], p + |f.attr| + 2);
  }

  lemma {:induction false} SubstringsAt(s: seq<Byte>, p: nat, attr: seq<Byte>, parts: seq<Part>, q: nat) returns (a: Assertion)
    requires GoodAttr(attr) && StopsBeforeEquals(attr) && GoodParts(parts) && q == p + |attr|
    requires At(s, p, attr) && At(s, q, Symbol(Equal)) && At(s, q + 1, PrintParts(parts) + [CLOSE])
    ensures ReadAssertion(s, p) == Some(a) && Make(a) == Some(Reread(Substrings(attr, parts)))
    ensures a.close == q + 1 + |PrintParts(parts)|
  {
    hide End, IsTextFrom, SplitFrom, UnescapeFrom, GoodAttr, PrintParts, ReadAssertion, Make, GoodPart;
    a := Assertion(Comparing(Equal), attr, false, [], PrintParts(parts), q + 1 + |PrintParts(parts)|);
    MakesSubstrings(attr, parts, a.close);
    ReadsComparison(s, p, attr, Equal, PrintParts(parts));
  }

  lemma {:induction false} SubstringMatchBack(s: seq<Byte>, p: nat, f: Filter) returns (a: Assertion)
    requires f.Substrings? && Tidy(f) && At(s, p, f.attr) && At(s, p + |f.attr|, Tail(f) + [CLOSE])
    ensures ReadAssertion(s, p) == Some(a) && Make(a) == Some(Reread(f)) && a.close == p + |f.attr| + |Tail(f)|
  {
    hide End, PartsOf, PrintPartsFrom, ReadAssertion, PrintParts, StopsBeforeEquals, IsText;
    TailSplits(s, p + |f.attr|, Tail(f), Symbol(Equal), PrintParts(f.parts));
    a := SubstringsAt(s, p, f.attr, f.parts, p + |f.attr|);
  }

  lemma {:induction false} ExtensionBack(s: seq<Byte>, p: nat, f: Filter) returns (a: Assertion)
    requires f.Extensible? && Tidy(f) && At(s, p, f.attr) && At(s, p + |f.attr|, Tail(f) + [CLOSE])
    ensures ReadAssertion(s, p) == Some(a) && Make(a) == Some(Reread(f)) && a.close == p + |f.attr| + |Tail(f)|
  {
    hide End, EndsAttr, ReadAssertion, GoodAttr, Escape, At, PrintRule;
    var head, text := PrintRule(f.dn, f.rule) + [COLON, EQUALS], Escape(f.value);
    EscapeIsCondition(f.value);
    TailSplits(s, p + |f.attr|, Tail(f), head, text);
    ReadsExtension(s, p, f.attr, f.dn, f.rule, text);
    UnescapeEscape(f.value);
    a := ExtensionRead(p, f.attr, f.dn, f.rule, text);
  }

  /** An assertion does not start like a set or a negation. */
  lemma {:induction false} AssertionStarts(s: seq<Byte>, p: nat, f: Filter)
    requires IsAssertion(f) && GoodAttr(f.attr) && At(s, p, f.attr) && At(s, p + |f.attr|, Tail(f) + [CLOSE])
    ensures p < |s| && Reads(s, p) && !Opens(s[p])
  {
    if f.attr != [] {
      RuneAt(s, p, f.attr, 0);
      assert s[p + 0] == f.attr[0];
    } else {
      var t := Tail(f) + [CLOSE];
      assert s[p + |f.attr| + 0] == t[0];
      assert t[0] == Tail(f)[0];
      assert f.Extensible? ==> Tail(f)[0] == COLON;
    }
  }

  lemma {:induction false} SomeBack(s: seq<Byte>, p: nat, f: Filter) returns (a: Assertion)
    requires IsAssertion(f) && Tidy(f) && At(s, p, f.attr) && At(s, p + |f.attr|, Tail(f) + [CLOSE])
    ensures ReadAssertion(s, p) == Some(a) && Make(a) == Some(Reread(f)) && a.close == p + |f.attr| + |Tail(f)|
  {
    match f {
      case Compare(_, _, _) => a := ComparisonBack(s, p, f);
      case Present(_) => a := PresenceBack(s, p, f);
      case Substrings(_, _) => a := SubstringMatchBack(s, p, f);
      case Extensible(_, _, _, _) => a := ExtensionBack(s, p, f);
    }
  }

  lemma {:induction false} ParsesAssertion(s: seq<Byte>, p: nat, a: Assertion, f: Filter)
    requires p < |s| && Reads(s, p) && !Opens(s[p]) && ReadAssertion(s, p) == Some(a) && Make(a) == Some(f)
    ensures Parse(s, p) == Some(Parsed(f, a.close + 1))
  {
  }

  /** r is f as its text is read, up to next. */
  predicate Shows(r: Parsed, f: Filter, next: nat) {
    r == Parsed(Reread(f), next)
  }

  lemma {:induction false} AssertionBack(s: seq<Byte>, p: nat, f: Filter) returns (r: Parsed)
    requires IsAssertion(f) && Tidy(f) && At(s, p, Body(f) + [CLOSE])
    ensures p <= |s| && Parse(s, p) == Some(r) && Shows(r, f, p + |Body(f)| + 1)
  {
    AssertionSplits(s, p, f);
    AssertionStarts(s, p, f);
    var a := SomeBack(s, p, f);
    ParsesAssertion(s, p, a, Reread(f));
    r := Parsed(Reread(f), a.close + 1);
  }

  // Whole filters

  lemma {:induction false} ClosesAfter(s: seq<Byte>, pos: nat, f: Filter)
    requires At(s, pos, Print(f))
    ensures pos + 1 < |s| && s[pos] == OPEN && At(s, pos + 1, Body(f) + [CLOSE]) && |Print(f)| == |Body(f)| + 2
  {
    assert Print(f) == [OPEN] + (Body(f) + [CLOSE]);
    AtConcat(s, pos, [OPEN], Body(f) + [CLOSE]);
    assert s[pos + 0] == [OPEN][0];
  }

  lemma {:induction false} NegationSplits(s: seq<Byte>, p: nat, f: Filter)
    requires f.Not? && At(s, p, Body(f) + [CLOSE])
    ensures p + 1 < |s| && s[p] == '!' as int && s[p + 1] == OPEN && At(s, p + 1, Print(f.child))
    ensures |Body(f)| == |Print(f.child)| + 1
  {
    assert Body(f) + [CLOSE] == ['!' as int] + (Print(f.child) + [CLOSE]);
    HeadStands(s, p, '!' as int, Print(f.child) + [CLOSE]);
    AtConcat(s, p + 1, Print(f.child), [CLOSE]);
    ClosesAfter(s, p + 1, f.child);
  }

  lemma {:induction false} ChildSplits(s: seq<Byte>, p: nat, f: Filter, i: nat)
    requires (f.And? || f.Or?) && i < |f.children| && At(s, p, PrintFrom(f, i) + [CLOSE])
    ensures p < |s| && s[p] == OPEN && At(s, p, Print(f.children[i]))
    ensures At(s, p + |Print(f.children[i])|, PrintFrom(f, i + 1) + [CLOSE])
    ensures |PrintFrom(f, i)| == |Print(f.children[i])| + |PrintFrom(f, i + 1)|
  {
    hide Print, At;
    var child, rest := f.children[i], PrintFrom(f, i + 1);
    assert PrintFrom(f, i) == Print(child) + rest;
    assert PrintFrom(f, i) + [CLOSE] == Print(child) + (rest + [CLOSE]);
    AtConcat(s, p, Print(child), rest + [CLOSE]);
    ClosesAfter(s, p, child);
  }

  lemma {:induction false} ParsesNegation(s: seq<Byte>, p: nat, inner: Parsed) returns (r: Parsed)
    requires p + 1 < |s| && s[p] == '!' as int && s[p + 1] == OPEN && Parse(s, p + 2) == Some(inner)
    ensures Parse(s, p) == Some(r) && r == Parsed(Not(inner.filter), inner.next + 1)
  {
    hide ParseSet, End, ReadAssertion, Make, DecodeRune;
    r := Parsed(Not(inner.filter), inner.next + 1);
    assert Parse(s, p + 1) == Some(Parsed(inner.filter, inner.next + 1));
  }

  lemma {:induction false} ParsesSet(s: seq<Byte>, p: nat, f: Filter, children: seq<Filter>, next: nat) returns (r: Parsed)
    requires p < |s| && (f.And? || f.Or?) && s[p] == (if f.And? then '&' as int else '|' as int)
    requires ParseSet(s, p + 1) == Some((children, next))
    ensures Parse(s, p) == Some(r) && r == Parsed(if f.And? then And(children) else Or(children), next)
  {
    r := Parsed(if f.And? then And(children) else Or(children), next);
  }

  lemma {:induction false} ParsesChild(s: seq<Byte>, p: nat, child: Parsed, rest: seq<Filter>, next: nat)
    requires p < |s| && s[p] == OPEN && Parse(s, p + 1) == Some(child) && ParseSet(s, child.next) == Some((rest, next))
    ensures ParseSet(s, p) == Some(([child.filter] + rest, next))
  {
  }

  lemma {:induction false} ParsePrint(s: seq<Byte>, pos: nat, f: Filter) returns (r: Parsed)
    requires Tidy(f) && At(s, pos, Print(f))
    ensures pos + 1 <= |s| && Parse(s, pos + 1) == Some(r) && Shows(r, f, pos + |Print(f)|)
    decreases f, if f.And? || f.Or? then |f.children| + 1 else 0
  {
    ClosesAfter(s, pos, f);
    if IsAssertion(f) {
      r := AssertionBack(s, pos + 1, f);
    } else if f.Not? {
      NegationSplits(s, pos + 1, f);
      var inner := ParsePrint(s, pos + 2, f.child);
      r := ParsesNegation(s, pos + 1, inner);
    } else {
      r := SetBack(s, pos + 1, f);
    }
  }

  lemma {:induction false} SetBack(s: seq<Byte>, p: nat, f: Filter) returns (r: Parsed)
    requires (f.And? || f.Or?) && Tidy(f) && At(s, p, Body(f) + [CLOSE])
    ensures p <= |s| && Parse(s, p) == Some(r) && Shows(r, f, p + |Body(f)| + 1)
    decreases f, |f.children| + 1, 0
  {
    hide Parse, PrintFrom, ParseSet;
    var head := if f.And? then '&' as int else '|' as int;
    assert Body(f) + [CLOSE] == [head] + (PrintFrom(f, 0) + [CLOSE]);
    HeadStands(s, p, head, PrintFrom(f, 0) + [CLOSE]);
    var children, next := ParseChildren(s, p + 1, f, 0);
    assert Reread(f).children[0..] == Reread(f).children;
    r := ParsesSet(s, p, f, children, next);
  }

  lemma {:induction false} ParseChildren(s: seq<Byte>, p: nat, f: Filter, i: nat) returns (children: seq<Filter>, next: nat)
    requires (f.And? || f.Or?) && Tidy(f) && i <= |f.children| && At(s, p, PrintFrom(f, i) + [CLOSE])
    ensures ParseSet(s, p) == Some((children, next))
    ensures children == Reread(f).children[i..] && next == p + |PrintFrom(f, i)| + 1
    decreases f, |f.children| - i
  {
    hide Parse, Print, IsText;
    if i == |f.children| {
      assert PrintFrom(f, i) + [CLOSE] == [CLOSE] + [];
      HeadStands(s, p, CLOSE, []);
      children, next := [], p + 1;
    } else {
      ChildSplits(s, p, f, i);
      var child := ParsePrint(s, p, f.children[i]);
      assert child.next == p + |Print(f.children[i])|;
      var rest, after := ParseChildren(s, child.next, f, i + 1);
      ParsesChild(s, p, child, rest, after);
      children, next := [child.filter] + rest, after;
      ChildFirst(f, i);
    }
  }

  lemma {:induction false} ChildFirst(f: Filter, i: nat)
    requires (f.And? || f.Or?) && i < |f.children|
    ensures Reread(f).children[i..] == [Reread(f.children[i])] + Reread(f).children[i + 1..]
  {
  }

  lemma {:induction false} Compiles(s: seq<Byte>, r: Parsed)
    requires s != [] && s[0] == OPEN && Parse(s, 1) == Some(r) && r.next == |s|
    ensures Compile(s) == Some(r.filter)
  {
  }

  /** The text of a tidy filter compiles, to its last character, to the filter it shows;
      that is the filter itself exactly when the filter is unambiguous. */
  lemma {:induction false} CompilePrint(f: Filter)
    requires Tidy(f)
    ensures Compile(Print(f)) == Some(Reread(f))
    ensures Compile(Print(f)) == Some(f) <==> Unambiguous(f)
  {
    ClosesAfter(Print(f), 0, f);
    var r := ParsePrint(Print(f), 0, f);
    Compiles(Print(f), r);
    RereadIsSame(f);
  }
}
