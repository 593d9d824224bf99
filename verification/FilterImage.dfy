/** Every filter that CompileFilter returns can be printed and compiled again (filter.go). */
module FilterImage {
  import opened Collections
  import opened Utf8
  import opened FilterEscape
  import opened Filters
  import opened FilterReading
  import opened FilterRoundTrip

  // What is read between two positions

  ghost predicate StopsOnAscii(s: seq<Byte>, stop: (seq<Byte>, nat) -> bool) {
    forall p: nat :: p < |s| && stop(s, p) ==> s[p] < 0x80
  }

  lemma {:induction false} NothingInRune(s: seq<Byte>, p: nat, k: nat, stop: (seq<Byte>, nat) -> bool)
    requires p < |s| && StopsOnAscii(s, stop) && !IsEnd(s, p, stop) && p <= k < p + DecodeRune(s, p).width
    ensures Passes(s, k, stop)
  {
    WriteBack(s, p);
    if k > p { assert s[k] >= 0x80; }
  }

  /** Nothing looked for stands in what is read. */
  lemma {:induction false} AllPasses(s: seq<Byte>, p: nat, k: nat, stop: (seq<Byte>, nat) -> bool)
    requires p <= |s| && StopsOnAscii(s, stop) && p <= k < End(s, p, stop)
    ensures Passes(s, k, stop)
    decreases |s| - p
  {
    var next := p + DecodeRune(s, p).width;
    if k < next { NothingInRune(s, p, k, stop); } else { AllPasses(s, next, k, stop); }
  }

  lemma {:induction false} SliceOfSlice(s: seq<Byte>, p: nat, q: nat, i: nat, w: nat)
    requires p + i + w <= q <= |s|
    ensures s[p..q][i..i + w] == s[p + i..p + i + w]
  {
    var a, b := s[p..q][i..i + w], s[p + i..p + i + w];
    assert |a| == |b|;
    forall k | 0 <= k < w ensures a[k] == b[k] { assert a[k] == s[p..q][i + k] == s[p + i + k]; }
  }

  /** What is read is text. */
  lemma {:induction false} ReadIsText(s: seq<Byte>, p: nat, i: nat, q: nat, stop: (seq<Byte>, nat) -> bool)
    requires p + i <= |s| && End(s, p + i, stop) == q
    ensures IsTextFrom(s[p..q], i)
    decreases |s| - p - i
  {
    if !IsEnd(s, p + i, stop) {
      var w := DecodeRune(s, p + i).width;
      ReadIsText(s, p, i + w, q, stop);
      SliceOfSlice(s, p, q, i, w);
      SameRune(s, p + i, s[p..q], i);
    }
  }

  lemma {:induction false} AttrIsGood(s: seq<Byte>, p: nat)
    requires p < |s| && !Opens(s[p]) && EndsAttr(s, End(s, p, EndsAttr))
    ensures var q := End(s, p, EndsAttr);
            GoodAttr(s[p..q]) && (s[q] == EQUALS ==> StopsBeforeEquals(s[p..q]))
  {
    hide End, IsTextFrom, DecodeRune;
    var q := End(s, p, EndsAttr);
    var attr := s[p..q];
    ReadIsText(s, p, 0, q, EndsAttr);
    forall i | 0 <= i < |attr|
      ensures !EndsName(attr[i])
    {
      AllPasses(s, p, p + i, EndsAttr);
    }
    if q > p {
      AllPasses(s, p, q - 1, EndsAttr);
      assert attr[|attr| - 1] == s[q - 1];
    }
  }

  lemma {:induction false} RuleBytes(s: seq<Byte>, p: nat, i: nat)
    requires p <= |s| && p + i < End(s, p, EndsRule)
    ensures RuleByte(s[p..End(s, p, EndsRule)], i)
  {
    AllPasses(s, p, p + i, EndsRule);
  }

  lemma {:induction false} RuleIsNotFlag(s: seq<Byte>, p: nat, q: nat)
    requires p <= q <= |s| && !At(s, p, DN + [COLON])
    ensures !(DN + [COLON] <= s[p..q])
  {
    var flag, rule := DN + [COLON], s[p..q];
    if flag <= rule {
      forall i | 0 <= i < 3 ensures s[p + i] == flag[i] { assert rule[i] == flag[i]; }
    }
  }

  lemma {:induction false} RuleIsGood(s: seq<Byte>, p: nat, dn: bool)
    requires p <= |s| && (p < |s| ==> s[p] != EQUALS) && (!dn ==> !At(s, p, DN + [COLON]))
    ensures GoodRule(dn, s[p..End(s, p, EndsRule)])
  {
    var q := End(s, p, EndsRule);
    var rule := s[p..q];
    ReadIsText(s, p, 0, q, EndsRule);
    forall i | 0 <= i < |rule| ensures RuleByte(rule, i) { RuleBytes(s, p, i); }
    if !dn { RuleIsNotFlag(s, p, q); }
  }

  /** After the operator, a rule is neither the dn flag nor a value. */
  lemma {:induction false} OperatorLeavesRule(s: seq<Byte>, q: nat)
    requires OperatorAt(s, q).Some? && OperatorAt(s, q).value.ruled
    ensures var op := OperatorAt(s, q).value;
            && op.kind == Extending && (q + op.width < |s| ==> s[q + op.width] != EQUALS)
            && (!op.dn ==> !At(s, q + op.width, DN + [COLON]))
  {
    var op := OperatorAt(s, q).value;
    if op.dn {
      if q + 4 < |s| && s[q + 4] == EQUALS {
        forall i | 0 <= i < 5 ensures s[q + i] == DN_VALUE[i] { if i < 4 { assert s[q + i] == DN_RULE[i]; } }
        assert At(s, q, DN_VALUE);
      }
    } else if At(s, q + 1, DN + [COLON]) {
      forall i | 0 <= i < 4
        ensures s[q + i] == DN_RULE[i]
      {
        if i > 0 { assert s[q + 1 + (i - 1)] == (DN + [COLON])[i - 1]; }
      }
      assert At(s, q, DN_RULE);
    }
  }

  ghost predicate GoodNames(a: Assertion) {
    && GoodAttr(a.attr)
    && (a.kind == Comparing(Equal) ==> StopsBeforeEquals(a.attr))
    && (a.kind == Extending ==> GoodRule(a.dn, a.rule))
  }

  lemma {:induction false} ReadIsGood(s: seq<Byte>, p: nat, a: Assertion)
    requires p < |s| && !Opens(s[p]) && ReadAssertion(s, p) == Some(a)
    ensures GoodNames(a)
  {
    hide End, ReadRule, GoodAttr, StopsBeforeEquals;
    var q := End(s, p, EndsAttr);
    var op := OperatorAt(s, q).value;
    AttrIsGood(s, p);
    RuleOfReading(s, s[p..q], op, q + op.width, a);
    if op.ruled {
      OperatorLeavesRule(s, q);
      RuleIsGood(s, q + op.width, op.dn);
    }
  }

  lemma {:induction false} RuleOfReading(s: seq<Byte>, attr: seq<Byte>, op: Operator, p: nat, a: Assertion)
    requires p <= |s| && ReadRule(s, attr, op, p) == Some(a)
    ensures a.kind == op.kind && a.attr == attr && a.dn == op.dn
    ensures a.rule == if op.ruled then s[p..End(s, p, EndsRule)] else []
  {
  }

  // Substrings

  /** Of the first k pieces, only the first can give an initial part, and none a final one
      unless all pieces are taken. */
  lemma {:induction false} PartsFit(pieces: seq<seq<Byte>>, k: nat, parts: seq<Part>)
    requires k <= |pieces| && PartsOf(pieces, k) == Some(parts)
    ensures |parts| <= k
    ensures forall i: nat :: i < |parts| ==> GoodPart(parts, i)
    ensures forall i: nat :: i < |parts| && parts[i].place == Final ==> k == |pieces|
  {
    if k > 0 {
      var before := PartsOf(pieces, k - 1).value;
      PartsFit(pieces, k - 1, before);
      if pieces[k - 1] != [] {
        UnescapeNonEmpty(pieces[k - 1]);
        forall i: nat | i < |parts|
          ensures GoodPart(parts, i)
        {
          if i < |before| { assert GoodPart(before, i); }
        }
      }
    }
  }

  lemma {:induction false} MadeIsTidy(a: Assertion, f: Filter)
    requires GoodNames(a) && Make(a) == Some(f)
    ensures Tidy(f)
  {
    if f.Substrings? {
      var pieces := Split(a.condition);
      PartsFit(pieces, |pieces|, f.parts);
    }
  }

  // Whole filters

  lemma {:induction false} AssertionIsTidy(s: seq<Byte>, p: nat, a: Assertion, f: Filter)
    requires p < |s| && !Opens(s[p]) && ReadAssertion(s, p) == Some(a) && Make(a) == Some(f)
    ensures Tidy(f)
  {
    ReadIsGood(s, p, a);
    MadeIsTidy(a, f);
  }

  lemma {:induction false} ParsedIsTidy(s: seq<Byte>, pos: nat)
    requires pos <= |s| && Parse(s, pos).Some?
    ensures Tidy(Parse(s, pos).value.filter)
    decreases |s| - pos, 0
  {
    if s[pos] == OPEN || s[pos] == '!' as int {
      ParsedIsTidy(s, pos + 1);
    } else if s[pos] == '&' as int || s[pos] == '|' as int {
      ParsedAreTidy(s, pos + 1);
    } else {
      var a := ReadAssertion(s, pos).value;
      AssertionIsTidy(s, pos, a, Make(a).value);
    }
  }

  lemma {:induction false} ParsedAreTidy(s: seq<Byte>, pos: nat)
    requires ParseSet(s, pos).Some?
    ensures forall i :: 0 <= i < |ParseSet(s, pos).value.0| ==> Tidy(ParseSet(s, pos).value.0[i])
    decreases if pos <= |s| then |s| - pos else 0, 1
  {
    if pos < |s| && s[pos] == OPEN {
      ParsedIsTidy(s, pos + 1);
      ParsedAreTidy(s, Parse(s, pos + 1).value.next);
    }
  }

  /** For every text that compiles: compiling the decompiled filter gives the same filter
      exactly when no substring match lacks substrings and no rule is named dn. */
  lemma {:induction false} CompileAgain(s: seq<Byte>, f: Filter)
    requires Compile(s) == Some(f)
    ensures Compile(Print(f)) == Some(Reread(f))
    ensures Compile(Print(f)) == Some(f) <==> Unambiguous(f)
  {
    ParsedIsTidy(s, 1);
    CompilePrint(f);
  }

  /** Which filters come back from their own text, of all there are: the tidy and unambiguous ones. */
  lemma {:induction false} ComesBackIff(f: Filter)
    ensures Compile(Print(f)) == Some(f) <==> Tidy(f) && Unambiguous(f)
  {
    hide Tidy, Unambiguous, Print, Reread;
    if Compile(Print(f)) == Some(f) { ParsedIsTidy(Print(f), 1); }
    if Tidy(f) { CompilePrint(f); }
  }

  /** (a=**) compiles to a substring match whose own text, (a=), means something else. */
  lemma {:induction false} StarsDoNotComeBack(s: seq<Byte>, f: Filter)
    requires s == [OPEN, 'a' as int, EQUALS, STAR, STAR, CLOSE] && f == Substrings(['a' as int], [])
    ensures Compile(s) == Some(f) && Compile(Print(f)) == Some(Compare(Equal, ['a' as int], []))
  {
    hide UnescapeFrom, PrintFrom;
    var c: seq<Byte> := [STAR, STAR];
    assert End(s, 2, EndsAttr) == 2;
    assert End(s, 1, EndsAttr) == 2 && s[1..2] == ['a' as int];
    assert End(s, 5, EndsNothing) == 5;
    assert End(s, 4, EndsNothing) == 5;
    assert End(s, 3, EndsNothing) == 5 && s[3..5] == c;
    assert c[0..0] == [] && c[1..1] == [] && c[2..] == [];
    assert SplitFrom(c, 2, 2) == [[]];
    assert SplitFrom(c, 1, 1) == [[]] + [[]];
    var pieces := Split(c);
    assert pieces == [[]] + ([[]] + [[]]);
    assert PartsOf(pieces, 1) == Some([]);
    assert PartsOf(pieces, 2) == Some([]);
    ParsesAssertion(s, 1, Assertion(Comparing(Equal), ['a' as int], false, [], c, 5), f);
    Compiles(s, Parsed(f, 6));
    CompileAgain(s, f);
  }

  /** (a:dn) compiles to a rule named dn, whose own text, (a:dn:=), is the dn flag. */
  lemma {:induction false} RuleNamedDnDoesNotComeBack(s: seq<Byte>, f: Filter)
    requires s == [OPEN, 'a' as int, COLON, 'd' as int, 'n' as int, CLOSE] && f == Extensible(['a' as int], false, DN, [])
    ensures Compile(s) == Some(f) && Compile(Print(f)) == Some(Extensible(['a' as int], true, [], []))
  {
    assert !At(s, 2, DN_VALUE) && !At(s, 2, DN_RULE) by { assert DN_VALUE[3] == DN_RULE[3] == COLON; }
    assert End(s, 2, EndsAttr) == 2;
    assert End(s, 1, EndsAttr) == 2 && s[1..2] == ['a' as int];
    assert End(s, 5, EndsRule) == 5;
    assert End(s, 4, EndsRule) == 5;
    assert End(s, 3, EndsRule) == 5 && s[3..5] == DN;
    ParsesAssertion(s, 1, Assertion(Extending, ['a' as int], false, DN, [], 5), f);
    Compiles(s, Parsed(f, 6));
    CompileAgain(s, f);
  }
}
