/** Reading the text of one assertion back. */
module FilterReading {
  import opened Collections
  import opened Utf8
  import opened FilterEscape
  import opened Filters

  // Which names have a text of their own

  /** What tells a set or a negation from an assertion. */
  predicate Opens(b: Byte) {
    b == OPEN || b == '&' as int || b == '|' as int || b == '!' as int
  }

  predicate EndsName(b: Byte) {
    b == CLOSE || b == COLON || b == EQUALS
  }

  ghost predicate GoodAttr(attr: seq<Byte>) {
    && IsText(attr)
    && (forall i :: 0 <= i < |attr| ==> !EndsName(attr[i]))
    && (attr != [] ==> !Opens(attr[0]))
  }

  /** The attribute does not run into an equals sign to form another operator. */
  predicate StopsBeforeEquals(attr: seq<Byte>) {
    attr == [] || (attr[|attr| - 1] != GREATER && attr[|attr| - 1] != LESS && attr[|attr| - 1] != TILDE)
  }

  ghost predicate GoodRule(dn: bool, rule: seq<Byte>) {
    && IsText(rule)
    && (forall i :: 0 <= i < |rule| ==> RuleByte(rule, i))
    && (rule != [] ==> rule[0] != EQUALS)
    && (!dn ==> !(DN + [COLON] <= rule))
  }

  predicate RuleByte(rule: seq<Byte>, i: nat)
    requires i < |rule|
  {
    rule[i] != CLOSE && (rule[i] == COLON && i + 1 < |rule| ==> rule[i + 1] != EQUALS)
  }

  // Positions

  /** A rune of a text is read where the text stands. */
  lemma {:induction false} RuneAt(s: seq<Byte>, pos: nat, text: seq<Byte>, i: nat)
    requires At(s, pos, text) && i < |text| && Reads(text, i)
    ensures DecodeRune(s, pos + i) == DecodeRune(text, i)
    ensures i + DecodeRune(text, i).width <= |text|
    ensures s[pos + i..pos + i + DecodeRune(text, i).width] == text[i..i + DecodeRune(text, i).width]
  {
    var w := DecodeRune(text, i).width;
    assert s[pos + i..pos + i + w] == text[i..i + w];
    SameRune(text, i, s, pos + i);
  }

  // Reading names and values

  /** Reading goes on at p. */
  predicate Passes(s: seq<Byte>, p: nat, stop: (seq<Byte>, nat) -> bool) {
    p < |s| && s[p] != CLOSE && !stop(s, p)
  }

  /** Reading a text stops where the text stops, when nothing looked for stands inside. */
  lemma {:induction false} EndAt(s: seq<Byte>, pos: nat, text: seq<Byte>, j: nat, stop: (seq<Byte>, nat) -> bool)
    requires At(s, pos, text) && j <= |text| && IsTextFrom(text, j)
    requires forall k: nat :: pos <= k < pos + |text| ==> Passes(s, k, stop)
    requires IsEnd(s, pos + |text|, stop)
    ensures End(s, pos + j, stop) == pos + |text|
    decreases |text| - j
  {
    if j < |text| {
      RuneAt(s, pos, text, j);
      assert Passes(s, pos + j, stop);
      EndAt(s, pos, text, j + DecodeRune(text, j).width, stop);
    }
  }

  lemma {:induction false} AsciiIsText(text: seq<Byte>, j: nat)
    requires j <= |text| && forall i :: 0 <= i < |text| ==> text[i] < 0x80
    ensures IsTextFrom(text, j)
    decreases |text| - j
  {
    if j < |text| { AsciiIsText(text, j + 1); }
  }

  /** The attribute is read, and reading goes on after its operator. */
  lemma {:induction false} AttrEndsAt(s: seq<Byte>, p: nat, attr: seq<Byte>, op: Operator)
    requires At(s, p, attr) && GoodAttr(attr) && OperatorAt(s, p + |attr|) == Some(op)
    requires s[p + |attr|] == EQUALS ==> StopsBeforeEquals(attr)
    ensures p + |attr| + op.width <= |s| && ReadAssertion(s, p) == ReadRule(s, attr, op, p + |attr| + op.width)
  {
    hide End, IsTextFrom, ReadRule;
    forall k: nat | p <= k < p + |attr|
      ensures Passes(s, k, EndsAttr)
    {
      var i := k - p;
      assert s[p + i] == attr[i] && (i + 1 < |attr| ==> s[p + (i + 1)] == attr[i + 1]);
    }
    EndAt(s, p, attr, 0, EndsAttr);
    assert s[p..p + |attr|] == attr;
  }

  lemma {:induction false} RuleEndsAt(s: seq<Byte>, p: nat, attr: seq<Byte>, op: Operator, dn: bool, rule: seq<Byte>)
    requires op.ruled && At(s, p, rule) && GoodRule(dn, rule) && EqualsAfter(s, p + |rule|, COLON)
    ensures p + |rule| + 2 <= |s| && ReadRule(s, attr, op, p) == ReadValue(s, attr, op, rule, p + |rule| + 2)
  {
    hide End, IsTextFrom, ReadValue;
    forall k: nat | p <= k < p + |rule|
      ensures Passes(s, k, EndsRule)
    {
      var i := k - p;
      assert RuleByte(rule, i);
      assert s[p + i] == rule[i] && (i + 1 < |rule| ==> s[p + (i + 1)] == rule[i + 1]);
    }
    EndAt(s, p, rule, 0, EndsRule);
    assert s[p..p + |rule|] == rule;
  }

  predicate IsCondition(text: seq<Byte>) {
    forall i :: 0 <= i < |text| ==> text[i] < 0x80 && text[i] != CLOSE
  }

  lemma {:induction false} ValueEndsAt(s: seq<Byte>, p: nat, attr: seq<Byte>, op: Operator, rule: seq<Byte>, text: seq<Byte>)
    requires At(s, p, text + [CLOSE]) && IsCondition(text)
    ensures ReadValue(s, attr, op, rule, p) == Some(Assertion(op.kind, attr, op.dn, rule, text, p + |text|))
  {
    AtConcat(s, p, text, [CLOSE]);
    assert s[p + |text| + 0] == [CLOSE][0];
    AsciiIsText(text, 0);
    forall k: nat | p <= k < p + |text|
      ensures Passes(s, k, EndsNothing)
    {
      assert s[p + (k - p)] == text[k - p];
    }
    EndAt(s, p, text, 0, EndsNothing);
    assert s[p..p + |text|] == text;
  }

  function OperatorOf(op: Comparison): Operator {
    Operator(Comparing(op), false, false, |Symbol(op)|)
  }

  lemma {:induction false} ReadsComparison(s: seq<Byte>, p: nat, attr: seq<Byte>, op: Comparison, text: seq<Byte>)
    requires GoodAttr(attr) && (op == Equal ==> StopsBeforeEquals(attr)) && IsCondition(text)
    requires At(s, p, attr) && At(s, p + |attr|, Symbol(op)) && At(s, p + |attr| + |Symbol(op)|, text + [CLOSE])
    ensures ReadAssertion(s, p)
         == Some(Assertion(Comparing(op), attr, false, [], text, p + |attr| + |Symbol(op)| + |text|))
  {
    hide End, IsTextFrom, ReadValue;
    var q := p + |attr|;
    assert s[q + 0] == Symbol(op)[0] && (op != Equal ==> s[q + 1] == Symbol(op)[1]);
    AttrEndsAt(s, p, attr, OperatorOf(op));
    ValueEndsAt(s, q + |Symbol(op)|, attr, OperatorOf(op), [], text);
  }

  /** How a rule is read: which operator, and whether its name is read after it. */
  function OperatorOfRule(dn: bool, rule: seq<Byte>): Operator {
    if dn && rule != [] then Operator(Extending, true, true, 4)
    else if dn || rule == DN then Operator(Extending, true, false, 5)
    else if rule == [] then Operator(Extending, false, false, 2)
    else Operator(Extending, false, true, 1)
  }

  lemma {:induction false} ReadsUnruled(s: seq<Byte>, p: nat, attr: seq<Byte>, op: Operator, text: seq<Byte>)
    requires GoodAttr(attr) && IsCondition(text) && At(s, p, attr)
    requires OperatorAt(s, p + |attr|) == Some(op) && op.kind == Extending && !op.ruled
    requires At(s, p + |attr| + op.width, text + [CLOSE])
    ensures ReadAssertion(s, p) == Some(Assertion(Extending, attr, op.dn, [], text, p + |attr| + op.width + |text|))
  {
    AttrEndsAt(s, p, attr, op);
    ValueEndsAt(s, p + |attr| + op.width, attr, op, [], text);
  }

  lemma {:induction false} ReadsRuled(s: seq<Byte>, p: nat, attr: seq<Byte>, op: Operator, rule: seq<Byte>, text: seq<Byte>)
    requires GoodAttr(attr) && GoodRule(op.dn, rule) && IsCondition(text) && At(s, p, attr)
    requires OperatorAt(s, p + |attr|) == Some(op) && op.kind == Extending && op.ruled
    requires At(s, p + |attr| + op.width, rule) && EqualsAfter(s, p + |attr| + op.width + |rule|, COLON)
    requires At(s, p + |attr| + op.width + |rule| + 2, text + [CLOSE])
    ensures ReadAssertion(s, p)
         == Some(Assertion(Extending, attr, op.dn, rule, text, p + |attr| + op.width + |rule| + 2 + |text|))
  {
    hide End, GoodAttr, GoodRule, ReadAssertion, ReadRule, DecodeRune;
    var q := p + |attr| + op.width;
    AttrEndsAt(s, p, attr, op);
    RuledAt(s, q, q + |rule| + 2, attr, op, rule, text);
  }

  lemma {:induction false} RuledAt(s: seq<Byte>, q: nat, v: nat, attr: seq<Byte>, op: Operator, rule: seq<Byte>, text: seq<Byte>)
    requires GoodRule(op.dn, rule) && IsCondition(text) && op.kind == Extending && op.ruled && v == q + |rule| + 2
    requires At(s, q, rule) && EqualsAfter(s, q + |rule|, COLON) && At(s, v, text + [CLOSE])
    ensures ReadRule(s, attr, op, q) == Some(Assertion(Extending, attr, op.dn, rule, text, v + |text|))
  {
    RuleEndsAt(s, q, attr, op, op.dn, rule);
    ValueEndsAt(s, v, attr, op, rule, text);
  }

  /** What the text of an extensible match is read as. */
  function ExtensionRead(p: nat, attr: seq<Byte>, dn: bool, rule: seq<Byte>, text: seq<Byte>): Assertion {
    var named := !dn && rule == DN;
    Assertion(Extending, attr, dn || named, if named then [] else rule, text, p + |attr| + |PrintRule(dn, rule)| + 2 + |text|)
  }

  lemma {:induction false} ReadsExtensionRuled(s: seq<Byte>, p: nat, attr: seq<Byte>, dn: bool, rule: seq<Byte>, text: seq<Byte>)
    requires GoodAttr(attr) && GoodRule(dn, rule) && IsCondition(text) && OperatorOfRule(dn, rule).ruled
    requires At(s, p, attr) && At(s, p + |attr|, PrintRule(dn, rule) + [COLON, EQUALS])
    requires At(s, p + |attr| + |PrintRule(dn, rule)| + 2, text + [CLOSE])
    ensures ReadAssertion(s, p) == Some(ExtensionRead(p, attr, dn, rule, text))
  {
    hide End, IsTextFrom, GoodRule, ReadAssertion, Opens, OperatorAt, GoodAttr, IsText;
    var q, op, a := p + |attr|, OperatorOfRule(dn, rule), ExtensionRead(p, attr, dn, rule, text);
    OperatorIsRead(s, q, dn, rule);
    RuleStands(s, q, dn, rule);
    ReadsRuled(s, p, attr, op, rule, text);
    assert a == Assertion(Extending, attr, op.dn, rule, text, q + op.width + |rule| + 2 + |text|);
  }

  lemma {:induction false} ReadsExtension(s: seq<Byte>, p: nat, attr: seq<Byte>, dn: bool, rule: seq<Byte>, text: seq<Byte>)
    requires GoodAttr(attr) && GoodRule(dn, rule) && IsCondition(text)
    requires At(s, p, attr) && At(s, p + |attr|, PrintRule(dn, rule) + [COLON, EQUALS])
    requires At(s, p + |attr| + |PrintRule(dn, rule)| + 2, text + [CLOSE])
    ensures ReadAssertion(s, p) == Some(ExtensionRead(p, attr, dn, rule, text))
  {
    hide End, GoodAttr, ReadAssertion, IsText, OperatorAt;
    var q, op, a := p + |attr|, OperatorOfRule(dn, rule), ExtensionRead(p, attr, dn, rule, text);
    if op.ruled {
      ReadsExtensionRuled(s, p, attr, dn, rule, text);
    } else {
      OperatorIsRead(s, q, dn, rule);
      ReadsUnruled(s, p, attr, op, text);
      assert a == Assertion(Extending, attr, op.dn, [], text, q + op.width + |text|);
    }
  }

  lemma {:induction false} RuleStands(s: seq<Byte>, q: nat, dn: bool, rule: seq<Byte>)
    requires At(s, q, PrintRule(dn, rule) + [COLON, EQUALS]) && rule != []
    ensures At(s, q + |PrintRule(dn, rule)| - |rule|, rule)
    ensures EqualsAfter(s, q + |PrintRule(dn, rule)|, COLON)
  {
    var head := if dn then [COLON] + DN + [COLON] else [COLON];
    assert PrintRule(dn, rule) + [COLON, EQUALS] == head + (rule + [COLON, EQUALS]);
    AtConcat(s, q, head, rule + [COLON, EQUALS]);
    AtConcat(s, q + |head|, rule, [COLON, EQUALS]);
    var r := q + |head| + |rule|;
    assert s[r + 0] == [COLON, EQUALS][0] && s[r + 1] == [COLON, EQUALS][1];
  }

  lemma {:induction false} OperatorIsRead(s: seq<Byte>, q: nat, dn: bool, rule: seq<Byte>)
    requires GoodRule(dn, rule) && At(s, q, PrintRule(dn, rule) + [COLON, EQUALS])
    ensures OperatorAt(s, q) == Some(OperatorOfRule(dn, rule))
  {
    var r := PrintRule(dn, rule) + [COLON, EQUALS];
    assert s[q + 0] == r[0] && s[q + 1] == r[1];
    if dn || rule == DN {
      assert s[q + 2] == r[2] && s[q + 3] == r[3] && s[q + 4] == r[4];
      assert DN_VALUE[4] == EQUALS && (dn && rule != [] ==> r[4] == rule[0]);
    } else {
      RuleIsNoFlag(s, q, rule);
    }
  }

  lemma {:induction false} RuleIsNoFlag(s: seq<Byte>, q: nat, rule: seq<Byte>)
    requires At(s, q, PrintRule(false, rule) + [COLON, EQUALS]) && rule != DN && !(DN + [COLON] <= rule)
    ensures !At(s, q, DN_RULE) && !At(s, q, DN_VALUE)
  {
    var r := rule + [COLON, EQUALS];
    if rule == [] {
      assert s[q + 1] == (PrintRule(false, rule) + [COLON, EQUALS])[1] == EQUALS;
      assert DN_RULE[1] == DN_VALUE[1] == 'd' as int;
    } else {
      assert PrintRule(false, rule) + [COLON, EQUALS] == [COLON] + r;
      forall i | 0 <= i < |r| ensures s[q + 1 + i] == r[i] { assert s[q + (1 + i)] == ([COLON] + r)[1 + i]; }
      if r[0] == DN[0] && r[1] == DN[1] && r[2] == COLON {
        assert false;
      }
      assert DN_RULE[1] == DN[0] && DN_RULE[2] == DN[1] && DN_RULE[3] == COLON;
      assert DN_VALUE[1] == DN[0] && DN_VALUE[2] == DN[1] && DN_VALUE[3] == COLON;
    }
  }
}
