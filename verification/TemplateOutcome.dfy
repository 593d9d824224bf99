/** Exactly which format strings parse, which are errors and which panic. */
module TemplateOutcome {
  import opened Collections
  import opened Templates
  import opened TemplateRoundTrip

  /** A field whose name, up to a conversion or a specification, ends like a call and has no dot. */
  predicate CallsWithoutDot(text: string) {
    var name := Before(text, if '!' in text then '!' else ':');
    HasSuffix(name, PARENS) && '.' !in name
  }

  lemma {:induction false} FieldPanicsIff(text: string)
    ensures ParseField(text).None? <==> CallsWithoutDot(text)
  {
    var after := After(text, '!');
    CallNeedsDot(Before(text, '!'), After(after, ':'), Before(after, ':'));
    CallNeedsDot(Before(text, ':'), After(text, ':'), "");
  }

  // How parsing ends, one character at a time

  predicate OpensAt(s: string, m: nat) {
    m < |s| && s[m] == '{' && !IsEscape(s, m)
  }

  /** How the field that opens at i ends. */
  function FieldEnd(s: string, i: nat): End
    requires i < |s|
  {
    var k := Find(s, i + 1, '}');
    if k == |s| then Error else if ParseField(s[i + 1..k]).None? then Panic else SectionsFrom(s, k + 1).end
  }

  lemma {:induction false} EndOfText(s: string, i: nat, text: string, rest: Parsed)
    requires i <= |s| && SectionsFrom(s, i) == PrependText(text, rest)
    ensures SectionsFrom(s, i).end == rest.end
  {
    hide SectionsFrom;
  }

  lemma {:induction false} PlainStep(s: string, i: nat)
    requires i < |s| && s[i] != '{'
    ensures SectionsFrom(s, i).end == SectionsFrom(s, i + 1).end
  {
    hide SectionsFrom;
    FindsFirst(s, i + 1, '{');
    FindsAt(s, i, '{', Find(s, i + 1, '{'));
    var end, rest := NextBrace(s, i, i + 1);
    EndOfText(s, i, s[i..end], rest);
    EndOfText(s, i + 1, s[i + 1..end], rest);
  }

  lemma {:induction false} EscapeStep(s: string, i: nat)
    requires IsEscape(s, i)
    ensures SectionsFrom(s, i).end == SectionsFrom(s, i + 2).end
  {
    hide SectionsFrom;
    FindsAt(s, i, '{', i);
    NextText(s, i, i + 1, i + 2, false);
    EndOfText(s, i, s[i..i + 1], SectionsFrom(s, i + 2));
  }

  lemma {:induction false} FieldStep(s: string, i: nat)
    requires OpensAt(s, i)
    ensures SectionsFrom(s, i).end == FieldEnd(s, i)
  {
    hide SectionsFrom, ParseField, Find;
    OpensField(s, i, i + 1);
  }

  lemma {:induction false} EndStep(s: string, i: nat, end: End)
    requires i <= |s| && end == SectionsFrom(s, i).end
    ensures i == |s| ==> end == Fine
    ensures i < |s| && s[i] != '{' ==> end == SectionsFrom(s, i + 1).end
    ensures IsEscape(s, i) ==> end == SectionsFrom(s, i + 2).end
    ensures OpensAt(s, i) ==> end == FieldEnd(s, i)
  {
    hide SectionsFrom, FieldEnd;
    if i == |s| {
      NoText(s);
    } else if s[i] != '{' {
      PlainStep(s, i);
    } else if IsEscape(s, i) {
      EscapeStep(s, i);
    } else {
      FieldStep(s, i);
    }
  }

  /** From i, outside of a field, parsing comes to m outside of a field. */
  ghost predicate Arrives(s: string, i: nat, m: nat)
    requires i <= m <= |s|
    decreases m - i
  {
    if i == m then true
    else if s[i] != '{' then Arrives(s, i + 1, m)
    else if IsEscape(s, i) then i + 2 <= m && Arrives(s, i + 2, m)
    else
      var k := Find(s, i + 1, '}');
      k < m && ParseField(s[i + 1..k]).Some? && Arrives(s, k + 1, m)
  }

  /** That is: what stands before m parses on its own. */
  lemma {:induction false} ArrivesIff(s: string, i: nat, m: nat, t: string)
    requires i <= m <= |s| && t == s[..m]
    ensures Arrives(s, i, m) <==> SectionsFrom(t, i).end == Fine
    decreases m - i
  {
    hide SectionsFrom, ParseField, Find;
    EndStep(t, i, SectionsFrom(t, i).end);
    if i < m {
      assert t[i] == s[i];
      if s[i] != '{' {
        ArrivesIff(s, i + 1, m, t);
      } else if IsEscape(s, i) {
        if i + 2 <= m { ArrivesIff(s, i + 2, m, t); } else { CutEscape(s, i, t); }
      } else {
        var k := Find(s, i + 1, '}');
        CutFind(s, i + 1, '}', t);
        if k < m {
          assert s[i + 1..k] == t[i + 1..k];
          ArrivesIff(s, k + 1, m, t);
        }
      }
    }
  }

  lemma {:induction false} CutEscape(s: string, i: nat, t: string)
    requires IsEscape(s, i) && t == s[..i + 1]
    ensures OpensAt(t, i) && FieldEnd(t, i) == Error
  {
    FindsAt(t, i + 1, '}', i + 1);
  }

  lemma {:induction false} CutFind(s: string, i: nat, c: char, t: string)
    requires i <= |t| && t <= s
    ensures var k := Find(s, i, c); Find(t, i, c) == if k < |t| then k else |t|
  {
    var k := Find(s, i, c);
    FindsFirst(s, i, c);
    FindsAt(t, i, c, if k < |t| then k else |t|);
  }

  ghost predicate PanicsAt(s: string, m: nat) {
    OpensAt(s, m) && var k := Find(s, m + 1, '}'); k < |s| && ParseField(s[m + 1..k]).None?
  }

  ghost predicate FailsAt(s: string, m: nat) {
    OpensAt(s, m) && Find(s, m + 1, '}') == |s|
  }

  lemma {:induction false} ArrivesThere(s: string, i: nat, m: nat, end: End)
    requires i <= m <= |s| && Arrives(s, i, m) && end == SectionsFrom(s, i).end
    ensures end == SectionsFrom(s, m).end
    decreases m - i
  {
    hide SectionsFrom, ParseField, Find;
    EndStep(s, i, end);
    if i < m {
      if s[i] != '{' {
        ArrivesThere(s, i + 1, m, end);
      } else if IsEscape(s, i) {
        ArrivesThere(s, i + 2, m, end);
      } else {
        ArrivesThere(s, Find(s, i + 1, '}') + 1, m, end);
      }
    }
  }

  /** Where parsing stops, if it does not reach the end. */
  lemma {:induction false} StopsSomewhere(s: string, i: nat, end: End) returns (m: nat)
    requires i <= |s| && end == SectionsFrom(s, i).end && end != Fine
    ensures i <= m <= |s| && Arrives(s, i, m)
    ensures end == Panic ==> PanicsAt(s, m)
    ensures end == Error ==> FailsAt(s, m)
    decreases |s| - i
  {
    hide SectionsFrom, ParseField, Find;
    EndStep(s, i, end);
    if s[i] != '{' {
      m := StopsSomewhere(s, i + 1, end);
    } else if IsEscape(s, i) {
      m := StopsSomewhere(s, i + 2, end);
    } else {
      var k := Find(s, i + 1, '}');
      if k == |s| || ParseField(s[i + 1..k]).None? {
        m := i;
      } else {
        m := StopsSomewhere(s, k + 1, end);
      }
    }
  }

  // As texts

  predicate IsFieldText(text: string) {
    '}' !in text && (text != "" ==> text[0] != '{')
  }

  ghost predicate Parses(s: string) {
    SectionsFrom(s, 0).end == Fine
  }

  /** s is a format, then a field that panics, then anything. */
  ghost predicate HoldsPanic(s: string, pre: string, text: string, post: string) {
    Parses(pre) && IsFieldText(text) && CallsWithoutDot(text) && s == pre + ("{" + (text + ("}" + post)))
  }

  /** s is a format, then a field that is not closed. */
  ghost predicate HoldsOpen(s: string, pre: string, text: string) {
    Parses(pre) && IsFieldText(text) && s == pre + ("{" + text)
  }

  lemma {:induction false} OpensWith(s: string, pre: string, text: string, rest: string)
    requires IsFieldText(text) && s == pre + ("{" + (text + rest)) && (rest == "" || rest[0] == '}')
    ensures OpensAt(s, |pre|) && Find(s, |pre| + 1, '}') == |pre| + 1 + |text|
    ensures s[|pre| + 1..|pre| + 1 + |text|] == text && s[..|pre|] == pre
  {
    var m := |pre|;
    assert s[m] == '{' && s[m + 1..] == text + rest;
    forall j | m + 1 <= j < m + 1 + |text| ensures s[j] != '}' { assert s[j] == text[j - m - 1]; }
    assert text != "" ==> s[m + 1] == text[0];
    assert text == "" && rest != "" ==> s[m + 1] == rest[0];
    FindsAt(s, m + 1, '}', m + 1 + |text|);
  }

  lemma {:induction false} TextOfField(s: string, m: nat, k: nat)
    requires OpensAt(s, m) && k == Find(s, m + 1, '}')
    ensures IsFieldText(s[m + 1..k]) && s == s[..m] + ("{" + (s[m + 1..k] + s[k..]))
    ensures k < |s| ==> s[k..] == "}" + s[k + 1..]
  {
    FindsFirst(s, m + 1, '}');
  }

  /** Parse panics if and only if, after a part that is a format itself, there is a field whose
      name ends like a call and has no dot. */
  lemma {:induction false} PanicIff(s: string)
    ensures SectionsFrom(s, 0).end == Panic <==> exists pre, text, post :: HoldsPanic(s, pre, text, post)
  {
    hide SectionsFrom, ParseField, Find;
    if SectionsFrom(s, 0).end == Panic {
      var m := StopsSomewhere(s, 0, Panic);
      var k := Find(s, m + 1, '}');
      TextOfField(s, m, k);
      ArrivesIff(s, 0, m, s[..m]);
      FieldPanicsIff(s[m + 1..k]);
      assert HoldsPanic(s, s[..m], s[m + 1..k], s[k + 1..]);
    }
    if pre, text, post :| HoldsPanic(s, pre, text, post) {
      OpensWith(s, pre, text, "}" + post);
      ArrivesIff(s, 0, |pre|, pre);
      ArrivesThere(s, 0, |pre|, SectionsFrom(s, 0).end);
      FieldPanicsIff(text);
      EndStep(s, |pre|, SectionsFrom(s, |pre|).end);
    }
  }

  /** Parse is an error if and only if a field is left open after a part that is a format itself. */
  lemma {:induction false} ErrorIff(s: string)
    ensures SectionsFrom(s, 0).end == Error <==> exists pre, text :: HoldsOpen(s, pre, text)
  {
    hide SectionsFrom, ParseField, Find;
    if SectionsFrom(s, 0).end == Error {
      var m := StopsSomewhere(s, 0, Error);
      TextOfField(s, m, |s|);
      ArrivesIff(s, 0, m, s[..m]);
      assert s[m + 1..|s|] + s[|s|..] == s[m + 1..|s|];
      assert HoldsOpen(s, s[..m], s[m + 1..|s|]);
    }
    if pre, text :| HoldsOpen(s, pre, text) {
      assert text + "" == text;
      OpensWith(s, pre, text, "");
      ArrivesIff(s, 0, |pre|, pre);
      ArrivesThere(s, 0, |pre|, SectionsFrom(s, 0).end);
      EndStep(s, |pre|, SectionsFrom(s, |pre|).end);
    }
  }

  /** {call()} panics. */
  lemma {:induction false} CallPanics()
    ensures SectionsFrom("{call()}", 0).end == Panic
  {
    var text := "call()";
    FindsAt(text, 0, ':', 6);
    assert text[..6] == text && text[4..] == PARENS;
    assert "{call()}" == "" + ("{" + (text + ("}" + "")));
    EndStep("", 0, SectionsFrom("", 0).end);
    assert HoldsPanic("{call()}", "", text, "");
    PanicIff("{call()}");
  }
}
