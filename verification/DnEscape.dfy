/** Escaping in distinguished names (encodeString, decodeString; partialvendor/go-ldap/dn.go),
    section 2.4 of RFC 4514. */
module DnEscape {
  import opened Collections
  import opened Utf8
  import opened FilterEscape

  const SPACE: Byte := ' ' as int
  const SHARP: Byte := '#' as int
  const EQUALS: Byte := '=' as int

  /** Always escaped by a backslash. */
  predicate IsSpecial(c: Byte) {
    c == '"' as int || c == '+' as int || c == ',' as int || c == ';' as int || c == '<' as int || c == '>' as int || c == BACKSLASH
  }

  /** What decodeString takes as is after a backslash. */
  predicate IsEscapable(c: int) {
    c == ' ' as int || c == '"' as int || c == '#' as int || c == '+' as int || c == ',' as int || c == ';' as int
    || c == '<' as int || c == '=' as int || c == '>' as int || c == BACKSLASH
  }

  predicate EscapesByChar(v: seq<Byte>, i: nat, isValue: bool)
    requires i < |v|
  {
    || (i == 0 && (v[i] == SPACE || v[i] == SHARP))
    || (i == |v| - 1 && v[i] == SPACE)
    || IsSpecial(v[i])
    || (!isValue && v[i] == EQUALS)
  }

  /** How the i-th byte is written. */
  function Unit(v: seq<Byte>, i: nat, isValue: bool): (u: seq<Byte>)
    requires i < |v|
    ensures 0 < |u| <= 3
  {
    if EscapesByChar(v, i, isValue) then [BACKSLASH, v[i]]
    else if v[i] < SPACE || v[i] > '~' as int then [BACKSLASH, HexDigit(v[i] / 16), HexDigit(v[i] % 16)]
    else [v[i]]
  }

  function EncodeFrom(v: seq<Byte>, i: nat, isValue: bool): seq<Byte>
    requires i <= |v|
    decreases |v| - i
  {
    if i == |v| then [] else Unit(v, i, isValue) + EncodeFrom(v, i + 1, isValue)
  }

  function Encode(v: seq<Byte>, isValue: bool): seq<Byte> {
    EncodeFrom(v, 0, isValue)
  }

  /** encodeString. */
  method EncodeString(v: seq<Byte>, isValue: bool) returns (out: seq<Byte>)
    ensures out == Encode(v, isValue)
  {
    out := [];
    for i := 0 to |v|
      invariant out + EncodeFrom(v, i, isValue) == Encode(v, isValue)
    {
      var unit := EncodeByte(v, i, isValue);
      Regroup(out, unit, EncodeFrom(v, i + 1, isValue));
      out := out + unit;
    }
  }

  lemma {:induction false} Regroup(a: seq<Byte>, b: seq<Byte>, c: seq<Byte>)
    ensures a + (b + c) == a + b + c
  {
  }

  method EncodeByte(v: seq<Byte>, i: nat, isValue: bool) returns (unit: seq<Byte>)
    requires i < |v|
    ensures unit == Unit(v, i, isValue)
  {
    var c := v[i];
    if i == 0 && (c == SPACE || c == SHARP) {
      return [BACKSLASH, c];
    }
    if i == |v| - 1 && c == SPACE {
      return [BACKSLASH, c];
    }
    if c in ['"' as int, '+' as int, ',' as int, ';' as int, '<' as int, '>' as int, BACKSLASH] {
      return [BACKSLASH, c];
    }
    if !isValue && c == EQUALS {
      return [BACKSLASH, c];
    }
    if c < SPACE || c > '~' as int {
      return [BACKSLASH, HexDigit(c / 16), HexDigit(c % 16)];
    }
    unit := [c];
  }

  // Decoding

  /** The first position from i on that is not a space. */
  function SkipSpaces(s: seq<Byte>, i: nat): (j: nat)
    requires i <= |s|
    ensures i <= j <= |s|
    decreases |s| - i
  {
    if i < |s| && s[i] == SPACE then SkipSpaces(s, i + 1) else i
  }

  /** The end of what is left of s[from..j] without trailing spaces. */
  function DropSpaces(s: seq<Byte>, from: nat, j: nat): (k: nat)
    requires from <= j <= |s|
    ensures from <= k <= j
    decreases j
  {
    if from < j && s[j - 1] == SPACE then DropSpaces(s, from, j - 1) else j
  }

  /** stripLeadingAndTrailingSpaces: a space after a trailing backslash is put back. */
  function Strip(s: seq<Byte>): seq<Byte> {
    var from := SkipSpaces(s, 0);
    var noSpaces := s[from..DropSpaces(s, from, |s|)];
    if noSpaces != [] && noSpaces[|noSpaces| - 1] == BACKSLASH && s[|s| - 1] == SPACE then noSpaces + [SPACE] else noSpaces
  }

  /** A rune as []rune sees it: U+FFFD for an invalid byte. */
  function RuneBytes(s: seq<Byte>, i: nat): seq<Byte>
    requires i < |s|
  {
    if Reads(s, i) then
      WriteBack(s, i);
      EncodeRune(DecodeRune(s, i).code)
    else EncodeRune(ERROR)
  }

  /** The rest of a stripped text, from i on; None is a corrupted escape. */
  function DecodeFrom(s: seq<Byte>, i: nat): Option<seq<Byte>>
    requires i <= |s|
    decreases |s| - i
  {
    if i == |s| then Some([])
    else if s[i] != BACKSLASH then Prepend(RuneBytes(s, i), DecodeFrom(s, i + DecodeRune(s, i).width))
    else if i + 1 == |s| then None
    else if IsEscapable(s[i + 1]) then Prepend([s[i + 1]], DecodeFrom(s, i + 2))
    else if i + 2 >= |s| then None
    else
      match (FromHex(s[i + 1]), FromHex(s[i + 2]))
      case (Some(high), Some(low)) => Prepend([high * 16 + low], DecodeFrom(s, i + 3))
      case _ => None
  }

  function Decode(s: seq<Byte>): Option<seq<Byte>> {
    DecodeFrom(Strip(s), 0)
  }

  /** decodeString. */
  method DecodeString(str: seq<Byte>) returns (out: Option<seq<Byte>>)
    ensures out == Decode(str)
  {
    hide SkipSpaces, Strip, DecodeRune, EncodeRune;
    var s := Strip(str);
    var i := 0;
    var builder: seq<Byte> := [];
    PrependNothing(DecodeFrom(s, 0));
    while i < |s|
      invariant 0 <= i <= |s| && Decode(str) == Prepend(builder, DecodeFrom(s, i))
    {
      if s[i] != BACKSLASH {
        var r := DecodeRune(s, i);
        PrependTwice(builder, RuneBytes(s, i), DecodeFrom(s, i + r.width));
        if Reads(s, i) { WriteBack(s, i); }
        builder := builder + EncodeRune(r.code);
        i := i + r.width;
        continue;
      }
      if i + 1 >= |s| { return None; }
      if s[i + 1] in [' ' as int, '"' as int, '#' as int, '+' as int, ',' as int, ';' as int, '<' as int, '=' as int, '>' as int, BACKSLASH] {
        PrependTwice(builder, [s[i + 1]], DecodeFrom(s, i + 2));
        builder := builder + [s[i + 1]];
        i := i + 2;
        continue;
      }
      if i + 2 >= |s| { return None; }
      var high, low := FromHex(s[i + 1]), FromHex(s[i + 2]);
      if high.None? || low.None? { return None; }
      PrependTwice(builder, [high.value * 16 + low.value], DecodeFrom(s, i + 3));
      builder := builder + [high.value * 16 + low.value];
      i := i + 3;
    }
    assert builder + [] == builder;
    out := Some(builder);
  }

  // Round trip

  lemma {:induction false} OneDecoded(s: seq<Byte>, at: nat, v: seq<Byte>, i: nat, isValue: bool, rest: seq<Byte>)
    requires i < |v| && at <= |s| && s[at..] == Unit(v, i, isValue) + rest
    ensures var n := |Unit(v, i, isValue)|;
            at + n <= |s| && s[at + n..] == rest && DecodeFrom(s, at) == Prepend([v[i]], DecodeFrom(s, at + n))
  {
    var u := Unit(v, i, isValue);
    assert s[at] == s[at..][0] == u[0];
    if |u| > 1 { assert s[at + 1] == s[at..][1] == u[1]; }
    if |u| > 2 { assert s[at + 2] == s[at..][2] == u[2]; }
  }

  lemma {:induction false} DecodeRest(s: seq<Byte>, at: nat, v: seq<Byte>, i: nat, isValue: bool)
    requires i <= |v| && at <= |s| && s[at..] == EncodeFrom(v, i, isValue)
    ensures DecodeFrom(s, at) == Some(v[i..])
    decreases |v| - i
  {
    hide DecodeRune, Unit, RuneBytes, IsEscapable;
    if i == |v| {
      assert |s[at..]| == 0;
    } else {
      OneDecoded(s, at, v, i, isValue, EncodeFrom(v, i + 1, isValue));
      DecodeRest(s, at + |Unit(v, i, isValue)|, v, i + 1, isValue);
      assert v[i..] == [v[i]] + v[i + 1..];
    }
  }

  lemma {:induction false} SuffixStays(a: seq<Byte>, e: seq<Byte>, u: seq<Byte>)
    requires |u| <= |e| && e[|e| - |u|..] == u
    ensures (a + e)[|a + e| - |u|..] == u
  {
    assert (a + e)[|a + e| - |u|..] == e[|e| - |u|..];
  }

  /** Encoded text ends with the unit of the last byte. */
  lemma {:induction false} EndsWithUnit(v: seq<Byte>, i: nat, isValue: bool)
    requires i < |v|
    ensures var e, u := EncodeFrom(v, i, isValue), Unit(v, |v| - 1, isValue);
            |u| <= |e| && e[|e| - |u|..] == u
    decreases |v| - i
  {
    hide Unit;
    if i < |v| - 1 {
      EndsWithUnit(v, i + 1, isValue);
      SuffixStays(Unit(v, i, isValue), EncodeFrom(v, i + 1, isValue), Unit(v, |v| - 1, isValue));
    } else {
      assert EncodeFrom(v, i, isValue) == Unit(v, i, isValue);
    }
  }

  /** Stripping leaves encoded text alone: its outer spaces are escaped. */
  lemma {:induction false} StripKeeps(v: seq<Byte>, isValue: bool)
    ensures Strip(Encode(v, isValue)) == Encode(v, isValue)
  {
    var e := Encode(v, isValue);
    if v != [] {
      var u := Unit(v, |v| - 1, isValue);
      EndsWithUnit(v, 0, isValue);
      UnitEnds(v, isValue);
      assert e[0] == Unit(v, 0, isValue)[0];
      StripKeepsText(e, u);
    }
  }

  /** A unit starts with no space, and the last one ends with none that is not escaped. */
  lemma {:induction false} UnitEnds(v: seq<Byte>, isValue: bool)
    requires v != []
    ensures Unit(v, 0, isValue)[0] != SPACE
    ensures var u := Unit(v, |v| - 1, isValue); u[|u| - 1] == SPACE ==> u == [BACKSLASH, SPACE]
  {
  }

  lemma {:induction false} StripKeepsText(e: seq<Byte>, u: seq<Byte>)
    requires e != [] && e[0] != SPACE && 0 < |u| <= |e| && e[|e| - |u|..] == u
    requires u[|u| - 1] == SPACE ==> u == [BACKSLASH, SPACE]
    ensures Strip(e) == e
  {
    assert e[|e| - 1] == e[|e| - |u|..][|u| - 1] == u[|u| - 1];
    if e[|e| - 1] == SPACE {
      assert e[|e| - 2] == e[|e| - |u|..][0] == BACKSLASH;
      assert DropSpaces(e, 0, |e| - 1) == |e| - 1;
      assert e == e[..|e| - 1] + [SPACE];
    } else {
      assert e[0..|e|] == e;
    }
  }

  /** Any bytes at all survive encoding and decoding, as a type or as a value. */
  lemma {:induction false} DecodeEncode(v: seq<Byte>, isValue: bool)
    ensures Decode(Encode(v, isValue)) == Some(v)
  {
    StripKeeps(v, isValue);
    DecodeRest(Encode(v, isValue), 0, v, 0, isValue);
    assert v[0..] == v;
  }
}
