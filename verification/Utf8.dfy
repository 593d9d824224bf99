/** UTF-8 as Go's unicode/utf8 reads and writes it, one rune at a time. */
module Utf8 {
  type Byte = x: int | 0 <= x < 256

  /** utf8.RuneError: what an invalid sequence decodes to; also an ordinary code point. */
  const ERROR := 0xFFFD

  datatype Rune = Rune(code: int, width: nat)

  predicate IsTail(b: Byte) {
    0x80 <= b < 0xC0
  }

  /** The bytes a second byte may take after a first one: no overlong form, no surrogate,
      nothing beyond the last code point. */
  predicate IsSecond(first: Byte, b: Byte) {
    && IsTail(b)
    && (first == 0xE0 ==> b >= 0xA0)
    && (first == 0xED ==> b < 0xA0)
    && (first == 0xF0 ==> b >= 0x90)
    && (first == 0xF4 ==> b < 0x90)
  }

  /** How many bytes a sequence takes from its first byte, 0 if none starts there. */
  function Length(first: Byte): nat {
    if first < 0x80 then 1
    else if first < 0xC2 then 0
    else if first < 0xE0 then 2
    else if first < 0xF0 then 3
    else if first < 0xF5 then 4
    else 0
  }

  /** utf8.DecodeRuneInString(s[i:]). */
  function DecodeRune(s: seq<Byte>, i: nat): (r: Rune)
    ensures r.width <= 4 && (i < |s| ==> 0 < r.width && i + r.width <= |s|)
    ensures i < |s| && s[i] < 0x80 ==> r == Rune(s[i], 1)
    ensures r.code < 0x80 ==> i < |s| && r == Rune(s[i], 1)
  {
    if i >= |s| then Rune(ERROR, 0)
    else if s[i] < 0x80 then Rune(s[i], 1)
    else
      var n := Length(s[i]);
      if n == 0 || i + n > |s| || !IsSecond(s[i], s[i + 1]) then Rune(ERROR, 1)
      else if n == 2 then Rune(Code2(s[i], s[i + 1]), 2)
      else if !IsTail(s[i + 2]) then Rune(ERROR, 1)
      else if n == 3 then Rune(Code3(s[i], s[i + 1], s[i + 2]), 3)
      else if !IsTail(s[i + 3]) then Rune(ERROR, 1)
      else Rune(Code4(s[i], s[i + 1], s[i + 2], s[i + 3]), 4)
  }

  function Code2(a: int, b: int): int {
    (a - 0xC0) * 0x40 + (b - 0x80)
  }

  function Code3(a: int, b: int, c: int): int {
    (a - 0xE0) * 0x1000 + (b - 0x80) * 0x40 + (c - 0x80)
  }

  function Code4(a: int, b: int, c: int, d: int): int {
    (a - 0xF0) * 0x40000 + (b - 0x80) * 0x1000 + (c - 0x80) * 0x40 + (d - 0x80)
  }

  /** bytes.Buffer.WriteRune. */
  function EncodeRune(code: int): seq<Byte>
    requires 0 <= code < 0x110000
  {
    if code < 0x80 then [code]
    else if code < 0x800 then [0xC0 + code / 0x40, 0x80 + code % 0x40]
    else if code < 0x10000 then [0xE0 + code / 0x1000, 0x80 + code / 0x40 % 0x40, 0x80 + code % 0x40]
    else [0xF0 + code / 0x40000, 0x80 + code / 0x1000 % 0x40, 0x80 + code / 0x40 % 0x40, 0x80 + code % 0x40]
  }

  /** A rune is read at i. */
  predicate Reads(s: seq<Byte>, i: nat) {
    DecodeRune(s, i).code != ERROR
  }

  lemma {:induction false} Writes2(a: Byte, b: Byte)
    requires Length(a) == 2 && IsSecond(a, b)
    ensures 0x80 <= Code2(a, b) < 0x800 && EncodeRune(Code2(a, b)) == [a, b]
  {
  }

  lemma {:induction false} Writes3(a: Byte, b: Byte, c: Byte)
    requires Length(a) == 3 && IsSecond(a, b) && IsTail(c)
    ensures 0x800 <= Code3(a, b, c) < 0x10000 && EncodeRune(Code3(a, b, c)) == [a, b, c]
  {
    var code := Code3(a, b, c);
    assert code / 0x40 == (a - 0xE0) * 0x40 + (b - 0x80) && code % 0x40 == c - 0x80;
    assert code / 0x1000 == a - 0xE0;
  }

  lemma {:induction false} Writes4(a: Byte, b: Byte, c: Byte, d: Byte)
    requires Length(a) == 4 && IsSecond(a, b) && IsTail(c) && IsTail(d)
    ensures 0x10000 <= Code4(a, b, c, d) < 0x110000 && EncodeRune(Code4(a, b, c, d)) == [a, b, c, d]
  {
    var code := Code4(a, b, c, d);
    Digits4(a - 0xF0, b - 0x80, c - 0x80, d - 0x80, code);
  }

  lemma {:induction false} Digits4(a: nat, b: nat, c: nat, d: nat, code: nat)
    requires b < 0x40 && c < 0x40 && d < 0x40 && code == a * 0x40000 + b * 0x1000 + c * 0x40 + d
    ensures code % 0x40 == d && code / 0x40 % 0x40 == c && code / 0x1000 % 0x40 == b && code / 0x40000 == a
  {
    assert code / 0x40 == a * 0x1000 + b * 0x40 + c;
    assert code / 0x1000 == a * 0x40 + b;
  }

  /** What is read is written back as it was. */
  lemma {:induction false} WriteBack(s: seq<Byte>, i: nat)
    requires i <= |s| && Reads(s, i)
    ensures var r := DecodeRune(s, i);
            && 0 < r.width && i + r.width <= |s| && 0 <= r.code < 0x110000
            && EncodeRune(r.code) == s[i..i + r.width]
            && forall j :: i <= j < i + r.width && r.code >= 0x80 ==> s[j] >= 0x80
  {
    if s[i] >= 0x80 {
      var n := Length(s[i]);
      if n == 2 {
        Writes2(s[i], s[i + 1]);
      } else if n == 3 {
        Writes3(s[i], s[i + 1], s[i + 2]);
      } else {
        Writes4(s[i], s[i + 1], s[i + 2], s[i + 3]);
      }
    }
  }

  /** A rune depends on its own bytes only. */
  lemma {:induction false} SameRune(s: seq<Byte>, i: nat, t: seq<Byte>, j: nat)
    requires i <= |s| && Reads(s, i) && j + DecodeRune(s, i).width <= |t|
    requires t[j..j + DecodeRune(s, i).width] == s[i..i + DecodeRune(s, i).width]
    ensures DecodeRune(t, j) == DecodeRune(s, i)
  {
    var a, b := s[i..i + DecodeRune(s, i).width], t[j..j + DecodeRune(s, i).width];
    assert a[0] == b[0];
    if s[i] >= 0x80 {
      assert a[1] == b[1];
      if Length(s[i]) >= 3 { assert a[2] == b[2]; }
      if Length(s[i]) == 4 { assert a[3] == b[3]; }
    }
  }

  // Text

  /** Runes one after the other from i on, none of them U+FFFD. */
  ghost predicate IsTextFrom(s: seq<Byte>, i: nat)
    decreases |s| - i
  {
    i == |s| || (i < |s| && Reads(s, i) && IsTextFrom(s, i + DecodeRune(s, i).width))
  }

  ghost predicate IsText(s: seq<Byte>) {
    IsTextFrom(s, 0)
  }

  lemma {:induction false} TextSnoc(s: seq<Byte>, i: nat, t: seq<Byte>)
    requires i <= |s| && IsTextFrom(s, i) && t != [] && Reads(t, 0) && DecodeRune(t, 0).width == |t|
    ensures IsTextFrom(s + t, i)
    decreases |s| - i
  {
    var u := s + t;
    if i < |s| {
      SameRune(s, i, u, i);
      TextSnoc(s, i + DecodeRune(s, i).width, t);
    } else {
      SameRune(t, 0, u, i);
    }
  }

  // Texts inside texts

  /** s continues with text at pos. */
  predicate At(s: seq<Byte>, pos: nat, text: seq<Byte>) {
    pos + |text| <= |s| && forall i :: 0 <= i < |text| ==> s[pos + i] == text[i]
  }

  lemma {:induction false} AtConcat(s: seq<Byte>, pos: nat, a: seq<Byte>, b: seq<Byte>)
    ensures At(s, pos, a + b) <==> At(s, pos, a) && At(s, pos + |a|, b)
  {
    if At(s, pos, a + b) {
      forall i | 0 <= i < |a| ensures s[pos + i] == a[i] { assert (a + b)[i] == a[i]; }
      forall i | 0 <= i < |b| ensures s[pos + |a| + i] == b[i] { assert (a + b)[|a| + i] == b[i]; }
    }
  }

  lemma {:induction false} HeadStands(s: seq<Byte>, p: nat, head: Byte, rest: seq<Byte>)
    requires At(s, p, [head] + rest)
    ensures p < |s| && s[p] == head && At(s, p + 1, rest)
  {
    AtConcat(s, p, [head], rest);
    assert s[p + 0] == [head][0];
  }
}
