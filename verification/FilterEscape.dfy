/** Escaping of filter values (EscapeFilter, ldap.go; decodeEscapedSymbols, filter.go). */
module FilterEscape {
  import opened Collections
  import opened Utf8

  const BACKSLASH: Byte := 0x5C

  predicate MustEscape(c: Byte) {
    c > 0x7F || c == '(' as int || c == ')' as int || c == BACKSLASH || c == '*' as int || c == 0
  }

  function HexDigit(n: int): (b: Byte)
    requires 0 <= n < 16
    ensures b < 0x80 && !MustEscape(b) && FromHex(b) == Some(n)
  {
    if n < 10 then '0' as int + n else 'a' as int + n - 10
  }

  function FromHex(b: Byte): Option<int> {
    if '0' as int <= b <= '9' as int then Some(b - '0' as int)
    else if 'a' as int <= b <= 'f' as int then Some(b - 'a' as int + 10)
    else if 'A' as int <= b <= 'F' as int then Some(b - 'A' as int + 10)
    else None
  }

  function EscapeByte(c: Byte): seq<Byte> {
    if MustEscape(c) then [BACKSLASH, HexDigit(c / 16), HexDigit(c % 16)] else [c]
  }

  function EscapeFrom(v: seq<Byte>, i: nat): seq<Byte>
    requires i <= |v|
    decreases |v| - i
  {
    if i == |v| then [] else EscapeByte(v[i]) + EscapeFrom(v, i + 1)
  }

  function Escape(v: seq<Byte>): seq<Byte> {
    EscapeFrom(v, 0)
  }

  /** How many bytes need an escape, from i on. */
  function EscapesFrom(v: seq<Byte>, i: nat): nat
    requires i <= |v|
    decreases |v| - i
  {
    if i == |v| then 0 else (if MustEscape(v[i]) then 1 else 0) + EscapesFrom(v, i + 1)
  }

  lemma {:induction false} EscapeLength(v: seq<Byte>, i: nat)
    requires i <= |v|
    ensures |EscapeFrom(v, i)| == |v| - i + 2 * EscapesFrom(v, i)
    ensures EscapesFrom(v, i) == 0 ==> EscapeFrom(v, i) == v[i..]
    decreases |v| - i
  {
    if i < |v| { EscapeLength(v, i + 1); }
  }

  /** EscapeFilter: the escapes are counted first, and the text fills the buffer exactly. */
  method EscapeFilter(v: seq<Byte>) returns (out: seq<Byte>)
    ensures out == Escape(v)
  {
    var escape := 0;
    for i := 0 to |v|
      invariant escape + EscapesFrom(v, i) == EscapesFrom(v, 0)
    {
      if MustEscape(v[i]) { escape := escape + 1; }
    }
    EscapeLength(v, 0);
    if escape == 0 { return v; }
    var buf := new Byte[|v| + escape * 2];
    Fill(v, buf);
    out := buf[..];
  }

  method Fill(v: seq<Byte>, buf: array<Byte>)
    requires buf.Length == |Escape(v)|
    modifies buf
    ensures buf[..] == Escape(v)
  {
    var j := 0;
    for i := 0 to |v|
      invariant j + |EscapeFrom(v, i)| == buf.Length
      invariant buf[..j] + EscapeFrom(v, i) == Escape(v)
    {
      ghost var before := buf[..j];
      j := Write(buf, j, v[i]);
      assert buf[..j] + EscapeFrom(v, i + 1) == before + (EscapeByte(v[i]) + EscapeFrom(v, i + 1));
    }
    assert buf[..j] == buf[..];
  }

  method Write(buf: array<Byte>, j: nat, c: Byte) returns (next: nat)
    requires j + |EscapeByte(c)| <= buf.Length
    modifies buf
    ensures next == j + |EscapeByte(c)|
    ensures buf[..next] == old(buf[..j]) + EscapeByte(c)
  {
    if MustEscape(c) {
      buf[j], buf[j + 1], buf[j + 2] := BACKSLASH, HexDigit(c / 16), HexDigit(c % 16);
      next := j + 3;
    } else {
      buf[j] := c;
      next := j + 1;
    }
  }

  /** The rest of an escaped text, from i on; None is a bad rune or a bad escape. */
  function UnescapeFrom(src: seq<Byte>, i: nat): (v: Option<seq<Byte>>)
    requires i <= |src|
    decreases |src| - i
  {
    if i == |src| then Some([])
    else if !Reads(src, i) then None
    else
      var r := DecodeRune(src, i);
      if r.code != BACKSLASH then
        WriteBack(src, i);
        Prepend(EncodeRune(r.code), UnescapeFrom(src, i + r.width))
      else if i + 3 > |src| then None
      else
        match (FromHex(src[i + 1]), FromHex(src[i + 2]))
        case (Some(high), Some(low)) => Prepend([high * 16 + low], UnescapeFrom(src, i + 3))
        case _ => None
  }

  function Prepend(head: seq<Byte>, tail: Option<seq<Byte>>): Option<seq<Byte>> {
    if tail.Some? then Some(head + tail.value) else None
  }

  function Unescape(src: seq<Byte>): Option<seq<Byte>> {
    UnescapeFrom(src, 0)
  }

  lemma {:induction false} PrependNothing(rest: Option<seq<Byte>>)
    ensures Prepend([], rest) == rest
  {
    if rest.Some? { assert [] + rest.value == rest.value; }
  }

  lemma {:induction false} PrependTwice(a: seq<Byte>, b: seq<Byte>, rest: Option<seq<Byte>>)
    ensures Prepend(a + b, rest) == Prepend(a, Prepend(b, rest))
  {
    if rest.Some? { assert (a + b) + rest.value == a + (b + rest.value); }
  }

  /** decodeEscapedSymbols. */
  method DecodeEscapedSymbols(src: seq<Byte>) returns (v: Option<seq<Byte>>)
    ensures v == Unescape(src)
  {
    hide DecodeRune;
    var offset := 0;
    var buffer: seq<Byte> := [];
    PrependNothing(Unescape(src));
    while offset < |src|
      invariant offset <= |src| && Unescape(src) == Prepend(buffer, UnescapeFrom(src, offset))
    {
      var r := DecodeRune(src, offset);
      if r.code == ERROR { return None; }
      WriteBack(src, offset);
      if r.code == BACKSLASH {
        if offset + 3 > |src| { return None; }
        var high, low := FromHex(src[offset + 1]), FromHex(src[offset + 2]);
        if high.None? || low.None? { return None; }
        PrependTwice(buffer, [high.value * 16 + low.value], UnescapeFrom(src, offset + 3));
        buffer := buffer + [high.value * 16 + low.value];
        offset := offset + 3;
      } else {
        PrependTwice(buffer, EncodeRune(r.code), UnescapeFrom(src, offset + r.width));
        buffer := buffer + EncodeRune(r.code);
        offset := offset + r.width;
      }
    }
    assert buffer + [] == buffer;
    v := Some(buffer);
  }

  // Round trip

  lemma {:induction false} UnescapeRest(src: seq<Byte>, at: nat, v: seq<Byte>, i: nat)
    requires i <= |v| && at <= |src| && src[at..] == EscapeFrom(v, i)
    ensures UnescapeFrom(src, at) == Some(v[i..])
    decreases |v| - i
  {
    if i == |v| {
      assert |src[at..]| == 0;
    } else {
      OneUnescaped(src, at, v[i], EscapeFrom(v, i + 1));
      UnescapeRest(src, at + |EscapeByte(v[i])|, v, i + 1);
      assert v[i..] == [v[i]] + v[i + 1..];
    }
  }

  lemma {:induction false} OneUnescaped(src: seq<Byte>, at: nat, c: Byte, rest: seq<Byte>)
    requires at <= |src| && src[at..] == EscapeByte(c) + rest
    ensures at + |EscapeByte(c)| <= |src| && src[at + |EscapeByte(c)|..] == rest
    ensures UnescapeFrom(src, at) == Prepend([c], UnescapeFrom(src, at + |EscapeByte(c)|))
  {
    assert src[at] == src[at..][0];
    if MustEscape(c) {
      assert src[at + 1] == src[at..][1] && src[at + 2] == src[at..][2];
    }
  }

  /** Any bytes at all survive escaping and unescaping. */
  lemma {:induction false} UnescapeEscape(v: seq<Byte>)
    ensures Unescape(Escape(v)) == Some(v)
  {
    UnescapeRest(Escape(v), 0, v, 0);
    assert v[0..] == v;
  }

  /** Escaped text is ASCII and free of the characters filters are made of. */
  predicate IsClean(b: Byte) {
    0 < b < 0x80 && b != '(' as int && b != ')' as int && b != '*' as int
  }

  lemma {:induction false} EscapeIsClean(v: seq<Byte>, i: nat)
    requires i <= |v|
    ensures forall k :: 0 <= k < |EscapeFrom(v, i)| ==> IsClean(EscapeFrom(v, i)[k])
    ensures EscapeFrom(v, i) == [] <==> i == |v|
    decreases |v| - i
  {
    if i < |v| { EscapeIsClean(v, i + 1); }
  }

  /** Non-empty text decodes to non-empty bytes. */
  lemma {:induction false} UnescapeNonEmpty(src: seq<Byte>)
    requires src != [] && Unescape(src).Some?
    ensures Unescape(src).value != []
  {
  }
}
