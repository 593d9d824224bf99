/** ASN.1 length octets (partialvendor/gokrb5/asn1tools/tools.go), section 8.1.3 of X.690. */
module Asn1Length {
  import opened Collections
  import opened Utf8

  // Go's int: 64 bits that wrap around

  const RANGE := 0x1_0000_0000_0000_0000

  function Wrap(x: int): (y: int)
    ensures 0 - RANGE / 2 <= y < RANGE / 2
    ensures 0 - RANGE / 2 <= x < RANGE / 2 ==> y == x
  {
    (x + RANGE / 2) % RANGE - RANGE / 2
  }

  lemma {:induction false} WrapTimes(x: int, k: int)
    ensures Wrap(x + RANGE * k) == Wrap(x)
  {
    var y := x + RANGE / 2;
    assert (y + RANGE * k) % RANGE == y % RANGE;
  }

  lemma {:induction false} Unwrap(x: int) returns (k: int)
    ensures Wrap(x) == x + RANGE * k
  {
    k := 0 - (x + RANGE / 2) / RANGE;
  }

  lemma {:induction false} TimesRange(d: int, x: int, j: int)
    ensures d * (x + RANGE * j) == d * x + RANGE * (d * j)
  {
    assert d * (x + RANGE * j) == d * x + d * (RANGE * j);
    assert d * (RANGE * j) == RANGE * (d * j);
  }

  lemma {:induction false} WrapTwo(a: int, b: int)
    ensures Wrap(Wrap(a) + Wrap(b)) == Wrap(a + b)
  {
    var k := Unwrap(a);
    var i := Unwrap(b);
    WrapTimes(a + b, k + i);
  }

  lemma {:induction false} WrapProduct(d: int, x: int)
    ensures Wrap(d * Wrap(x)) == Wrap(d * x)
  {
    var j := Unwrap(x);
    TimesRange(d, x, j);
    WrapTimes(d * x, d * j);
  }

  /** Wrapping at each step is wrapping once at the end. */
  lemma {:induction false} WrapSum(a: int, d: int, x: int)
    ensures Wrap(Wrap(a) + Wrap(d * Wrap(x))) == Wrap(a + d * x)
  {
    WrapProduct(d, x);
    WrapTwo(a, d * x);
  }

  // Numbers in base 256

  function Pow256(k: nat): (p: nat)
    ensures p > 0
  {
    if k == 0 then 1 else 256 * Pow256(k - 1)
  }

  function Scale(d: nat, k: nat): nat {
    d * Pow256(k)
  }

  lemma {:induction false} ScaleFits(d: Byte, k: nat)
    ensures Scale(d, k) + Pow256(k) <= Pow256(k + 1)
    ensures d > 0 ==> Scale(d, k) >= Pow256(k)
  {
    assert (d + 1) * Pow256(k) <= 256 * Pow256(k);
  }

  function Number(b: seq<Byte>): nat {
    if b == [] then 0 else Scale(b[0], |b| - 1) + Number(b[1..])
  }

  lemma {:induction false} NumberFits(b: seq<Byte>)
    ensures Number(b) < Pow256(|b|)
  {
    if b != [] {
      NumberFits(b[1..]);
      ScaleFits(b[0], |b| - 1);
    }
  }

  lemma {:induction false} PowGrows(j: nat, k: nat)
    requires j <= k
    ensures Pow256(j) <= Pow256(k)
  {
    if j < k { PowGrows(j, k - 1); }
  }

  lemma {:induction false} Pow7()
    ensures Pow256(7) == 0x100_0000_0000_0000
  {
    assert Pow256(3) == 0x100_0000;
    assert Pow256(5) == 0x100_0000_0000;
  }

  lemma {:induction false} OneQuotient(m: nat, a: int, b: int, r: nat, s: nat)
    requires r < m && s < m && m * a + r == m * b + s
    ensures a == b && r == s
  {
    assert m * a - m * b == m * (a - b);
    assert a - b >= 1 ==> m * (a - b) >= m;
    assert b - a >= 1 ==> m * (b - a) >= m;
  }

  lemma {:induction false} Division(x: int, m: nat, q: int, r: nat)
    requires r < m && x == m * q + r
    ensures x % m == r && x / m == q
  {
    OneQuotient(m, x / m, q, x % m, r);
  }

  lemma {:induction false} QuotientIsNat(x: nat, m: nat)
    requires m > 0
    ensures x / m >= 0
  {
    var q, r := x / m, x % m;
    assert x == m * q + r;
    assert q <= -1 ==> m * q <= 0 - m;
  }

  /** l without its lowest k octets. */
  function Above(l: nat, k: nat): nat {
    QuotientIsNat(l, Pow256(k));
    l / Pow256(k)
  }

  /** l with its lowest k octets cleared. */
  function Left(l: nat, k: nat): nat {
    Scale(Above(l, k), k)
  }

  /** Octet k of l. */
  function Octet(l: nat, k: nat): Byte {
    Above(l, k) % 256
  }

  lemma {:induction false} LeftIs(l: nat, k: nat)
    ensures Left(l, k) == l - l % Pow256(k)
    ensures Left(l, k) > 0 <==> l >= Pow256(k)
  {
    hide Pow256;
    var p := Pow256(k);
    if l < p { Division(l, p, 0, l); }
    assert l / p >= 1 ==> l / p * p >= p;
  }

  lemma {:induction false} Regroup(p: nat, n: nat, d: nat)
    ensures (256 * n + d) * p == (256 * p) * n + d * p == n * (256 * p) + d * p
  {
    assert (256 * n) * p == (256 * p) * n;
  }

  /** One octet more. */
  lemma {:induction false} AboveStep(l: nat, k: nat)
    ensures Above(l, k + 1) == Above(l, k) / 256
  {
    var p, n, d := Pow256(k), Above(l, k) / 256, Octet(l, k);
    Regroup(p, n, d);
    ScaleFits(d, k);
    assert l == Above(l, k) * p + l % p;
    Division(l, 256 * p, n, d * p + l % p);
  }

  lemma {:induction false} LeftStep(l: nat, k: nat)
    ensures Left(l, k) == Left(l, k + 1) + Scale(Octet(l, k), k)
    ensures Left(l, k) % Pow256(k + 1) == Scale(Octet(l, k), k)
  {
    var p, n, d := Pow256(k), Above(l, k) / 256, Octet(l, k);
    Regroup(p, n, d);
    ScaleFits(d, k);
    AboveStep(l, k);
    Division(Left(l, k), 256 * p, n, Scale(d, k));
  }

  /** The octet the loop computes from what the lower octets left. */
  lemma {:induction false} OctetIs(l: nat, k: nat)
    ensures Left(l, k) % Pow256(k + 1) / Pow256(k) == Octet(l, k)
  {
    LeftStep(l, k);
    var p, d := Pow256(k), Octet(l, k);
    assert Scale(d, k) == p * d + 0;
    Division(Scale(d, k), p, d, 0);
  }

  // Writing

  /** The long form: how many octets, then the number, without a leading zero. */
  predicate IsLongForm(l: nat, r: seq<Byte>) {
    && 2 <= |r| <= 8
    && r[0] == 127 + |r|
    && Number(r[1..]) == l
    && r[1] != 0
  }

  /** MarshalLengthBytes: None when p * 256 wraps around to zero and the division panics. */
  method MarshalLengthBytes(l: int) returns (r: Option<seq<Byte>>)
    requires 0 - RANGE / 2 <= l < RANGE / 2
    ensures r.None? <==> l >= 0x100_0000_0000_0000
    ensures l <= 127 ==> r == Some([l % 256])
    ensures 127 < l && r.Some? ==> IsLongForm(l, r.value)
  {
    if l <= 127 {
      return Some([l % 256]);
    }
    var b: seq<Byte> := [];
    var p := 1;
    var left := l;
    while true
      invariant |b| <= 7 && p == Pow256(|b|)
      invariant left == Left(l, |b|) > 0 && left + Number(b) == l
      decreases 7 - |b|
    {
      Overflows(l, |b|, p);
      if Wrap(p * 256) == 0 {
        return None;
      }
      OneOctet(l, |b|, p, left);
      b := Push(left % (p * 256) / p, b);
      p := p * 256;
      left := left - left % p;
      if left <= 0 {
        Leading(l, b);
        break;
      }
    }
    r := Some([128 + |b|] + b);
    assert r.value[1..] == b;
  }

  /** p * 256 wraps around to zero at the eighth octet. */
  lemma {:induction false} Overflows(l: nat, k: nat, p: nat)
    requires k <= 7 && p == Pow256(k) && Left(l, k) > 0
    ensures Wrap(p * 256) == if k == 7 then 0 else p * 256
    ensures k == 7 ==> l >= 0x100_0000_0000_0000
  {
    Pow7();
    LeftIs(l, k);
    if k < 7 { PowGrows(k + 1, 7); }
  }

  lemma {:induction false} OneOctet(l: nat, k: nat, p: nat, left: nat)
    requires k < 7 && p == Pow256(k) && left == Left(l, k) > 0
    ensures left % (p * 256) / p == Octet(l, k)
    ensures left - left % (p * 256) == Left(l, k + 1) == left - Scale(Octet(l, k), k)
    ensures p * 256 == Pow256(k + 1)
    ensures l >= Pow256(k)
    ensures Left(l, k + 1) <= 0 ==> l < 0x100_0000_0000_0000
  {
    OctetIs(l, k);
    LeftStep(l, k);
    LeftIs(l, k);
    LeftIs(l, k + 1);
    PowGrows(k + 1, 7);
    Pow7();
  }

  function Push(d: Byte, b: seq<Byte>): (r: seq<Byte>)
    ensures |r| == |b| + 1 && r[0] == d && Number(r) == Scale(d, |b|) + Number(b)
  {
    var r := [d] + b;
    assert r[1..] == b;
    r
  }

  /** The first octet of a number that needs all its octets. */
  lemma {:induction false} Leading(l: nat, b: seq<Byte>)
    requires b != [] && Number(b) == l >= Pow256(|b| - 1)
    ensures b[0] != 0
  {
    NumberFits(b[1..]);
  }

  // Reading

  function Int(b: Byte): int {
    b
  }

  /** GetLengthFromASN of a tag and what follows: None when an octet is missing and the slice
      panics. Otherwise the number, wrapped around to 64 bits. */
  method GetLengthFromASN(b: seq<Byte>) returns (r: Option<int>)
    ensures r.None? <==> |b| < 2 || |b| < Int(b[1]) - 126
    ensures r.Some? && b[1] <= 127 ==> r.value == b[1]
    ensures r.Some? && b[1] > 127 ==> r.value == Wrap(Number(b[2..Int(b[1]) - 126]))
  {
    hide Wrap;
    if |b| < 2 { return None; }
    if b[1] <= 127 { return Some(b[1]); }
    if Int(b[1]) - 126 > |b| { return None; }
    var lb := b[2..Int(b[1]) - 126];
    var base, l, i := 1, 0, |lb|;
    while i > 0
      invariant 0 <= i <= |lb|
      invariant l == Wrap(Number(lb[i..])) && base == Wrap(Pow256(|lb| - i))
    {
      i := i - 1;
      ghost var p, n := Pow256(|lb| - i - 1), Number(lb[i + 1..]);
      assert lb[i..][1..] == lb[i + 1..];
      WrapSum(n, Int(lb[i]), p);
      WrapSum(0, 256, p);
      l := Wrap(l + Wrap(Int(lb[i]) * base));
      base := Wrap(base * 256);
    }
    assert lb[0..] == lb;
    r := Some(l);
  }

  /** GetNumberBytesInLengthHeader. */
  function HeaderSize(b: seq<Byte>): int
    requires |b| >= 2
  {
    if b[1] <= 127 then 1 else Int(b[1]) - 127
  }

  /** What MarshalLengthBytes wrote, behind any tag and before anything, is read back. */
  method ReadBack(l: nat, tag: Byte, rest: seq<Byte>) returns (header: seq<Byte>, read: Option<int>)
    requires l < 0x100_0000_0000_0000
    ensures |header| >= 1 && HeaderSize([tag] + header + rest) == |header|
    ensures read == Some(l)
  {
    var r := MarshalLengthBytes(l);
    header := r.value;
    var b := [tag] + header + rest;
    assert b[1] == header[0];
    read := GetLengthFromASN(b);
    if l > 127 {
      assert b[2..Int(b[1]) - 126] == header[1..];
    }
  }

  /** No shorter string of octets has the value. */
  lemma {:induction false} LongFormIsShortest(l: nat, r: seq<Byte>, other: seq<Byte>)
    requires IsLongForm(l, r) && Number(other) == l
    ensures |other| >= |r| - 1
  {
    NumberFits(other);
    var b := r[1..];
    ScaleFits(b[0], |b| - 1);
    if |other| < |b| { PowGrows(|other|, |b| - 1); }
  }
}
