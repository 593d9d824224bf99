/** Bits of byte strings, most significant first (getBit, setBit; nfold.go). */
module Bits {
  import opened Utf8

  function Pow2(n: nat): (p: nat)
    ensures p > 0
  {
    if n == 0 then 1 else 2 * Pow2(n - 1)
  }

  /** x >> n. */
  function Shr(x: nat, n: nat): nat {
    if n == 0 then x else Shr(x / 2, n - 1)
  }

  /** x >> n & 1. */
  function Low(x: nat, n: nat): (v: nat)
    ensures v < 2
  {
    if n == 0 then x % 2 else Low(x / 2, n - 1)
  }

  lemma {:induction false} ShrStep(x: nat, n: nat)
    ensures Shr(x, n) == 2 * Shr(x, n + 1) + Low(x, n)
    decreases n
  {
    if n > 0 { ShrStep(x / 2, n - 1); }
  }

  lemma {:induction false} ShrAll(x: nat, n: nat)
    requires x < Pow2(n)
    ensures Shr(x, n) == 0
    decreases n
  {
    if n > 0 { ShrAll(x / 2, n - 1); }
  }

  /** Setting a bit that is not set. */
  lemma {:induction false} SetLow(x: nat, n: nat, m: nat)
    requires Low(x, n) == 0
    ensures Low(x + Pow2(n), m) == if m == n then 1 else Low(x, m)
    decreases n
  {
    if n > 0 {
      assert (x + Pow2(n)) / 2 == x / 2 + Pow2(n - 1);
      if m > 0 { SetLow(x / 2, n - 1, m - 1); }
    }
  }

  lemma {:induction false} SetLowFits(x: nat, n: nat, size: nat)
    requires Low(x, n) == 0 && n < size && x < Pow2(size)
    ensures x + Pow2(n) < Pow2(size)
    decreases n
  {
    assert Pow2(size) == 2 * Pow2(size - 1);
    if n > 0 { SetLowFits(x / 2, n - 1, size - 1); }
  }

  function ByteBit(b: Byte, k: nat): (v: nat)
    requires k < 8
    ensures v < 2
  {
    Low(b, 7 - k)
  }

  lemma {:induction false} ByteRange()
    ensures Pow2(8) == 256
  {
    assert Pow2(4) == 16;
  }

  /** byte(v << (8 - (k + 1))) | b, for a bit v. */
  function WithBit(b: Byte, k: nat, v: nat): Byte
    requires k < 8 && v < 2
  {
    if v == 1 && ByteBit(b, k) == 0 then
      ByteRange();
      SetLowFits(b, 7 - k, 8);
      b + Pow2(7 - k)
    else b
  }

  lemma {:induction false} WithBitBits(b: Byte, k: nat, v: nat, j: nat)
    requires k < 8 && v < 2 && j < 8
    ensures ByteBit(WithBit(b, k, v), j) == if j == k && v == 1 then 1 else ByteBit(b, j)
  {
    if v == 1 && ByteBit(b, k) == 0 { SetLow(b, 7 - k, 7 - j); }
  }

  function Bit(b: seq<Byte>, p: nat): (v: nat)
    requires p < 8 * |b|
    ensures v < 2
  {
    ByteBit(b[p / 8], p % 8)
  }

  /** The number whose bits are those of b from p on. */
  function BitsFrom(b: seq<Byte>, p: nat): nat
    requires p <= 8 * |b|
    decreases 8 * |b| - p
  {
    if p == 8 * |b| then 0 else Bit(b, p) * Pow2(8 * |b| - p - 1) + BitsFrom(b, p + 1)
  }

  /** The number whose bits are the first p of b. */
  function BitsTo(b: seq<Byte>, p: nat): nat
    requires p <= 8 * |b|
  {
    if p == 0 then 0 else 2 * BitsTo(b, p - 1) + Bit(b, p - 1)
  }

  /** b as a big-endian number. */
  function Number(b: seq<Byte>): nat {
    if b == [] then 0 else Number(b[..|b| - 1]) * 256 + b[|b| - 1]
  }

  lemma {:induction false} Doubling(x: nat, v: nat, w: nat)
    ensures (2 * x + v) * w == x * (2 * w) + v * w
  {
    assert (2 * x + v) * w == (2 * x) * w + v * w;
    assert (2 * x) * w == x * (2 * w);
  }

  lemma {:induction false} BitAt(b: seq<Byte>, m: nat, k: nat)
    requires m < |b| && k < 8
    ensures Bit(b, 8 * m + k) == Low(b[m], 7 - k)
  {
    assert (8 * m + k) / 8 == m && (8 * m + k) % 8 == k;
  }

  lemma {:induction false} OneMoreBit(x: nat, w: nat, high: nat, v: nat)
    ensures 2 * (x * w + high) + v == x * (2 * w) + (2 * high + v)
  {
    Doubling(x, 0, w);
  }

  lemma {:induction false} BitsOfByte(b: seq<Byte>, m: nat, k: nat)
    requires m < |b| && k <= 8
    ensures BitsTo(b, 8 * m + k) == BitsTo(b, 8 * m) * Pow2(k) + Shr(b[m], 8 - k)
  {
    if k == 0 {
      ByteRange();
      ShrAll(b[m], 8);
    } else {
      BitsOfByte(b, m, k - 1);
      ShrStep(b[m], 8 - k);
      BitAt(b, m, k - 1);
      OneMoreBit(BitsTo(b, 8 * m), Pow2(k - 1), Shr(b[m], 9 - k), Low(b[m], 8 - k));
    }
  }

  lemma {:induction false} NumberIsBitsTo(b: seq<Byte>, m: nat)
    requires m <= |b|
    ensures BitsTo(b, 8 * m) == Number(b[..m])
  {
    if m > 0 {
      NumberIsBitsTo(b, m - 1);
      BitsOfByte(b, m - 1, 8);
      ByteRange();
      assert b[..m][..m - 1] == b[..m - 1];
    }
  }

  lemma {:induction false} BitsSplit(b: seq<Byte>, p: nat)
    requires p <= 8 * |b|
    ensures BitsTo(b, p) * Pow2(8 * |b| - p) + BitsFrom(b, p) == BitsFrom(b, 0)
  {
    if p > 0 {
      BitsSplit(b, p - 1);
      var w := Pow2(8 * |b| - p);
      assert Pow2(8 * |b| - (p - 1)) == 2 * w;
      Doubling(BitsTo(b, p - 1), Bit(b, p - 1), w);
      assert BitsFrom(b, p - 1) == Bit(b, p - 1) * w + BitsFrom(b, p);
    }
  }

  /** Bits and bytes count the same. */
  lemma {:induction false} NumberIsBits(b: seq<Byte>)
    ensures Number(b) == BitsFrom(b, 0)
  {
    NumberIsBitsTo(b, |b|);
    assert b[..|b|] == b;
    BitsSplit(b, 8 * |b|);
  }

  lemma {:induction false} NumberFits(b: seq<Byte>)
    ensures Number(b) < Pow2(8 * |b|)
  {
    if b != [] {
      NumberFits(b[..|b| - 1]);
      ByteRange();
      PowAdd(8 * (|b| - 1), 8);
    }
  }

  lemma {:induction false} PowAdd(m: nat, n: nat)
    ensures Pow2(m + n) == Pow2(m) * Pow2(n)
    decreases n
  {
    if n > 0 {
      PowAdd(m, n - 1);
      assert Pow2(m + n) == 2 * (Pow2(m) * Pow2(n - 1)) == Pow2(m) * (2 * Pow2(n - 1));
    }
  }

  /** setBit. */
  function SetAt(b: seq<Byte>, p: nat, v: nat): (c: seq<Byte>)
    requires p < 8 * |b| && v < 2
    ensures |c| == |b|
  {
    b[p / 8 := WithBit(b[p / 8], p % 8, v)]
  }

  lemma {:induction false} SetAtBits(b: seq<Byte>, p: nat, v: nat, q: nat)
    requires p < 8 * |b| && v < 2 && q < 8 * |b|
    ensures Bit(SetAt(b, p, v), q) == if q == p && v == 1 then 1 else Bit(b, q)
  {
    if q / 8 == p / 8 { WithBitBits(b[p / 8], p % 8, v, q % 8); }
  }

  lemma {:induction false} SameBitsFrom(b: seq<Byte>, c: seq<Byte>, p: nat)
    requires |b| == |c| && p <= 8 * |b| && forall q :: p <= q < 8 * |b| ==> Bit(b, q) == Bit(c, q)
    ensures BitsFrom(b, p) == BitsFrom(c, p)
    decreases 8 * |b| - p
  {
    if p < 8 * |b| { SameBitsFrom(b, c, p + 1); }
  }
}
