/** n-fold (Nfold and its helpers; nfold.go), section 5.1 of RFC 3961. */
module NFold {
  import opened Utf8
  import opened Bits
  import opened Multiples

  // One's complement addition

  /** Addition with end-around carry of numbers of size bits. */
  function EndAround(a: nat, b: nat, size: nat): nat {
    if a + b < Pow2(size) then a + b else a + b - Pow2(size) + 1
  }

  method GetBit(b: seq<Byte>, p: nat) returns (v: nat)
    requires p < 8 * |b|
    ensures v == Bit(b, p)
  {
    v := ByteBit(b[p / 8], p % 8);
  }

  method SetBit(b: array<Byte>, p: nat, v: nat)
    requires p < 8 * b.Length && v < 2
    modifies b
    ensures b[..] == SetAt(old(b[..]), p, v)
  {
    b[p / 8] := WithBit(b[p / 8], p % 8, v);
  }

  /** onesComplementAddition: the carry out of the first bit is added by one more, and no
      more than one more, addition. */
  method OnesComplementAddition(n1: seq<Byte>, n2: seq<Byte>) returns (sum: seq<Byte>)
    requires |n1| == |n2|
    ensures |sum| == |n1| && Number(sum) == EndAround(Number(n1), Number(n2), 8 * |n1|)
    decreases if Number(n1) + Number(n2) >= Pow2(8 * |n1|) then 1 else 0
  {
    var out := new Byte[|n1|](_ => 0);
    var carry := AddBits(n1, n2, out);
    sum := out[..];
    NumberFits(n1);
    NumberFits(n2);
    NumberFits(sum);
    if carry == 1 {
      var carryArray := new Byte[|n1|](_ => 0);
      assert |n1| > 0;
      carryArray[carryArray.Length - 1] := 1;
      OneIsOne(carryArray[..]);
      sum := OnesComplementAddition(out[..], carryArray[..]);
    }
  }

  lemma {:induction false} ZerosAreZero(b: seq<Byte>)
    requires forall i :: 0 <= i < |b| ==> b[i] == 0
    ensures Number(b) == 0
  {
    if b != [] { ZerosAreZero(b[..|b| - 1]); }
  }

  lemma {:induction false} OneIsOne(b: seq<Byte>)
    requires b != [] && b[|b| - 1] == 1 && forall i :: 0 <= i < |b| - 1 ==> b[i] == 0
    ensures Number(b) == 1
  {
    ZerosAreZero(b[..|b| - 1]);
  }

  lemma {:induction false} ZeroHasNoBits(b: seq<Byte>, p: nat)
    requires p < 8 * |b| && b[p / 8] == 0
    ensures Bit(b, p) == 0
  {
    ZeroIsLow(7 - p % 8);
  }

  lemma {:induction false} ZeroIsLow(n: nat)
    ensures Low(0, n) == 0
  {
    if n > 0 { ZeroIsLow(n - 1); }
  }

  method AddBits(n1: seq<Byte>, n2: seq<Byte>, out: array<Byte>) returns (carry: nat)
    requires |n1| == |n2| == out.Length && forall i :: 0 <= i < out.Length ==> out[i] == 0
    modifies out
    ensures carry < 2 && Number(out[..]) + carry * Pow2(8 * |n1|) == Number(n1) + Number(n2)
  {
    hide Number, Pow2, Low, Bit;
    carry := 0;
    var i := 8 * |n1|;
    forall p | 0 <= p < i ensures Bit(out[..], p) == 0 { ZeroHasNoBits(out[..], p); }
    while i > 0
      invariant 0 <= i <= 8 * |n1| && carry < 2 && out.Length == |n1|
      invariant forall p :: 0 <= p < i ==> Bit(out[..], p) == 0
      invariant BitsFrom(out[..], i) + carry * Pow2(8 * |n1| - i) == BitsFrom(n1, i) + BitsFrom(n2, i)
    {
      i := i - 1;
      ghost var before := out[..];
      var b1 := GetBit(n1, i);
      var b2 := GetBit(n2, i);
      var s := b1 + b2 + carry;
      ghost var c := carry;
      if s == 0 || s == 1 {
        SetBit(out, i, s);
        carry := 0;
      } else if s == 2 {
        carry := 1;
      } else {
        SetBit(out, i, 1);
        carry := 1;
      }
      AddedBit(n1, n2, before, out[..], i, c, carry);
    }
    NumberIsBits(n1);
    NumberIsBits(n2);
    NumberIsBits(out[..]);
  }

  lemma {:induction false} Digits(a: nat, b: nat, c: nat, w: nat)
    requires a < 2 && b < 2 && c < 2
    ensures var s := a + b + c; (s % 2) * w + (s / 2) * (2 * w) == a * w + b * w + c * w
  {
    if a == 0 { } else { assert a == 1; }
    if b == 0 { } else { assert b == 1; }
    if c == 0 { } else { assert c == 1; }
  }

  /** One more bit of the sum. */
  lemma {:induction false} AddedBit(n1: seq<Byte>, n2: seq<Byte>, before: seq<Byte>, after: seq<Byte>, i: nat, c: nat, carry: nat)
    requires i < 8 * |n1| && |n1| == |n2| == |before| && c < 2 && carry < 2
    requires forall p :: 0 <= p <= i ==> Bit(before, p) == 0
    requires BitsFrom(before, i + 1) + c * Pow2(8 * |n1| - (i + 1)) == BitsFrom(n1, i + 1) + BitsFrom(n2, i + 1)
    requires var s := Bit(n1, i) + Bit(n2, i) + c;
             carry == s / 2 && (after == SetAt(before, i, s % 2) || (s % 2 == 0 && after == before))
    ensures |after| == |n1| && (forall p :: 0 <= p < i ==> Bit(after, p) == 0)
    ensures BitsFrom(after, i) + carry * Pow2(8 * |n1| - i) == BitsFrom(n1, i) + BitsFrom(n2, i)
  {
    hide ByteBit;
    var s, w := Bit(n1, i) + Bit(n2, i) + c, Pow2(8 * |n1| - (i + 1));
    forall q | 0 <= q < 8 * |n1| ensures Bit(after, q) == if q == i then s % 2 else Bit(before, q) {
      if after != before { SetAtBits(before, i, s % 2, q); }
    }
    SameBitsFrom(before, after, i + 1);
    assert Pow2(8 * |n1| - i) == 2 * w;
    assert BitsFrom(after, i) == (s % 2) * w + BitsFrom(before, i + 1);
    Digits(Bit(n1, i), Bit(n2, i), c, w);
  }

  // Rotation

  /** Where bit q of size bits goes. */
  function Turn(q: nat, step: nat, size: nat): (p: nat)
    requires size > 0
    ensures p < size
  {
    (q + step) % size
  }

  ghost predicate IsRotation(b: seq<Byte>, step: nat, out: seq<Byte>) {
    |out| == |b| && forall q :: 0 <= q < 8 * |b| ==> Turned(b, step, out, q)
  }

  ghost predicate Turned(b: seq<Byte>, step: nat, out: seq<Byte>, q: nat)
    requires |out| == |b| && q < 8 * |b|
  {
    Bit(out, Turn(q, step, 8 * |b|)) == Bit(b, q)
  }

  /** No two bits go to the same place. */
  lemma {:induction false} TurnsApart(p: nat, q: nat, step: nat, size: nat)
    requires p < size && q < size && Turn(p, step, size) == Turn(q, step, size)
    ensures p == q
  {
    var a, b := (p + step) / size, (q + step) / size;
    assert p + step == Times(size, a) + (p + step) % size;
    assert q + step == Times(size, b) + (q + step) % size;
    assert Times(size, a) - Times(size, b) == Times(size, a - b) by { assert size * a - size * b == size * (a - b); }
    TimesGrows(size, a - b);
  }

  /** rotateRight. */
  method RotateRight(b: seq<Byte>, step: nat) returns (rotated: seq<Byte>)
    ensures IsRotation(b, step, rotated)
  {
    var out := new Byte[|b|](_ => 0);
    var bitLen := 8 * |b|;
    forall p | 0 <= p < bitLen ensures Bit(out[..], p) == 0 { ZeroHasNoBits(out[..], p); }
    for i := 0 to bitLen
      invariant out.Length == |b|
      invariant forall q :: 0 <= q < i ==> Turned(b, step, out[..], q)
      invariant forall q :: i <= q < bitLen ==> Unset(b, step, out[..], q)
    {
      var v := GetBit(b, i);
      ghost var before := out[..];
      SetBit(out, (i + step) % bitLen, v);
      TurnOne(b, step, before, i);
    }
    rotated := out[..];
  }

  ghost predicate Unset(b: seq<Byte>, step: nat, out: seq<Byte>, q: nat)
    requires |out| == |b| && q < 8 * |b|
  {
    Bit(out, Turn(q, step, 8 * |b|)) == 0
  }

  lemma {:induction false} TurnOne(b: seq<Byte>, step: nat, before: seq<Byte>, i: nat)
    requires |before| == |b| && i < 8 * |b|
    requires forall q :: 0 <= q < i ==> Turned(b, step, before, q)
    requires forall q :: i <= q < 8 * |b| ==> Unset(b, step, before, q)
    ensures var after := SetAt(before, Turn(i, step, 8 * |b|), Bit(b, i));
            && (forall q :: 0 <= q < i + 1 ==> Turned(b, step, after, q))
            && (forall q :: i + 1 <= q < 8 * |b| ==> Unset(b, step, after, q))
  {
    var p, v := Turn(i, step, 8 * |b|), Bit(b, i);
    var after := SetAt(before, p, v);
    forall q | 0 <= q < 8 * |b|
      ensures if q < i + 1 then Turned(b, step, after, q) else Unset(b, step, after, q)
    {
      var t := Turn(q, step, 8 * |b|);
      SetAtBits(before, p, v, t);
      if t == p { TurnsApart(q, i, step, 8 * |b|); }
      assert if q < i then Turned(b, step, before, q) else Unset(b, step, before, q);
    }
  }

  // n-fold

  /** The i-th piece of w bytes. */
  function Block(s: seq<Byte>, w: nat, i: nat): (b: seq<Byte>)
    requires (i + 1) * w <= |s|
    ensures |b| == w
  {
    assert (i + 1) * w == i * w + w;
    s[i * w..(i + 1) * w]
  }

  lemma {:induction false} BlockFits(size: nat, w: nat, count: nat, i: nat)
    requires size == Times(w, count) && i < count
    ensures (i + 1) * w <= size
  {
    assert w * (i + 1) <= w * count;
  }

  /** s is copies of m, the i-th one rotated by 13 * i. */
  ghost predicate IsStretched(m: seq<Byte>, s: seq<Byte>, copies: nat) {
    |s| == Times(|m|, copies) && forall i: nat :: i < copies ==> IsCopy(m, s, i)
  }

  ghost predicate IsCopy(m: seq<Byte>, s: seq<Byte>, i: nat) {
    (i + 1) * |m| <= |s| && IsRotation(m, 13 * i, Block(s, |m|, i))
  }

  method Stretch(m: seq<Byte>, copies: nat) returns (s: seq<Byte>)
    ensures IsStretched(m, s, copies)
  {
    s := [];
    for i := 0 to copies
      invariant IsStretched(m, s, i)
    {
      var rotated := RotateRight(m, 13 * i);
      StretchOne(m, s, i, rotated);
      s := s + rotated;
    }
  }

  lemma {:induction false} StretchOne(m: seq<Byte>, s: seq<Byte>, i: nat, rotated: seq<Byte>)
    requires IsStretched(m, s, i) && IsRotation(m, 13 * i, rotated)
    ensures IsStretched(m, s + rotated, i + 1)
  {
    var t := s + rotated;
    assert |m| * (i + 1) == |m| * i + |m|;
    forall j: nat | j < i + 1
      ensures IsCopy(m, t, j)
    {
      BlockFits(|t|, |m|, i + 1, j);
      if j < i {
        assert IsCopy(m, s, j);
        assert Block(t, |m|, j) == Block(s, |m|, j);
      } else {
        assert i * |m| == |s|;
        assert Block(t, |m|, i) == rotated;
      }
    }
  }

  /** The one's complement sum of the first k blocks of w bytes. */
  function FoldTo(s: seq<Byte>, w: nat, k: nat): nat
    requires k * w <= |s|
  {
    if k == 0 then 0
    else
      assert k * w == (k - 1) * w + w;
      EndAround(FoldTo(s, w, k - 1), Number(Block(s, w, k - 1)), 8 * w)
  }

  method CopyBlock(sumBytes: seq<Byte>, i: nat, sum: array<Byte>)
    requires (i + 1) * sum.Length <= |sumBytes|
    modifies sum
    ensures sum[..] == Block(sumBytes, sum.Length, i)
  {
    assert (i + 1) * sum.Length == i * sum.Length + sum.Length;
    for j := 0 to sum.Length
      invariant sum[..j] == sumBytes[i * sum.Length..i * sum.Length + j]
    {
      sum[j] := sumBytes[j + i * sum.Length];
    }
  }

  /** v is the fold of the first k blocks of w bytes, and so congruent to their sum. */
  ghost predicate IsFold(s: seq<Byte>, w: nat, k: nat, v: nat) {
    && k * w <= |s| && v == FoldTo(s, w, k)
    && Congruent(v, BlockSum(s, w, k), Pow2(8 * w) - 1)
    && (v == 0 <==> BlockSum(s, w, k) == 0)
  }

  function Quotient(a: nat, b: nat): nat
    requires b > 0
  {
    a / b
  }

  /** How often the string is copied, to reach the least common multiple, and how many blocks that is. */
  function Copies(n: nat, size: nat): nat
    requires n > 0 && size > 0
  {
    Quotient(Lcm(n, 8 * size), 8 * size)
  }

  function Blocks(n: nat, size: nat): nat
    requires n > 0 && size > 0
  {
    Quotient(Lcm(n, 8 * size), n)
  }

  /** Nfold: never out of bounds, and the fold of the blocks of the string of copies whose
      length is the least common multiple; so congruent to their sum. */
  method Nfold(m: seq<Byte>, n: nat) returns (nfold: seq<Byte>, ghost s: seq<Byte>)
    requires m != [] && n > 0 && n % 8 == 0
    ensures IsStretched(m, s, Copies(n, |m|)) && 8 * |s| == Lcm(n, 8 * |m|)
    ensures |nfold| == n / 8 && |s| == Times(n / 8, Blocks(n, |m|))
    ensures IsFold(s, n / 8, Blocks(n, |m|), Number(nfold))
  {
    hide Number, Gcd, BlockSum, EndAround, Block, IsRotation;
    var k := |m| * 8;
    var l := ComputeLcm(n, k);
    Lengths(n, |m|);
    var sumBytes := Stretch(m, l / k);
    s := sumBytes;
    var w := n / 8;
    nfold := seq(w, _ => 0);
    ZerosAreZero(nfold);
    var sum := new Byte[w];
    for i := 0 to l / n
      invariant |nfold| == w && i * w <= |s| && Number(nfold) == FoldTo(s, w, i)
    {
      BlockFits(|s|, w, l / n, i);
      CopyBlock(sumBytes, i, sum);
      nfold := OnesComplementAddition(nfold, sum[..]);
    }
    BlockFits(|s|, w, l / n, l / n - 1);
    FoldIsSum(s, w, l / n);
  }

  /** The least common multiple is a whole number of copies and a whole number of blocks. */
  lemma {:induction false} Lengths(n: nat, size: nat)
    requires n > 0 && n % 8 == 0 && size > 0
    ensures var l := Lcm(n, 8 * size);
            && l == 8 * Times(size, l / (8 * size))
            && Times(size, l / (8 * size)) == Times(n / 8, l / n)
            && l / n > 0
  {
    var l := Lcm(n, 8 * size);
    var a, b := LcmIsMultiple(n, 8 * size);
    ExactQuotient(8 * size, a);
    ExactQuotient(n, b);
    assert (8 * size) * a == 8 * (size * a);
    assert n == 8 * (n / 8);
    assert (8 * (n / 8)) * b == 8 * ((n / 8) * b);
  }

  // What the fold is

  function BlockSum(s: seq<Byte>, w: nat, k: nat): nat
    requires k * w <= |s|
  {
    if k == 0 then 0
    else
      assert k * w == (k - 1) * w + w;
      BlockSum(s, w, k - 1) + Number(Block(s, w, k - 1))
  }

  /** a and b differ by a multiple of d. */
  ghost predicate Congruent(a: int, b: int, d: int) {
    exists q :: a == b + Times(d, q)
  }

  lemma {:induction false} EndAroundFits(a: nat, b: nat, size: nat)
    requires a < Pow2(size) && b < Pow2(size)
    ensures EndAround(a, b, size) < Pow2(size)
    ensures EndAround(a, b, size) == 0 <==> a == 0 && b == 0
    ensures EndAround(a, b, size) == a + b || EndAround(a, b, size) == a + b - (Pow2(size) - 1)
  {
  }

  /** The fold is congruent to the sum of the blocks modulo 2^n - 1, and is zero only when all are. */
  lemma {:induction false} FoldIsSum(s: seq<Byte>, w: nat, k: nat)
    requires k * w <= |s|
    ensures FoldTo(s, w, k) < Pow2(8 * w)
    ensures Congruent(FoldTo(s, w, k), BlockSum(s, w, k), Pow2(8 * w) - 1)
    ensures FoldTo(s, w, k) == 0 <==> BlockSum(s, w, k) == 0
  {
    var d := Pow2(8 * w) - 1;
    if k == 0 {
      assert 0 == 0 + Times(d, 0);
    } else {
      assert k * w == (k - 1) * w + w;
      FoldIsSum(s, w, k - 1);
      var before, block := FoldTo(s, w, k - 1), Number(Block(s, w, k - 1));
      NumberFits(Block(s, w, k - 1));
      EndAroundFits(before, block, 8 * w);
      var q :| before == BlockSum(s, w, k - 1) + Times(d, q);
      assert Times(d, q) - d == Times(d, q - 1) by { assert d * q - d == d * (q - 1); }
      if FoldTo(s, w, k) == before + block {
        assert FoldTo(s, w, k) == BlockSum(s, w, k) + Times(d, q);
      } else {
        assert FoldTo(s, w, k) == BlockSum(s, w, k) + Times(d, q - 1);
      }
    }
  }
}
