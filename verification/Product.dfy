/** The Cartesian product of lists (Product; internal/lists/product.go): an odometer of
    indices whose last position turns fastest. */
module Product {

  // Index vectors and their rank

  /** How many tuples the lists from k on have. */
  function Size<T>(lists: seq<seq<T>>, k: nat): nat
    requires k <= |lists|
    decreases |lists| - k
  {
    if k == |lists| then 1 else |lists[k]| * Size(lists, k + 1)
  }

  /** One index in each list. */
  ghost predicate IsVector<T>(lists: seq<seq<T>>, v: seq<nat>) {
    |v| == |lists| && forall i :: 0 <= i < |v| ==> v[i] < |lists[i]|
  }

  /** The tuple at a vector. */
  function Pick<T>(lists: seq<seq<T>>, v: seq<nat>): (tuple: seq<T>)
    requires IsVector(lists, v)
  {
    seq(|v|, i requires 0 <= i < |v| => lists[i][v[i]])
  }

  /** The position of a vector in lexicographic order. */
  function Rank<T>(lists: seq<seq<T>>, v: seq<nat>, k: nat): nat
    requires IsVector(lists, v) && k <= |lists|
    decreases |lists| - k
  {
    if k == |lists| then 0 else v[k] * Size(lists, k + 1) + Rank(lists, v, k + 1)
  }

  lemma {:induction false} Digit(d: nat, base: nat, size: nat, rest: nat)
    requires d < base && rest < size
    ensures d * size + rest < base * size
  {
    assert (d + 1) * size <= base * size;
    assert (d + 1) * size == d * size + size;
  }

  lemma {:induction false} RankFits<T>(lists: seq<seq<T>>, v: seq<nat>, k: nat)
    requires IsVector(lists, v) && k <= |lists|
    ensures Rank(lists, v, k) < Size(lists, k)
    decreases |lists| - k
  {
    if k < |lists| {
      RankFits(lists, v, k + 1);
      Digit(v[k], |lists[k]|, Size(lists, k + 1), Rank(lists, v, k + 1));
    }
  }

  lemma {:induction false} DigitsAgree(a: nat, b: nat, size: nat, r: nat, s: nat)
    requires r < size && s < size && a * size + r == b * size + s
    ensures a == b && r == s
  {
    if a < b { Digit(a, b, size, r); }
    if b < a { Digit(b, a, size, s); }
  }

  /** Vectors have different ranks. */
  lemma {:induction false} RankIsInjective<T>(lists: seq<seq<T>>, v: seq<nat>, w: seq<nat>, k: nat)
    requires IsVector(lists, v) && IsVector(lists, w) && k <= |lists| && Rank(lists, v, k) == Rank(lists, w, k)
    ensures forall i :: k <= i < |lists| ==> v[i] == w[i]
    decreases |lists| - k
  {
    if k < |lists| {
      RankFits(lists, v, k + 1);
      RankFits(lists, w, k + 1);
      DigitsAgree(v[k], w[k], Size(lists, k + 1), Rank(lists, v, k + 1), Rank(lists, w, k + 1));
      RankIsInjective(lists, v, w, k + 1);
    }
  }

  /** And in lexicographic order. */
  lemma {:induction false} RankIsMonotone<T>(lists: seq<seq<T>>, v: seq<nat>, w: seq<nat>, k: nat, at: nat)
    requires IsVector(lists, v) && IsVector(lists, w) && k <= at < |lists|
    requires v[at] < w[at] && forall i :: k <= i < at ==> v[i] == w[i]
    ensures Rank(lists, v, k) < Rank(lists, w, k)
    decreases |lists| - k
  {
    if k < at {
      RankIsMonotone(lists, v, w, k + 1, at);
    } else {
      RankFits(lists, v, k + 1);
      Digit(v[k], w[k], Size(lists, k + 1), Rank(lists, v, k + 1));
    }
  }

  /** Every position up to the size is the rank of a vector. */
  lemma {:induction false} RankIsOnto<T>(lists: seq<seq<T>>, r: nat) returns (v: seq<nat>)
    requires r < Size(lists, 0)
    ensures IsVector(lists, v) && Rank(lists, v, 0) == r
  {
    v := Unrank(lists, r, 0);
  }

  lemma {:induction false} Unrank<T>(lists: seq<seq<T>>, r: nat, k: nat) returns (v: seq<nat>)
    requires k <= |lists| && r < Size(lists, k) && forall i :: 0 <= i < k ==> lists[i] != []
    ensures IsVector(lists, v) && Rank(lists, v, k) == r
    decreases |lists| - k
  {
    if k == |lists| {
      v := seq(|lists|, _ => 0);
    } else {
      var size := Size(lists, k + 1);
      if size == 0 || lists[k] == [] { ZeroSize(lists, k); }
      QuotientFits(r, |lists[k]|, size);
      var rest := Unrank(lists, r % size, k + 1);
      v := rest[k := r / size];
      SameTail(lists, rest, v, k + 1);
    }
  }

  lemma {:induction false} ZeroSize<T>(lists: seq<seq<T>>, k: nat)
    requires k < |lists| && (Size(lists, k + 1) == 0 || lists[k] == [])
    ensures Size(lists, k) == 0
  {
  }

  lemma {:induction false} QuotientFits(r: nat, base: nat, size: nat)
    requires size > 0 && r < base * size
    ensures r / size < base && r / size * size + r % size == r
  {
    var q := r / size;
    assert q >= base ==> q * size >= base * size;
  }

  lemma {:induction false} SameTail<T>(lists: seq<seq<T>>, v: seq<nat>, w: seq<nat>, k: nat)
    requires IsVector(lists, v) && IsVector(lists, w) && k <= |lists| && forall i :: k <= i < |lists| ==> v[i] == w[i]
    ensures Rank(lists, v, k) == Rank(lists, w, k)
    decreases |lists| - k
  {
    if k < |lists| { SameTail(lists, v, w, k + 1); }
  }

  // The odometer

  /** v is at its end from k on. */
  ghost predicate IsLast<T>(lists: seq<seq<T>>, v: seq<nat>, k: nat)
    requires IsVector(lists, v)
  {
    forall i :: k <= i < |lists| ==> v[i] == |lists[i]| - 1
  }

  lemma {:induction false} LastRank<T>(lists: seq<seq<T>>, v: seq<nat>, k: nat)
    requires IsVector(lists, v) && k <= |lists| && IsLast(lists, v, k)
    ensures Rank(lists, v, k) + 1 == Size(lists, k)
    decreases |lists| - k
  {
    hide IsVector;
    if k < |lists| {
      LastRank(lists, v, k + 1);
      var n, size := |lists[k]|, Size(lists, k + 1);
      assert n * size == (n - 1) * size + size;
    }
  }

  lemma {:induction false} ZeroRank<T>(lists: seq<seq<T>>, v: seq<nat>, k: nat)
    requires IsVector(lists, v) && k <= |lists| && forall i :: k <= i < |lists| ==> v[i] == 0
    ensures Rank(lists, v, k) == 0
    decreases |lists| - k
  {
    if k < |lists| { ZeroRank(lists, v, k + 1); }
  }

  /** w is v with position at increased and the positions after it, at their end, reset. */
  ghost predicate Turns<T>(lists: seq<seq<T>>, v: seq<nat>, w: seq<nat>, at: nat)
    requires IsVector(lists, v) && IsVector(lists, w) && at < |lists|
  {
    && IsLast(lists, v, at + 1) && w[at] == v[at] + 1
    && (forall i :: 0 <= i < at ==> w[i] == v[i])
    && (forall i :: at < i < |lists| ==> w[i] == 0)
  }

  lemma {:induction false} TurnIsNext<T>(lists: seq<seq<T>>, v: seq<nat>, w: seq<nat>, at: nat, k: nat)
    requires IsVector(lists, v) && IsVector(lists, w) && k <= at < |lists| && Turns(lists, v, w, at)
    ensures Rank(lists, w, k) == Rank(lists, v, k) + 1
    decreases at - k
  {
    if k < at {
      TurnIsNext(lists, v, w, at, k + 1);
    } else {
      TurnAt(lists, v, w, at);
    }
  }

  lemma {:induction false} TurnAt<T>(lists: seq<seq<T>>, v: seq<nat>, w: seq<nat>, at: nat)
    requires IsVector(lists, v) && IsVector(lists, w) && at < |lists| && Turns(lists, v, w, at)
    ensures Rank(lists, w, at) == Rank(lists, v, at) + 1
  {
    LastRank(lists, v, at + 1);
    ZeroRank(lists, w, at + 1);
    var size, before, after := Size(lists, at + 1), Rank(lists, v, at + 1), Rank(lists, w, at + 1);
    assert w[at] == v[at] + 1 && after == 0 && before + 1 == size;
    OneMore(v[at], size);
  }

  lemma {:induction false} OneMore(n: nat, size: nat)
    ensures (n + 1) * size == n * size + size
  {
  }

  /** v with its positions from i on reset. */
  function Reset(v: seq<nat>, i: nat): seq<nat>
    requires i <= |v|
  {
    v[..i] + seq(|v| - i, _ => 0)
  }

  lemma {:induction false} ResetOne<T>(lists: seq<seq<T>>, v: seq<nat>, i: nat)
    requires IsVector(lists, v) && i < |v| && IsLast(lists, v, i + 1)
    ensures Reset(v, i + 1)[i] == v[i] && Reset(v, i + 1)[i := 0] == Reset(v, i)
    ensures v[i] + 1 == |lists[i]| ==> IsLast(lists, v, i)
    ensures v[i] + 1 < |lists[i]| ==>
      var w := Reset(v, i + 1)[i := v[i] + 1];
      IsVector(lists, w) && Rank(lists, w, 0) == Rank(lists, v, 0) + 1
  {
    if v[i] + 1 < |lists[i]| {
      TurnIsNext(lists, v, Reset(v, i + 1)[i := v[i] + 1], i, 0);
    }
  }

  lemma {:induction false} PickOne<T>(lists: seq<seq<T>>, v: seq<nat>, i: nat, x: nat)
    requires IsVector(lists, v) && i < |v| && x < |lists[i]|
    ensures IsVector(lists, v[i := x]) && Pick(lists, v[i := x]) == Pick(lists, v)[i := lists[i][x]]
  {
  }

  /** One turn: false when all lists have rolled over. */
  method Advance<T>(lists: seq<seq<T>>, indices: array<nat>, combination: array<T>) returns (more: bool)
    requires indices.Length == combination.Length == |lists| && IsVector(lists, indices[..])
    requires combination[..] == Pick(lists, indices[..]) && indices as object != combination as object
    modifies indices, combination
    ensures more ==> IsVector(lists, indices[..]) && combination[..] == Pick(lists, indices[..])
    ensures more ==> Rank(lists, indices[..], 0) == Rank(lists, old(indices[..]), 0) + 1
    ensures !more ==> Rank(lists, old(indices[..]), 0) + 1 == Size(lists, 0)
  {
    ghost var v := indices[..];
    var i := |lists|;
    assert Reset(v, i) == v;
    while i > 0
      invariant 0 <= i <= |lists| && IsLast(lists, v, i)
      invariant indices[..] == Reset(v, i) && IsVector(lists, indices[..]) && combination[..] == Pick(lists, indices[..])
    {
      i := i - 1;
      ghost var now := indices[..];
      ResetOne(lists, v, i);
      var list := lists[i];
      indices[i] := indices[i] + 1;
      if indices[i] == |list| {
        indices[i] := 0;
      }
      combination[i] := list[indices[i]];
      assert indices[..] == now[i := indices[i]];
      PickOne(lists, now, i, indices[i]);
      if 0 < indices[i] {
        return true;
      }
    }
    LastRank(lists, v, 0);
    more := false;
  }

  /** Product: one tuple for each vector, in the order of their ranks; none without lists. */
  method Combinations<T(0)>(lists: seq<seq<T>>) returns (out: seq<seq<T>>)
    ensures |out| == if lists == [] then 0 else Size(lists, 0)
    ensures forall v :: lists != [] && IsVector(lists, v) ==> Rank(lists, v, 0) < |out| && out[Rank(lists, v, 0)] == Pick(lists, v)
  {
    out := [];
    if |lists| == 0 { return; }
    var indices := new nat[|lists|](_ => 0);
    var combination := new T[|lists|];
    for i := 0 to |lists|
      invariant forall j :: 0 <= j < i ==> lists[j] != [] && combination[j] == lists[j][0]
      invariant forall j :: 0 <= j < |lists| ==> indices[j] == 0
    {
      if lists[i] == [] {
        EmptyList(lists, i, 0);
        return;
      }
      combination[i] := lists[i][0];
    }
    out := [] + [combination[..]];
    assert combination[..] == Pick(lists, indices[..]);
    ZeroRank(lists, indices[..], 0);
    RankFits(lists, indices[..], 0);
    OneMoreTuple(lists, [], indices[..]);
    var more := true;
    while more
      invariant indices.Length == combination.Length == |lists|
      invariant more ==> IsVector(lists, indices[..]) && combination[..] == Pick(lists, indices[..])
      invariant more ==> |out| == Rank(lists, indices[..], 0) + 1 <= Size(lists, 0)
      invariant !more ==> |out| == Size(lists, 0)
      invariant AreTuples(lists, out)
      decreases Size(lists, 0) - |out|, more
    {
      ghost var before := indices[..];
      more := Advance(lists, indices, combination);
      if more {
        RankFits(lists, indices[..], 0);
        OneMoreTuple(lists, out, indices[..]);
        out := out + [combination[..]];
      }
    }
    forall v | IsVector(lists, v) ensures Rank(lists, v, 0) < |out| && out[Rank(lists, v, 0)] == Pick(lists, v) { RankFits(lists, v, 0); }
  }

  /** The tuples of the first vectors, at their rank. */
  ghost predicate AreTuples<T>(lists: seq<seq<T>>, out: seq<seq<T>>) {
    forall v :: IsVector(lists, v) && Rank(lists, v, 0) < |out| ==> out[Rank(lists, v, 0)] == Pick(lists, v)
  }

  lemma {:induction false} OneMoreTuple<T>(lists: seq<seq<T>>, out: seq<seq<T>>, v: seq<nat>)
    requires AreTuples(lists, out) && IsVector(lists, v) && Rank(lists, v, 0) == |out|
    ensures AreTuples(lists, out + [Pick(lists, v)])
  {
    var longer := out + [Pick(lists, v)];
    forall w | IsVector(lists, w) && Rank(lists, w, 0) < |longer|
      ensures longer[Rank(lists, w, 0)] == Pick(lists, w)
    {
      if Rank(lists, w, 0) == |out| {
        RankIsInjective(lists, v, w, 0);
        assert v == w;
      }
    }
  }

  lemma {:induction false} EmptyList<T>(lists: seq<seq<T>>, at: nat, k: nat)
    requires k <= at < |lists| && lists[at] == []
    ensures Size(lists, k) == 0 && forall v :: !IsVector(lists, v)
    decreases at - k
  {
    if k < at { EmptyList(lists, at, k + 1); }
  }
}
