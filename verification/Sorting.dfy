/** The order in which Go's slices.Sorted and sort.Strings list strings. */
module Sorting {

  /** Lexicographic order, smaller elements and shorter prefixes first. */
  predicate Leq<T(==)>(less: (T, T) -> bool, a: seq<T>, b: seq<T>)
    decreases |a|
  {
    a == [] || (b != [] && (less(a[0], b[0]) || (a[0] == b[0] && Leq(less, a[1..], b[1..]))))
  }

  ghost predicate Trichotomous<T(!new)>(less: (T, T) -> bool) {
    forall x, y :: less(x, y) || x == y || less(y, x)
  }

  lemma {:induction false} LeqTotal<T(!new)>(less: (T, T) -> bool, a: seq<T>, b: seq<T>)
    requires Trichotomous(less)
    ensures Leq(less, a, b) || Leq(less, b, a)
    decreases |a|
  {
    if a != [] && b != [] {
      assert less(a[0], b[0]) || a[0] == b[0] || less(b[0], a[0]);
      LeqTotal(less, a[1..], b[1..]);
    }
  }

  ghost predicate Sorted<T>(less: (T, T) -> bool, s: seq<seq<T>>) {
    |s| <= 1 || (Leq(less, s[0], s[1]) && Sorted(less, s[1..]))
  }

  function Insert<T(==)>(less: (T, T) -> bool, x: seq<T>, s: seq<seq<T>>): (r: seq<seq<T>>)
    ensures multiset(r) == multiset(s) + multiset{x}
    ensures |r| == |s| + 1
  {
    if s == [] then [x]
    else if Leq(less, x, s[0]) then [x] + s
    else
      assert s == [s[0]] + s[1..];
      [s[0]] + Insert(less, x, s[1..])
  }

  /** The elements of s in order, repetitions kept. */
  function Sort<T(==)>(less: (T, T) -> bool, s: seq<seq<T>>): (r: seq<seq<T>>)
    ensures multiset(r) == multiset(s)
    ensures |r| == |s|
  {
    if s == [] then []
    else
      assert s == [s[0]] + s[1..];
      Insert(less, s[0], Sort(less, s[1..]))
  }

  lemma {:induction false} InsertKeepsOrder<T(!new)>(less: (T, T) -> bool, x: seq<T>, s: seq<seq<T>>)
    requires Trichotomous(less) && Sorted(less, s)
    ensures Sorted(less, Insert(less, x, s))
    ensures Insert(less, x, s)[0] == x || (s != [] && Insert(less, x, s)[0] == s[0])
  {
    if s != [] && Leq(less, x, s[0]) {
      assert ([x] + s)[1..] == s;
    } else if s != [] {
      LeqTotal(less, x, s[0]);
      InsertKeepsOrder(less, x, s[1..]);
      assert Insert(less, x, s)[1..] == Insert(less, x, s[1..]);
    }
  }

  lemma {:induction false} SortSorts<T(!new)>(less: (T, T) -> bool, s: seq<seq<T>>)
    requires Trichotomous(less)
    ensures Sorted(less, Sort(less, s))
  {
    if s != [] {
      SortSorts(less, s[1..]);
      InsertKeepsOrder(less, s[0], Sort(less, s[1..]));
    }
  }

  /** Sorting twice is sorting once. */
  lemma {:induction false} SortedStays<T>(less: (T, T) -> bool, s: seq<seq<T>>)
    requires Sorted(less, s)
    ensures Sort(less, s) == s
  {
    if s != [] {
      SortedStays(less, s[1..]);
      assert s == [s[0]] + s[1..];
    }
  }

  /** less is a strict total order. */
  ghost predicate IsOrder<T(!new)>(less: (T, T) -> bool) {
    && Trichotomous(less)
    && (forall x, y :: less(x, y) ==> !less(y, x) && x != y)
    && (forall x, y, z :: less(x, y) && less(y, z) ==> less(x, z))
  }

  lemma {:induction false} LeqAntisymmetric<T(!new)>(less: (T, T) -> bool, a: seq<T>, b: seq<T>)
    requires IsOrder(less) && Leq(less, a, b) && Leq(less, b, a)
    ensures a == b
    decreases |a|
  {
    if a != [] {
      assert a[0] == b[0];
      LeqAntisymmetric(less, a[1..], b[1..]);
      assert a == [a[0]] + a[1..] && b == [b[0]] + b[1..];
    }
  }

  lemma {:induction false} LeqTransitive<T(!new)>(less: (T, T) -> bool, a: seq<T>, b: seq<T>, c: seq<T>)
    requires IsOrder(less) && Leq(less, a, b) && Leq(less, b, c)
    ensures Leq(less, a, c)
    decreases |a|
  {
    if a != [] && a[0] == b[0] && b[0] == c[0] { LeqTransitive(less, a[1..], b[1..], c[1..]); }
  }

  lemma {:induction false} FirstIsLeast<T(!new)>(less: (T, T) -> bool, s: seq<seq<T>>, i: nat)
    requires IsOrder(less) && Sorted(less, s) && i < |s|
    ensures Leq(less, s[0], s[i])
    decreases i
  {
    if i == 0 {
      LeqTotal(less, s[0], s[0]);
    } else {
      FirstIsLeast(less, s[1..], i - 1);
      LeqTransitive(less, s[0], s[1], s[i]);
    }
  }

  lemma {:induction false} SameLeast<T(!new)>(less: (T, T) -> bool, s: seq<seq<T>>, t: seq<seq<T>>)
    requires IsOrder(less) && Sorted(less, s) && Sorted(less, t) && s != [] && t != [] && s[0] in t && t[0] in s
    ensures s[0] == t[0]
  {
    var i :| 0 <= i < |t| && t[i] == s[0];
    var j :| 0 <= j < |s| && s[j] == t[0];
    FirstIsLeast(less, t, i);
    FirstIsLeast(less, s, j);
    LeqAntisymmetric(less, s[0], t[0]);
  }

  lemma {:induction false} SameRest<T>(s: seq<T>, t: seq<T>)
    requires s != [] && t != [] && s[0] == t[0] && multiset(s) == multiset(t)
    ensures multiset(s[1..]) == multiset(t[1..])
  {
    assert s == [s[0]] + s[1..] && t == [t[0]] + t[1..];
    assert multiset(s[1..]) == multiset(s) - multiset{s[0]} && multiset(t[1..]) == multiset(t) - multiset{t[0]};
  }

  /** Sorted lists with the same elements are the same. */
  lemma {:induction false} SortedIsUnique<T(!new)>(less: (T, T) -> bool, s: seq<seq<T>>, t: seq<seq<T>>)
    requires IsOrder(less) && Sorted(less, s) && Sorted(less, t) && multiset(s) == multiset(t)
    ensures s == t
    decreases |s|
  {
    assert |s| == |multiset(s)| == |multiset(t)| == |t|;
    if s != [] {
      assert s[0] in multiset(t) && t[0] in multiset(s);
      SameLeast(less, s, t);
      SameRest(s, t);
      SortedIsUnique(less, s[1..], t[1..]);
      assert s == [s[0]] + s[1..] && t == [t[0]] + t[1..];
    }
  }

  function CharLess(a: char, b: char): bool { a < b }

  /** Strings in order. */
  function SortStrings(s: seq<string>): (r: seq<string>)
    ensures multiset(r) == multiset(s)
    ensures |r| == |s|
  {
    Sort(CharLess, s)
  }

  lemma {:induction false} SortTwice(s: seq<string>)
    ensures SortStrings(SortStrings(s)) == SortStrings(s)
  {
    SortSorts(CharLess, s);
    SortedStays(CharLess, SortStrings(s));
  }
}
