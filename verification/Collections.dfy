/** Sequences without repetition, and the iteration order of Go maps. */
module Collections {
  datatype Option<+T> = None | Some(value: T)

  ghost function Elements<T>(s: seq<T>): set<T> {
    set x | x in s
  }

  ghost predicate Distinct<T>(s: seq<T>) {
    forall i, j :: 0 <= i < j < |s| ==> s[i] != s[j]
  }

  /** The keys of a Go map, in whatever order the iteration yields them: callers
      know nothing more of the order. */
  method AnyOrder(keys: set<string>) returns (order: seq<string>)
    ensures Distinct(order)
    ensures Elements(order) == keys
    ensures forall k :: k in order <==> k in keys
  {
    order := [];
    var rest := keys;
    while rest != {}
      invariant rest <= keys
      invariant forall k :: k in order <==> k in keys - rest
      invariant Distinct(order)
      decreases |rest|
    {
      var k :| k in rest;
      assert k !in order;
      order := order + [k];
      rest := rest - {k};
    }
  }

  lemma {:induction false} OnceEach<T>(s: seq<T>)
    requires Distinct(s)
    ensures forall x :: multiset(s)[x] == if x in s then 1 else 0
  {
    if s != [] {
      var last := |s| - 1;
      OnceEach(s[..last]);
      assert s == s[..last] + [s[last]];
      assert s[last] !in s[..last];
    }
  }

  lemma {:induction false} DistinctIfOnce<T>(s: seq<T>)
    requires forall x :: multiset(s)[x] <= 1
    ensures Distinct(s)
  {
    if s != [] {
      var last := |s| - 1;
      assert s == s[..last] + [s[last]];
      assert multiset(s)[s[last]] == multiset(s[..last])[s[last]] + 1;
      assert forall x :: multiset(s[..last])[x] <= multiset(s)[x];
      DistinctIfOnce(s[..last]);
      forall i, j | 0 <= i < j < |s|
        ensures s[i] != s[j]
      {
        if j == last { assert s[i] == s[..last][i]; assert s[i] in multiset(s[..last]); }
        else { assert s[i] == s[..last][i] && s[j] == s[..last][j]; }
      }
    }
  }
}
