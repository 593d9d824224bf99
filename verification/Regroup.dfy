/** Database order and regrouping of statements (internal/postgres/objects.go, queries.go). */
module Regroup {
  import opened Roles
  import opened Postgres
  import opened Collections
  import Sorting

  /** Each database once; the default one at the chosen end, the others sorted. */
  ghost predicate IsSyncOrder(order: seq<string>, databases: set<string>, default: string, defaultFirst: bool) {
    && Distinct(order)
    && Elements(order) == databases
    && exists names :: order == Placed(names, databases, default, defaultFirst)
  }

  function Placed(names: seq<string>, databases: set<string>, default: string, defaultFirst: bool): seq<string> {
    var others := Without(Sorting.SortStrings(names), default);
    if default !in databases then others
    else if defaultFirst then [default] + others
    else others + [default]
  }

  /** SyncOrder. */
  method SyncOrder(databases: set<string>, default: string, defaultFirst: bool) returns (out: seq<string>)
    ensures IsSyncOrder(out, databases, default, defaultFirst)
  {
    hide Without, IsSyncOrder, Distinct;
    var names := AnyOrder(databases);
    out := PlaceAround(Sorting.SortStrings(names), default, default in databases, defaultFirst);
    assert out == Placed(names, databases, default, defaultFirst);
    PlacedIsOrder(names, databases, default, defaultFirst);
  }

  method PlaceAround(sorted: seq<string>, default: string, known: bool, defaultFirst: bool) returns (out: seq<string>)
    ensures out == (if defaultFirst && known then [default] else [])
                   + Without(sorted, default)
                   + (if !defaultFirst && known then [default] else [])
  {
    out := if defaultFirst && known then [default] else [];
    ghost var head := out;
    for i := 0 to |sorted|
      invariant out == head + Without(sorted[..i], default)
    {
      assert sorted[..i + 1][..i] == sorted[..i];
      if default != sorted[i] {
        out := out + [sorted[i]];
      }
    }
    assert sorted[..|sorted|] == sorted;
    if !defaultFirst && known {
      out := out + [default];
    }
  }

  function Without(s: seq<string>, x: string): seq<string> {
    if s == [] then []
    else if s[|s| - 1] == x then Without(s[..|s| - 1], x)
    else Without(s[..|s| - 1], x) + [s[|s| - 1]]
  }

  lemma {:induction false} WithoutCounts(s: seq<string>, x: string)
    ensures multiset(Without(s, x)) == multiset(s)[x := 0]
  {
    if s != [] {
      WithoutCounts(s[..|s| - 1], x);
      assert s == s[..|s| - 1] + [s[|s| - 1]];
    }
  }

  lemma {:induction false} PlacedIsOrder(names: seq<string>, databases: set<string>, default: string, defaultFirst: bool)
    requires Distinct(names)
    requires Elements(names) == databases
    ensures IsSyncOrder(Placed(names, databases, default, defaultFirst), databases, default, defaultFirst)
  {
    var order := Placed(names, databases, default, defaultFirst);
    OnceEach(names);
    WithoutCounts(Sorting.SortStrings(names), default);
    forall d: string
      ensures multiset(order)[d] == if d in databases then 1 else 0
    {
      assert multiset(names)[d] == if d in Elements(names) then 1 else 0;
    }
    DistinctIfOnce(order);
    assert forall d :: d in order <==> d in multiset(order);
  }

  /** The statements of one database, in the order they were sent. */
  function Of(qs: seq<Query>, database: string): seq<Query> {
    if qs == [] then []
    else
      var before, last := Of(qs[..|qs| - 1], database), qs[|qs| - 1];
      if last.database == database then before + [last] else before
  }

  /** The databases one after the other, each with its own statements. */
  function Grouped(order: seq<string>, k: nat, qs: seq<Query>): seq<Query>
    requires k <= |order|
  {
    if k == 0 then [] else Grouped(order, k - 1, qs) + Of(qs, order[k - 1])
  }

  /** A statement for the default or the first database is told its name. */
  function Resolve(q: Query, order: seq<string>, default: string): Query {
    if q.database == "" then q.(database := default)
    else if q.database == "<first>" && order != [] then q.(database := order[0])
    else q
  }

  function ResolveAll(qs: seq<Query>, order: seq<string>, default: string): seq<Query> {
    if qs == [] then []
    else ResolveAll(qs[..|qs| - 1], order, default) + [Resolve(qs[|qs| - 1], order, default)]
  }

  /** GroupByDatabase: None is the index panic on an empty sync order. */
  method GroupByDatabase(databases: set<string>, default: string, qs: seq<Query>) returns (out: Option<seq<Query>>, order: seq<string>)
    ensures IsSyncOrder(order, databases, default, false)
    ensures out == if databases == {} && (exists q :: q in qs && q.database == "<first>") then None
                   else Some(Grouped(order, |order|, ResolveAll(qs, order, default)))
  {
    order := SyncOrder(databases, default, false);
    assert order == [] <==> databases == {} by {
      if order != [] { assert order[0] in Elements(order); }
    }
    var queries := [];
    for i := 0 to |qs|
      invariant queries == ResolveAll(qs[..i], order, default)
      invariant order == [] ==> forall j :: 0 <= j < i ==> qs[j].database != "<first>"
    {
      assert qs[..i + 1][..i] == qs[..i];
      if qs[i].database == "<first>" && order == [] {
        return None, order;
      }
      queries := queries + [Resolve(qs[i], order, default)];
    }
    assert qs[..|qs|] == qs;
    var sent := SendGroups(order, queries);
    out := Some(sent);
  }

  method SendGroups(order: seq<string>, queries: seq<Query>) returns (sent: seq<Query>)
    ensures sent == Grouped(order, |order|, queries)
  {
    sent := [];
    for i := 0 to |order|
      invariant sent == Grouped(order, i, queries)
    {
      ghost var before := sent;
      for j := 0 to |queries|
        invariant sent == before + Of(queries[..j], order[i])
      {
        assert queries[..j + 1][..j] == queries[..j];
        if queries[j].database == order[i] {
          sent := sent + [queries[j]];
        }
      }
      assert queries[..|queries|] == queries;
    }
  }

  lemma {:induction false} OfConcat(a: seq<Query>, b: seq<Query>, database: string)
    ensures Of(a + b, database) == Of(a, database) + Of(b, database)
    decreases |b|
  {
    if b == [] {
      assert a + b == a;
    } else {
      OfConcat(a, b[..|b| - 1], database);
      assert (a + b)[..|a + b| - 1] == a + b[..|b| - 1];
    }
  }

  lemma {:induction false} ResolveConcat(a: seq<Query>, b: seq<Query>, order: seq<string>, default: string)
    ensures ResolveAll(a + b, order, default) == ResolveAll(a, order, default) + ResolveAll(b, order, default)
    decreases |b|
  {
    if b == [] {
      assert a + b == a;
    } else {
      ResolveConcat(a, b[..|b| - 1], order, default);
      assert (a + b)[..|a + b| - 1] == a + b[..|b| - 1];
    }
  }

  /** Each group holds its database's statements, as many times as sent, and no other. */
  lemma {:induction false} OfCounts(qs: seq<Query>, database: string, q: Query)
    ensures multiset(Of(qs, database))[q] == if q.database == database then multiset(qs)[q] else 0
  {
    if qs != [] {
      OfCounts(qs[..|qs| - 1], database, q);
      assert qs == qs[..|qs| - 1] + [qs[|qs| - 1]];
    }
  }

  lemma {:induction false} GroupedCounts(order: seq<string>, k: nat, qs: seq<Query>, q: Query)
    requires k <= |order| && Distinct(order)
    ensures multiset(Grouped(order, k, qs))[q] == if q.database in order[..k] then multiset(qs)[q] else 0
  {
    hide Of;
    if k > 0 {
      GroupedCounts(order, k - 1, qs, q);
      OfCounts(qs, order[k - 1], q);
      assert order[..k] == order[..k - 1] + [order[k - 1]];
    }
  }

  /** Regrouping keeps every statement exactly when every statement names a database
      of the sync order; the others are dropped without notice. */
  lemma {:induction false} NothingLost(order: seq<string>, qs: seq<Query>)
    requires Distinct(order)
    ensures multiset(Grouped(order, |order|, qs)) == multiset(qs) <==> forall q :: q in qs ==> q.database in order
  {
    var grouped := Grouped(order, |order|, qs);
    assert order[..|order|] == order;
    forall q: Query
      ensures multiset(grouped)[q] == if q.database in order then multiset(qs)[q] else 0
    {
      GroupedCounts(order, |order|, qs, q);
    }
    forall q | q in qs && multiset(grouped) == multiset(qs)
      ensures q.database in order
    {
      assert q in multiset(qs);
    }
    if forall q :: q in qs ==> q.database in order {
      forall q: Query
        ensures multiset(grouped)[q] == multiset(qs)[q]
      {
        if q !in multiset(qs) { assert multiset(qs)[q] == 0; }
      }
    }
  }

  /** With the default database unmanaged, no statement meant for it survives. */
  lemma {:induction false} UnmanagedDefaultLosesStatements(order: seq<string>, default: string, qs: seq<Query>, q: Query)
    requires Distinct(order) && default !in order
    requires q in qs && q.database == default
    ensures q !in Grouped(order, |order|, qs)
  {
    assert order[..|order|] == order;
    GroupedCounts(order, |order|, qs, q);
    assert multiset(Grouped(order, |order|, qs))[q] == 0;
  }

  /** Within a database, the order in which statements were sent is kept. */
  lemma {:induction false} GroupIsStable(order: seq<string>, k: nat, qs: seq<Query>, database: string)
    requires k <= |order| && Distinct(order)
    ensures Of(Grouped(order, k, qs), database) == if database in order[..k] then Of(qs, database) else []
  {
    hide Of;
    if k == 0 {
      OfNone(database);
    } else {
      var before, group := Grouped(order, k - 1, qs), Of(qs, order[k - 1]);
      GroupIsStable(order, k - 1, qs, database);
      OfConcat(before, group, database);
      OfTwice(qs, order[k - 1], database);
      assert order[..k] == order[..k - 1] + [order[k - 1]];
      assert database == order[k - 1] ==> database !in order[..k - 1];
    }
  }

  lemma {:induction false} OfNone(database: string)
    ensures Of([], database) == []
  {
  }

  lemma {:induction false} OfTwice(qs: seq<Query>, a: string, b: string)
    ensures Of(Of(qs, a), b) == if a == b then Of(qs, a) else []
  {
    if qs != [] {
      var front, last := qs[..|qs| - 1], qs[|qs| - 1];
      OfTwice(front, a, b);
      if last.database == a {
        assert (Of(front, a) + [last])[..|Of(front, a)|] == Of(front, a);
      }
    }
  }
}
