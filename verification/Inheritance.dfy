/** Parents-first order of an inheritance map (Walk; internal/tree/walk.go). */
module Inheritance {
  import opened Collections
  import opened TopoSort
  import Sorting

  /** The map of parents: walking it sorts its lists in place. */
  class Groups {
    var parents: map<string, seq<string>>

    constructor (parents: map<string, seq<string>>)
      ensures this.parents == parents
    {
      this.parents := parents;
    }
  }

  function ParentsOf(h: map<string, seq<string>>, name: string): seq<string> {
    if name in h then h[name] else []
  }

  /** Every name in the map, as a child or as a parent. */
  ghost function Nodes(h: map<string, seq<string>>): set<string> {
    h.Keys + set k, p | k in h && p in h[k] :: p
  }

  /** The graph that is walked: a parent that is no key has no parents of its own. */
  ghost function Full(h: map<string, seq<string>>): Graph {
    map n | n in Nodes(h) :: Sorting.SortStrings(ParentsOf(h, n))
  }

  ghost predicate IsFull(h: map<string, seq<string>>, g: Graph) {
    forall n :: n in g ==> IsFullAt(h, g, n)
  }

  ghost predicate IsFullAt(h: map<string, seq<string>>, g: Graph, n: string)
    requires n in g
  {
    g[n] == Sorting.SortStrings(ParentsOf(h, n)) && forall i :: 0 <= i < |g[n]| ==> g[n][i] in g
  }

  lemma {:induction false} SortedIn(s: seq<string>, p: string)
    ensures p in Sorting.SortStrings(s) <==> p in s
  {
    assert p in multiset(Sorting.SortStrings(s)) <==> p in multiset(s);
  }

  lemma {:induction false} FullIsFull(h: map<string, seq<string>>)
    ensures IsFull(h, Full(h))
  {
    var g := Full(h);
    forall n | n in g
      ensures IsFullAt(h, g, n)
    {
      forall i | 0 <= i < |g[n]|
        ensures g[n][i] in g
      {
        SortedIn(ParentsOf(h, n), g[n][i]);
      }
    }
  }

  /** Lists of names already seen are sorted, the others may be. */
  ghost predicate Tidied(h: map<string, seq<string>>, now: map<string, seq<string>>, seen: set<string>) {
    now.Keys == h.Keys && forall k :: k in h ==> TidiedAt(h, now, seen, k)
  }

  ghost predicate TidiedAt(h: map<string, seq<string>>, now: map<string, seq<string>>, seen: set<string>, k: string)
    requires k in h && k in now
  {
    IsSorted(h, now, k) || (k !in seen && now[k] == h[k])
  }

  ghost predicate IsSorted(h: map<string, seq<string>>, now: map<string, seq<string>>, k: string)
    requires k in h && k in now
  {
    now[k] == Sorting.SortStrings(h[k])
  }

  /** A list that was sorted still is. */
  ghost predicate StaysSorted(h: map<string, seq<string>>, before: map<string, seq<string>>, after: map<string, seq<string>>) {
    before.Keys == after.Keys == h.Keys && forall k :: k in h && IsSorted(h, before, k) ==> IsSorted(h, after, k)
  }

  lemma {:induction false} SortOne(h: map<string, seq<string>>, now: map<string, seq<string>>, seen: set<string>, k: string)
    requires k in h && k in now && TidiedAt(h, now, seen, k)
    ensures Sorting.SortStrings(now[k]) == Sorting.SortStrings(h[k])
  {
    Sorting.SortTwice(h[k]);
  }

  lemma {:induction false} SortKeeps(h: map<string, seq<string>>, now: map<string, seq<string>>, seen: set<string>, name: string)
    requires Tidied(h, now, seen) && name in h
    ensures var after := now[name := Sorting.SortStrings(h[name])];
            Tidied(h, after, seen) && StaysSorted(h, now, after) && IsSorted(h, after, name)
  {
    var after := now[name := Sorting.SortStrings(h[name])];
    forall k | k in h
      ensures TidiedAt(h, after, seen, k)
    {
      assert TidiedAt(h, now, seen, k);
    }
  }

  lemma {:induction false} SeenKeeps(h: map<string, seq<string>>, now: map<string, seq<string>>, seen: set<string>, name: string)
    requires Tidied(h, now, seen) && (name in h ==> IsSorted(h, now, name))
    ensures Tidied(h, now, seen + {name})
  {
    forall k | k in h ensures TidiedAt(h, now, seen + {name}, k) { assert TidiedAt(h, now, seen, k); }
  }

  /** slices.Sort on the list of one name. */
  method SortParents(name: string, groups: Groups, ghost h: map<string, seq<string>>, ghost seen: set<string>) returns (parents: seq<string>)
    requires Tidied(h, groups.parents, seen)
    modifies groups
    ensures parents == Sorting.SortStrings(ParentsOf(h, name))
    ensures Tidied(h, groups.parents, seen) && StaysSorted(h, old(groups.parents), groups.parents)
    ensures name in h ==> IsSorted(h, groups.parents, name)
  {
    parents := Sorting.SortStrings(ParentsOf(groups.parents, name));
    if name in groups.parents {
      assert TidiedAt(h, groups.parents, seen, name);
      SortOne(h, groups.parents, seen, name);
      SortKeeps(h, groups.parents, seen, name);
      groups.parents := groups.parents[name := parents];
    }
  }

  /** walkOne. */
  method WalkOne(name: string, groups: Groups, seen: Seen, ghost h: map<string, seq<string>>, ghost g: Graph) returns (order: seq<string>)
    requires Acyclic(g) && IsFull(h, g) && name in g && Tidied(h, groups.parents, seen.names)
    modifies groups, seen
    ensures order == Visit(g, name, old(seen.names))
    ensures seen.names == old(seen.names) + Elements(order)
    ensures Tidied(h, groups.parents, seen.names) && StaysSorted(h, old(groups.parents), groups.parents)
    decreases Height(g, name), 1
  {
    order := [];
    if name in seen.names {
      return;
    }
    ParentsBounded(g, name);
    assert IsFullAt(h, g, name);
    var parents := SortParents(name, groups, h, seen.names);
    order := WalkParents(name, parents, groups, seen, h, g);
    VisitLast(g, name, old(seen.names), seen.names);
    SeenKeeps(h, groups.parents, seen.names, name);
    order := order + [name];
    seen.names := seen.names + {name};
  }

  /** The loop of walkOne. */
  method WalkParents(name: string, parents: seq<string>, groups: Groups, seen: Seen, ghost h: map<string, seq<string>>, ghost g: Graph)
    returns (order: seq<string>)
    requires Acyclic(g) && IsFull(h, g) && name in g && parents == g[name] && Tidied(h, groups.parents, seen.names)
    requires Bounded(g, g[name], Height(g, name))
    modifies groups, seen
    ensures order == VisitFirst(g, g[name], |g[name]|, old(seen.names), Height(g, name))
    ensures seen.names == old(seen.names) + Elements(order)
    ensures Tidied(h, groups.parents, seen.names) && StaysSorted(h, old(groups.parents), groups.parents)
    decreases Height(g, name), 0
  {
    hide Acyclic, Height, VisitFirst, Visit, Tidied, StaysSorted, Bounded, IsFull;
    order := [];
    VisitNone(g, g[name], seen.names, Height(g, name));
    StaysSame(h, groups.parents, seen.names);
    for i := 0 to |parents|
      invariant order == VisitFirst(g, g[name], i, old(seen.names), Height(g, name))
      invariant seen.names == old(seen.names) + Elements(order)
      invariant Tidied(h, groups.parents, seen.names) && StaysSorted(h, old(groups.parents), groups.parents)
    {
      ListedIsLower(h, g, name, i);
      VisitFirstStep(g, g[name], i, old(seen.names), Height(g, name), seen.names);
      ghost var between := groups.parents;
      var more := WalkOne(parents[i], groups, seen, h, g);
      StaysOn(h, old(groups.parents), between, groups.parents);
      order := order + more;
    }
  }

  lemma {:induction false} ListedIsLower(h: map<string, seq<string>>, g: Graph, name: string, i: nat)
    requires Acyclic(g) && IsFull(h, g) && name in g && i < |g[name]| && Bounded(g, g[name], Height(g, name))
    ensures g[name][i] in g && Height(g, g[name][i]) < Height(g, name)
  {
    hide Acyclic, Height;
    assert IsFullAt(h, g, name);
    assert LowerThan(g, g[name][i], Height(g, name));
  }

  lemma {:induction false} StaysSame(h: map<string, seq<string>>, now: map<string, seq<string>>, seen: set<string>)
    requires Tidied(h, now, seen)
    ensures StaysSorted(h, now, now)
  {
  }

  lemma {:induction false} StaysOn(h: map<string, seq<string>>, before: map<string, seq<string>>, between: map<string, seq<string>>, now: map<string, seq<string>>)
    requires StaysSorted(h, before, between) && StaysSorted(h, between, now)
    ensures StaysSorted(h, before, now)
  {
  }

  /** order lists every name once, parents first. */
  ghost predicate IsWalk(g: Graph, order: seq<string>) {
    ParentsFirst(g, order, {}) && Elements(order) == g.Keys
  }

  lemma {:induction false} SortedHasSame(s: seq<string>)
    ensures forall p :: p in Sorting.SortStrings(s) <==> p in s
  {
    forall p ensures p in Sorting.SortStrings(s) <==> p in s { SortedIn(s, p); }
  }

  /** Walk: every name, as a key or as a parent, once and after its parents; the lists of
      parents are left sorted. */
  method Walk(groups: Groups) returns (out: seq<string>)
    requires Acyclic(Full(groups.parents))
    modifies groups
    ensures IsWalk(Full(old(groups.parents)), out)
    ensures groups.parents.Keys == old(groups.parents.Keys)
    ensures forall k :: k in old(groups.parents) ==> IsSorted(old(groups.parents), groups.parents, k)
  {
    ghost var h, g := groups.parents, Full(groups.parents);
    FullIsFull(h);
    var any := AnyOrder(groups.parents.Keys);
    var keys := Sorting.SortStrings(any);
    SortedHasSame(any);
    ghost var seen;
    out, seen := WalkKeys(keys, groups, h, g);
    AllListed(h, g, keys, out);
    forall k | k in h
      ensures IsSorted(h, groups.parents, k)
    {
      assert TidiedAt(h, groups.parents, seen, k) && k in Elements(out);
    }
  }

  method WalkKeys(keys: seq<string>, groups: Groups, ghost h: map<string, seq<string>>, ghost g: Graph) returns (out: seq<string>, ghost names: set<string>)
    requires Acyclic(g) && IsFull(h, g) && groups.parents == h && forall i :: 0 <= i < |keys| ==> keys[i] in g
    modifies groups
    ensures ParentsFirst(g, out, {}) && forall i :: 0 <= i < |keys| ==> keys[i] in out
    ensures names == Elements(out) && Tidied(h, groups.parents, names)
  {
    hide Acyclic, IsFull, VisitFirst, Visit, Bounded, Tidied, ParentsFirst;
    out := [];
    AllBounded(g, keys);
    VisitNone(g, keys, {}, |g.Keys|);
    var seen := new Seen();
    TidyAtFirst(h);
    for i := 0 to |keys|
      invariant fresh(seen) && seen.names == {} + Elements(out)
      invariant out == VisitFirst(g, keys, i, {}, |g.Keys|)
      invariant Tidied(h, groups.parents, seen.names)
    {
      VisitFirstStep(g, keys, i, {}, |g.Keys|, seen.names);
      var more := WalkOne(keys[i], groups, seen, h, g);
      out := out + more;
    }
    names := seen.names;
    VisitFirstSound(g, keys, |keys|, {}, |g.Keys|);
  }

  lemma {:induction false} TidyAtFirst(h: map<string, seq<string>>)
    ensures Tidied(h, h, {})
  {
  }

  /** Starting from the keys reaches the other parents too. */
  lemma {:induction false} AllListed(h: map<string, seq<string>>, g: Graph, keys: seq<string>, order: seq<string>)
    requires IsFull(h, g) && g.Keys == Nodes(h) && ParentsFirst(g, order, {})
    requires forall k :: k in h ==> k in keys
    requires forall i :: 0 <= i < |keys| ==> keys[i] in order
    ensures Elements(order) == g.Keys
  {
    forall n | n in g
      ensures n in order
    {
      if n in h {
        KeyIsListed(keys, order, n);
      } else {
        var k :| k in h && n in h[k];
        KeyIsListed(keys, order, k);
        ParentIsListed(h, g, order, k, n);
      }
    }
    forall n | n in order
      ensures n in g
    {
      var i :| 0 <= i < |order| && order[i] == n;
      assert ReadyAt(g, order, i, {});
    }
  }

  lemma {:induction false} KeyIsListed(keys: seq<string>, order: seq<string>, k: string)
    requires k in keys && forall i :: 0 <= i < |keys| ==> keys[i] in order
    ensures k in order
  {
    var i :| 0 <= i < |keys| && keys[i] == k;
  }

  lemma {:induction false} ParentIsListed(h: map<string, seq<string>>, g: Graph, order: seq<string>, k: string, n: string)
    requires IsFull(h, g) && ParentsFirst(g, order, {}) && k in order && k in g && k in h && n in h[k] && n in g
    ensures n in order
  {
    var i :| 0 <= i < |order| && order[i] == k;
    assert ReadyAt(g, order, i, {}) && IsFullAt(h, g, k);
    SortedIn(h[k], n);
  }
}
