/** Depth-first, parents-first ordering of a finite "name -> parents" graph.
    internal/tree/walk.go and internal/role/map.go run the same traversal over
    two different graphs; the traversal and what it promises are stated here once. */
module TopoSort {
  import opened Collections

  /** Each known name with its direct parents, in the order they are listed.
      A parent that is not a key is unknown and is passed over. */
  type Graph = map<string, seq<string>>

  ghost predicate Edge(g: Graph, child: string, parent: string) {
    child in g && parent in g[child]
  }

  /** A walk from child to parent, one edge at a time. */
  ghost predicate IsPath(g: Graph, path: seq<string>) {
    && path != []
    && forall i :: 0 < i < |path| ==> Edge(g, path[i - 1], path[i])
  }

  ghost predicate Leads(g: Graph, path: seq<string>, from: string, to: string) {
    IsPath(g, path) && path[0] == from && path[|path| - 1] == to
  }

  ghost predicate LeadsUp(g: Graph, path: seq<string>, from: string, to: string) {
    Leads(g, path, from, to) && |path| >= 2
  }

  /** At least one edge leads from a to b. */
  ghost predicate Above(g: Graph, a: string, b: string) {
    exists path :: LeadsUp(g, path, a, b)
  }

  ghost predicate AtOrAbove(g: Graph, a: string, b: string) {
    exists path :: Leads(g, path, a, b)
  }

  ghost predicate Acyclic(g: Graph) {
    forall n :: !Above(g, n, n)
  }

  lemma {:induction false} ConcatPath(g: Graph, p: seq<string>, q: seq<string>)
    requires IsPath(g, p) && IsPath(g, q) && p[|p| - 1] == q[0]
    ensures Leads(g, p + q[1..], p[0], q[|q| - 1])
  {
    var r := p + q[1..];
    forall i | 0 < i < |r|
      ensures Edge(g, r[i - 1], r[i])
    {
      if i >= |p| {
        var j := i - |p| + 1;
        assert r[i] == q[j] && r[i - 1] == q[j - 1];
      }
    }
  }

  lemma {:induction false} EdgeThen(g: Graph, a: string, b: string, c: string)
    requires Edge(g, a, b) && AtOrAbove(g, b, c)
    ensures Above(g, a, c) && AtOrAbove(g, a, c)
  {
    var path :| Leads(g, path, b, c);
    assert IsPath(g, [a, b]);
    ConcatPath(g, [a, b], path);
    assert LeadsUp(g, [a, b] + path[1..], a, c);
  }

  lemma {:induction false} SelfIsPath(g: Graph, name: string)
    ensures IsPath(g, [name]) && AtOrAbove(g, name, name)
  {
    assert Leads(g, [name], name, name);
  }

  /** The known names above n. */
  ghost function Ancestors(g: Graph, n: string): set<string> {
    set a | a in g && Above(g, n, a)
  }

  /** How many known names are above n: parents have fewer than their children. */
  ghost function Height(g: Graph, n: string): nat {
    |Ancestors(g, n)|
  }

  lemma {:induction false} ParentIsLower(g: Graph, child: string, parent: string)
    requires Acyclic(g) && Edge(g, child, parent) && parent in g
    ensures Height(g, parent) < Height(g, child)
  {
    forall a | a in Ancestors(g, parent)
      ensures a in Ancestors(g, child)
    {
      var path :| LeadsUp(g, path, parent, a);
      EdgeThen(g, child, parent, a);
    }
    SelfIsPath(g, parent);
    EdgeThen(g, child, parent, parent);
    assert parent in Ancestors(g, child) && parent !in Ancestors(g, parent);
    SubsetCardinality(Ancestors(g, parent), Ancestors(g, child));
  }

  lemma {:induction false} SubsetCardinality(a: set<string>, b: set<string>)
    requires a < b
    ensures |a| < |b|
  {
    assert |b| == |a| + |b - a| by { assert b == a + (b - a); }
  }

  /** Every known name of names is lower than bound. */
  ghost predicate Bounded(g: Graph, names: seq<string>, bound: nat) {
    forall i :: 0 <= i < |names| ==> LowerThan(g, names[i], bound)
  }

  ghost predicate LowerThan(g: Graph, n: string, bound: nat) {
    n in g ==> Height(g, n) < bound
  }

  lemma {:induction false} ParentsBounded(g: Graph, name: string)
    requires Acyclic(g) && name in g
    ensures Bounded(g, g[name], Height(g, name))
  {
    forall i | 0 <= i < |g[name]|
      ensures LowerThan(g, g[name][i], Height(g, name))
    {
      if g[name][i] in g { ParentIsLower(g, name, g[name][i]); }
    }
  }

  lemma {:induction false} AllBounded(g: Graph, names: seq<string>)
    requires Acyclic(g)
    ensures Bounded(g, names, |g.Keys|)
  {
    forall i | 0 <= i < |names|
      ensures LowerThan(g, names[i], |g.Keys|)
    {
      var n := names[i];
      if n in g {
        assert n !in Ancestors(g, n);
        SubsetCardinality(Ancestors(g, n), g.Keys);
      }
    }
  }

  /** The traversal of one name: nothing if it is unknown or already seen,
      otherwise the parents in listed order and then the name itself. */
  ghost function Visit(g: Graph, name: string, seen: set<string>): seq<string>
    requires Acyclic(g)
    decreases Height(g, name), 1, 0
  {
    if name in seen || name !in g then []
    else
      ParentsBounded(g, name);
      VisitFirst(g, g[name], |g[name]|, seen, Height(g, name)) + [name]
  }

  /** The traversal of the first k names in turn, sharing what has been seen. */
  ghost function VisitFirst(g: Graph, names: seq<string>, k: nat, seen: set<string>, bound: nat): seq<string>
    requires Acyclic(g) && Bounded(g, names, bound) && k <= |names|
    decreases bound, 0, k
  {
    if k == 0 then []
    else
      var before := VisitFirst(g, names, k - 1, seen, bound);
      if names[k - 1] !in g then before
      else before + Visit(g, names[k - 1], seen + Elements(before))
  }

  lemma {:induction false} VisitLast(g: Graph, name: string, seen: set<string>, now: set<string>)
    requires Acyclic(g) && name in g && name !in seen && Bounded(g, g[name], Height(g, name))
    requires now == seen + Elements(VisitFirst(g, g[name], |g[name]|, seen, Height(g, name)))
    ensures Visit(g, name, seen) == VisitFirst(g, g[name], |g[name]|, seen, Height(g, name)) + [name]
    ensures seen + Elements(Visit(g, name, seen)) == now + {name}
  {
  }

  lemma {:induction false} VisitFirstStep(g: Graph, names: seq<string>, i: nat, seen: set<string>, bound: nat, now: set<string>)
    requires Acyclic(g) && Bounded(g, names, bound) && i < |names| && names[i] in g
    requires now == seen + Elements(VisitFirst(g, names, i, seen, bound))
    ensures var more := Visit(g, names[i], now);
            && VisitFirst(g, names, i + 1, seen, bound) == VisitFirst(g, names, i, seen, bound) + more
            && seen + Elements(VisitFirst(g, names, i + 1, seen, bound)) == now + Elements(more)
  {
  }

  lemma {:induction false} VisitNone(g: Graph, names: seq<string>, seen: set<string>, bound: nat)
    requires Acyclic(g) && Bounded(g, names, bound)
    ensures VisitFirst(g, names, 0, seen, bound) == []
  {
    hide Acyclic, Visit;
  }

  /** The i-th name is known and its known parents are seen or listed before it. */
  ghost predicate ReadyAt(g: Graph, order: seq<string>, i: nat, seen: set<string>)
    requires i < |order|
  {
    order[i] in g && forall p :: p in g[order[i]] && p in g ==> p in seen || p in order[..i]
  }

  /** The names of order are new, listed once, and each comes after its known parents. */
  ghost predicate ParentsFirst(g: Graph, order: seq<string>, seen: set<string>) {
    && Distinct(order)
    && (forall i :: 0 <= i < |order| ==> order[i] !in seen)
    && (forall i: nat :: i < |order| ==> ReadyAt(g, order, i, seen))
  }

  lemma {:induction false} ParentsFirstConcat(g: Graph, a: seq<string>, b: seq<string>, seen: set<string>)
    requires ParentsFirst(g, a, seen) && ParentsFirst(g, b, seen + Elements(a))
    ensures ParentsFirst(g, a + b, seen)
  {
    var s := a + b;
    forall i: nat | i < |s|
      ensures ReadyAt(g, s, i, seen)
    {
      if i < |a| {
        assert ReadyAt(g, a, i, seen) && s[..i] == a[..i];
      } else {
        assert ReadyAt(g, b, i - |a|, seen + Elements(a)) && s[..i] == a + b[..i - |a|];
      }
    }
  }

  lemma {:induction false} VisitFrom(g: Graph, name: string, seen: set<string>, n: string)
    requires Acyclic(g) && n in Visit(g, name, seen)
    ensures AtOrAbove(g, name, n) && (n != name ==> Above(g, name, n))
    decreases Height(g, name), 1, 0
  {
    SelfIsPath(g, name);
    if n != name {
      ParentsBounded(g, name);
      var i := VisitFirstFrom(g, g[name], |g[name]|, seen, Height(g, name), n);
      EdgeThen(g, name, g[name][i], n);
    }
  }

  lemma {:induction false} VisitFirstFrom(g: Graph, names: seq<string>, k: nat, seen: set<string>, bound: nat, n: string) returns (i: nat)
    requires Acyclic(g) && Bounded(g, names, bound) && k <= |names|
    requires n in VisitFirst(g, names, k, seen, bound)
    ensures i < k && AtOrAbove(g, names[i], n)
    decreases bound, 0, k
  {
    if n in VisitFirst(g, names, k - 1, seen, bound) {
      i := VisitFirstFrom(g, names, k - 1, seen, bound, n);
    } else {
      i := k - 1;
      VisitFrom(g, names[i], seen + Elements(VisitFirst(g, names, i, seen, bound)), n);
    }
  }

  lemma {:induction false} VisitSound(g: Graph, name: string, seen: set<string>)
    requires Acyclic(g)
    ensures ParentsFirst(g, Visit(g, name, seen), seen)
    ensures name in g ==> name in seen || name in Visit(g, name, seen)
    decreases Height(g, name), 1, 0
  {
    if name !in seen && name in g {
      ParentsBounded(g, name);
      var above := VisitFirst(g, g[name], |g[name]|, seen, Height(g, name));
      VisitFirstSound(g, g[name], |g[name]|, seen, Height(g, name));
      if name in above {
        var i := VisitFirstFrom(g, g[name], |g[name]|, seen, Height(g, name), name);
        EdgeThen(g, name, g[name][i], name);
      }
      assert ParentsFirst(g, [name], seen + Elements(above));
      ParentsFirstConcat(g, above, [name], seen);
    }
  }

  lemma {:induction false} VisitFirstSound(g: Graph, names: seq<string>, k: nat, seen: set<string>, bound: nat)
    requires Acyclic(g) && Bounded(g, names, bound) && k <= |names|
    ensures ParentsFirst(g, VisitFirst(g, names, k, seen, bound), seen)
    ensures forall i :: 0 <= i < k && names[i] in g ==> names[i] in seen || names[i] in VisitFirst(g, names, k, seen, bound)
    decreases bound, 0, k
  {
    hide Acyclic, Visit, Above, ReadyAt;
    if k > 0 {
      var before := VisitFirst(g, names, k - 1, seen, bound);
      VisitFirstSound(g, names, k - 1, seen, bound);
      if names[k - 1] in g {
        VisitSound(g, names[k - 1], seen + Elements(before));
        ParentsFirstConcat(g, before, Visit(g, names[k - 1], seen + Elements(before)), seen);
      }
    }
  }

  /** A complete traversal lists every known name once, after its known parents. */
  lemma {:induction false} TraversalIsTopological(g: Graph, names: seq<string>)
    requires Acyclic(g) && Bounded(g, names, |g.Keys|) && Elements(names) == g.Keys
    ensures var order := VisitFirst(g, names, |names|, {}, |g.Keys|);
            ParentsFirst(g, order, {}) && Elements(order) == g.Keys
  {
    VisitFirstSound(g, names, |names|, {}, |g.Keys|);
    var order := VisitFirst(g, names, |names|, {}, |g.Keys|);
    forall n | n in g
      ensures n in order
    {
      assert n in Elements(names);
      var i :| 0 <= i < |names| && names[i] == n;
    }
    forall n | n in order
      ensures n in g
    {
      var i :| 0 <= i < |order| && order[i] == n;
      assert ReadyAt(g, order, i, {});
    }
  }

  /** The set of names already listed, shared by the calls of a traversal. */
  class Seen {
    var names: set<string>

    constructor ()
      ensures names == {}
    {
      names := {};
    }
  }
}
