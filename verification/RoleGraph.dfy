/** Loop detection and ordering of wanted roles (internal/role/role.go, map.go). */
module RoleGraph {
  import opened Roles
  import opened Collections
  import opened TopoSort

  /** Map: roles by name. */
  type RoleMap = map<string, Role>

  predicate WellKeyed(m: RoleMap) {
    forall n :: n in m ==> m[n].name == n
  }

  function Names(parents: seq<Membership>): (names: seq<string>)
    ensures |names| == |parents|
  {
    seq(|parents|, i requires 0 <= i < |parents| => parents[i].name)
  }

  /** The membership graph of the map; parents outside the map are unknown. */
  function GraphOf(m: RoleMap): Graph {
    map n | n in m :: Names(m[n].parents)
  }

  /** The names from the role being checked down to it, all different and all in the map. */
  ghost predicate Genealogy(g: Graph, genealogy: seq<string>) {
    Distinct(genealogy) && forall n :: n in genealogy ==> n in g
  }

  ghost function Unentered(g: Graph, genealogy: seq<string>): set<string> {
    g.Keys - Elements(genealogy)
  }

  lemma {:induction false} LongerGenealogy(g: Graph, name: string, genealogy: seq<string>)
    requires Genealogy(g, genealogy) && name in g && name !in genealogy
    ensures Genealogy(g, [name] + genealogy)
    ensures Unentered(g, [name] + genealogy) < Unentered(g, genealogy)
  {
    assert name in Unentered(g, genealogy) && name !in Unentered(g, [name] + genealogy);
  }

  /** Role.Check: the error is the chain of names its message lists, from the
      checked role to the repeated one. */
  ghost function Loop(g: Graph, name: string, genealogy: seq<string>): Option<seq<string>>
    requires Genealogy(g, genealogy)
    decreases Unentered(g, genealogy), 0, 0
  {
    if name !in g then None
    else if name in genealogy then Some([name])
    else
      LongerGenealogy(g, name, genealogy);
      match LoopInFirst(g, g[name], |g[name]|, [name] + genealogy)
      case None => None
      case Some(chain) => Some([name] + chain)
  }

  /** The first loop found among the first k names. */
  ghost function LoopInFirst(g: Graph, names: seq<string>, k: nat, genealogy: seq<string>): Option<seq<string>>
    requires Genealogy(g, genealogy) && k <= |names|
    decreases Unentered(g, genealogy), 1, k
  {
    if k == 0 then None
    else
      match LoopInFirst(g, names, k - 1, genealogy)
      case Some(chain) => Some(chain)
      case None => Loop(g, names[k - 1], genealogy)
  }

  lemma {:induction false} FirstLoopStays(g: Graph, names: seq<string>, i: nat, k: nat, genealogy: seq<string>)
    requires Genealogy(g, genealogy) && i <= k <= |names|
    requires LoopInFirst(g, names, i, genealogy).Some?
    ensures LoopInFirst(g, names, k, genealogy) == LoopInFirst(g, names, i, genealogy)
    decreases k
  {
    if i < k {
      FirstLoopStays(g, names, i, k - 1, genealogy);
    }
  }

  /** Role.Check as it runs: the genealogy grows at the front on the way up. */
  method CheckRole(m: RoleMap, r: Role, genealogy: seq<string>) returns (err: Option<seq<string>>)
    requires WellKeyed(m) && r.name in m && m[r.name] == r
    requires Genealogy(GraphOf(m), genealogy)
    ensures err == Loop(GraphOf(m), r.name, genealogy)
    decreases Unentered(GraphOf(m), genealogy)
  {
    if r.name in genealogy {
      return Some([r.name]);
    }
    var longer := [r.name] + genealogy;
    ghost var g := GraphOf(m);
    ghost var names := g[r.name];
    LongerGenealogy(g, r.name, genealogy);
    for i := 0 to |r.parents|
      invariant LoopInFirst(g, names, i, longer) == None
    {
      var parent := r.parents[i].name;
      if parent in m {
        var e := CheckRole(m, m[parent], longer);
        if e.Some? {
          FirstLoopStays(g, names, i + 1, |names|, longer);
          return Some([r.name] + e.value);
        }
      }
    }
    return None;
  }

  /** Map.Check, for any iteration order of the map: nil exactly when no role is,
      through any number of memberships inside the map, a member of itself; an
      error names a chain of memberships that really loops. */
  method Check(m: RoleMap) returns (err: Option<seq<string>>)
    requires WellKeyed(m)
    ensures err.None? <==> Acyclic(GraphOf(m))
    ensures err.Some? ==> IsPath(GraphOf(m), err.value) && RepeatsItsLast(err.value)
  {
    ghost var g := GraphOf(m);
    var order := AnyOrder(m.Keys);
    for i := 0 to |order|
      invariant forall j :: 0 <= j < i ==> Loop(g, order[j], []) == None
    {
      assert order[i] in Elements(order);
      var e := CheckRole(m, m[order[i]], []);
      if e.Some? {
        LoopIsReal(g, order[i], []);
        LassoIsCycle(g, e.value);
        return e;
      }
    }
    forall n | n in m
      ensures Loop(g, n, []) == None
    {
      assert n in Elements(order);
      var j :| 0 <= j < |order| && order[j] == n;
    }
    NoLoopFound(g);
    return None;
  }

  ghost predicate RepeatsItsLast(chain: seq<string>) {
    chain != [] && chain[|chain| - 1] in chain[..|chain| - 1]
  }

  /** A chain that starts at one of names and ends on a name met before. */
  ghost predicate ComesBack(g: Graph, chain: seq<string>, genealogy: seq<string>) {
    IsPath(g, chain) && (chain[|chain| - 1] in genealogy || RepeatsItsLast(chain))
  }

  lemma {:induction false} LoopIsReal(g: Graph, name: string, genealogy: seq<string>)
    requires Genealogy(g, genealogy)
    requires Loop(g, name, genealogy).Some?
    ensures ComesBack(g, Loop(g, name, genealogy).value, genealogy)
    ensures Loop(g, name, genealogy).value[0] == name
    decreases Unentered(g, genealogy), 0, 0
  {
    if name in genealogy {
      SelfIsPath(g, name);
    } else {
      LongerGenealogy(g, name, genealogy);
      var names := g[name];
      var chain := LoopInFirst(g, names, |names|, [name] + genealogy).value;
      LoopInFirstIsReal(g, names, |names|, [name] + genealogy);
      ChainGrows(g, name, chain, genealogy);
    }
  }

  lemma {:induction false} ChainGrows(g: Graph, name: string, chain: seq<string>, genealogy: seq<string>)
    requires ComesBack(g, chain, [name] + genealogy) && Edge(g, name, chain[0])
    ensures ComesBack(g, [name] + chain, genealogy)
  {
    var whole := [name] + chain;
    assert forall i :: 0 < i < |whole| ==> whole[i] == chain[i - 1];
    assert whole[..|whole| - 1] == [name] + chain[..|chain| - 1];
  }

  lemma {:induction false} LoopInFirstIsReal(g: Graph, names: seq<string>, k: nat, genealogy: seq<string>)
    requires Genealogy(g, genealogy) && k <= |names|
    requires LoopInFirst(g, names, k, genealogy).Some?
    ensures ComesBack(g, LoopInFirst(g, names, k, genealogy).value, genealogy)
    ensures LoopInFirst(g, names, k, genealogy).value[0] in names
    decreases Unentered(g, genealogy), 1, k
  {
    if LoopInFirst(g, names, k - 1, genealogy).Some? {
      LoopInFirstIsReal(g, names, k - 1, genealogy);
    } else {
      LoopIsReal(g, names[k - 1], genealogy);
    }
  }

  lemma {:induction false} LassoIsCycle(g: Graph, chain: seq<string>)
    requires IsPath(g, chain) && RepeatsItsLast(chain)
    ensures !Acyclic(g)
  {
    var last := |chain| - 1;
    var i :| 0 <= i < last && chain[i] == chain[last];
    var cycle := chain[i..];
    assert IsPath(g, cycle) by {
      assert forall j :: 0 < j < |cycle| ==> cycle[j] == chain[i + j];
    }
    assert LeadsUp(g, cycle, cycle[0], cycle[0]);
    assert Above(g, cycle[0], cycle[0]);
  }

  /** A role that passes has no membership walk that comes back on itself or on
      its genealogy. */
  lemma {:induction false} PassedWalks(g: Graph, name: string, genealogy: seq<string>, path: seq<string>)
    requires Genealogy(g, genealogy)
    requires Loop(g, name, genealogy).None?
    requires IsPath(g, path) && path[0] == name && path[|path| - 1] in g
    ensures path[|path| - 1] !in genealogy
    ensures |path| > 1 ==> path[|path| - 1] != name
    decreases |path|
  {
    if |path| > 1 {
      var rest := path[1..];
      assert Edge(g, path[1 - 1], path[1]);
      LongerGenealogy(g, name, genealogy);
      var k :| 0 <= k < |g[name]| && g[name][k] == path[1];
      PassedName(g, g[name], |g[name]|, k, [name] + genealogy);
      assert forall i :: 0 <= i < |rest| ==> rest[i] == path[i + 1];
      PassedWalks(g, path[1], [name] + genealogy, rest);
      assert rest[|rest| - 1] == path[|path| - 1];
    }
  }

  lemma {:induction false} PassedName(g: Graph, names: seq<string>, k: nat, i: nat, genealogy: seq<string>)
    requires Genealogy(g, genealogy) && i < k <= |names|
    requires LoopInFirst(g, names, k, genealogy).None?
    ensures Loop(g, names[i], genealogy).None?
    decreases k
  {
    if i < k - 1 {
      PassedName(g, names, k - 1, i, genealogy);
    }
  }

  lemma {:induction false} NoLoopFound(g: Graph)
    requires forall n :: n in g ==> Loop(g, n, []) == None
    ensures Acyclic(g)
  {
    forall n
      ensures !Above(g, n, n)
    {
      if Above(g, n, n) {
        var path :| LeadsUp(g, path, n, n);
        assert Edge(g, path[1 - 1], path[1]);
        PassedWalks(g, n, [], path);
      }
    }
  }

  /** Map.flattenRole. */
  method FlattenRole(m: RoleMap, r: Role, seen: Seen) returns (names: seq<string>)
    requires WellKeyed(m) && r.name in m && m[r.name] == r
    requires Acyclic(GraphOf(m))
    modifies seen
    ensures names == Visit(GraphOf(m), r.name, old(seen.names))
    ensures seen.names == old(seen.names) + Elements(names)
    decreases Height(GraphOf(m), r.name)
  {
    names := [];
    if r.name in seen.names {
      return;
    }
    ghost var g := GraphOf(m);
    ghost var parents, bound := g[r.name], Height(g, r.name);
    ParentsBounded(g, r.name);
    for i := 0 to |r.parents|
      invariant names == VisitFirst(g, parents, i, old(seen.names), bound)
      invariant seen.names == old(seen.names) + Elements(names)
    {
      var parent := r.parents[i].name;
      assert parents[i] == parent;
      if parent in m {
        VisitFirstStep(g, parents, i, old(seen.names), bound, seen.names);
        var more := FlattenRole(m, m[parent], seen);
        names := names + more;
      }
    }
    VisitLast(g, r.name, old(seen.names), seen.names);
    names := names + [r.name];
    seen.names := seen.names + {r.name};
  }

  ghost predicate IsFlattening(m: RoleMap, names: seq<string>) {
    Distinct(names) && Elements(names) == m.Keys && forall i :: 0 <= i < |names| ==> AfterParents(m, names, i)
  }

  /** The i-th name comes after all its parents in the map. */
  ghost predicate AfterParents(m: RoleMap, names: seq<string>, i: int)
    requires 0 <= i < |names|
  {
    names[i] in m && forall p :: p in m && p in ParentNames(m[names[i]].parents) ==> p in names[..i]
  }

  /** Map.Flatten, for any iteration order of the map: every role exactly once,
      after all its parents in the map. */
  method Flatten(m: RoleMap) returns (names: seq<string>)
    requires WellKeyed(m)
    requires Acyclic(GraphOf(m))
    ensures IsFlattening(m, names)
  {
    names := [];
    var order := AnyOrder(m.Keys);
    var seen := new Seen();
    ghost var g := GraphOf(m);
    AllBounded(g, order);
    for i := 0 to |order|
      invariant fresh(seen) && seen.names == {} + Elements(names)
      invariant names == VisitFirst(g, order, i, {}, |g.Keys|)
    {
      assert order[i] in Elements(order);
      VisitFirstStep(g, order, i, {}, |g.Keys|, seen.names);
      var more := FlattenRole(m, m[order[i]], seen);
      names := names + more;
    }
    TraversalIsTopological(g, order);
    ReadinessOfParents(m, names);
  }

  lemma {:induction false} ReadinessOfParents(m: RoleMap, names: seq<string>)
    requires ParentsFirst(GraphOf(m), names, {})
    requires Elements(names) == m.Keys
    ensures IsFlattening(m, names)
  {
    var g := GraphOf(m);
    forall i | 0 <= i < |names|
      ensures AfterParents(m, names, i)
    {
      assert names[i] in Elements(names);
      forall p | p in m && p in ParentNames(m[names[i]].parents)
        ensures p in names[..i]
      {
        var parents := m[names[i]].parents;
        var k :| 0 <= k < |parents| && parents[k].name == p;
        assert g[names[i]][k] == p;
        assert ReadyAt(g, names, i, {});
      }
    }
  }
}
