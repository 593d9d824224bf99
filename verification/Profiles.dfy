/** Profile inheritance (flattenProfiles; internal/privileges/profile.go). */
module Profiles {
  import opened Collections
  import opened TopoSort
  import opened Inheritance
  import Sorting

  /** An item of a profile: another profile to include, or a privilege. */
  datatype Item = Inclusion(profile: string) | Privilege(privilege: Priv)

  /** A privilege as a profile lists it. */
  datatype Priv = Priv(kind: string, on: string, target: string)

  type Lists<T> = map<string, seq<T>>

  function Get<T>(m: Lists<T>, key: string): seq<T> {
    if key in m then m[key] else []
  }

  /** The profiles that the first k items include. */
  function Inclusions(items: seq<Item>, k: nat): seq<string>
    requires k <= |items|
  {
    if k == 0 then []
    else Inclusions(items, k - 1) + if items[k - 1].Inclusion? then [items[k - 1].profile] else []
  }

  function Privileges(items: seq<Item>, k: nat): seq<Priv>
    requires k <= |items|
  {
    if k == 0 then []
    else Privileges(items, k - 1) + if items[k - 1].Privilege? then [items[k - 1].privilege] else []
  }

  /** A list is only made when it gets a value. */
  ghost predicate NoneEmpty<T>(m: Lists<T>) {
    forall k :: k in m ==> m[k] != []
  }

  /** m with values added to one list. */
  ghost predicate Added<T(!new)>(m: Lists<T>, m': Lists<T>, key: string, values: seq<T>) {
    (NoneEmpty(m) ==> NoneEmpty(m')) && forall k :: Get(m', k) == if k == key then Get(m, key) + values else Get(m, k)
  }

  /** m with what add gives added to the list of each of keys. */
  ghost predicate AllAdded<T(!new)>(m: Lists<T>, m': Lists<T>, keys: seq<string>, add: string -> seq<T>) {
    (NoneEmpty(m) ==> NoneEmpty(m')) && forall k :: Get(m', k) == if k in keys then Get(m, k) + add(k) else Get(m, k)
  }

  ghost function InclusionsIn(refs: Lists<Item>, key: string): seq<string> {
    Inclusions(Get(refs, key), |Get(refs, key)|)
  }

  ghost function PrivilegesIn(refs: Lists<Item>, key: string): seq<Priv> {
    Privileges(Get(refs, key), |Get(refs, key)|)
  }

  lemma {:induction false} AddValue<T(!new)>(m: Lists<T>, m': Lists<T>, key: string, values: seq<T>, x: T)
    requires Added(m, m', key, values)
    ensures Added(m, m'[key := Get(m', key) + [x]], key, values + [x])
  {
    var after := m'[key := Get(m', key) + [x]];
    forall k
      ensures Get(after, k) == if k == key then Get(m, key) + (values + [x]) else Get(m, k)
    {
      assert Get(m', k) == if k == key then Get(m, key) + values else Get(m, k);
      assert Get(m, key) + values + [x] == Get(m, key) + (values + [x]);
    }
  }

  lemma {:induction false} AddKey<T(!new)>(m: Lists<T>, m': Lists<T>, m'': Lists<T>, keys: seq<string>, add: string -> seq<T>, key: string)
    requires AllAdded(m, m', keys, add) && key !in keys && Added(m', m'', key, add(key))
    ensures AllAdded(m, m'', keys + [key], add)
  {
    forall k
      ensures Get(m'', k) == if k in keys + [key] then Get(m, k) + add(k) else Get(m, k)
    {
      assert Get(m', k) == if k in keys then Get(m, k) + add(k) else Get(m, k);
    }
  }

  /** copyRefs. */
  method CopyRefs(refs: Lists<Item>, heritance: Lists<string>, refMap: Lists<Priv>) returns (heritance': Lists<string>, refMap': Lists<Priv>)
    requires NoneEmpty(heritance) && NoneEmpty(refMap)
    ensures NoneEmpty(heritance') && NoneEmpty(refMap')
    ensures forall k :: Get(heritance', k) == Get(heritance, k) + InclusionsIn(refs, k)
    ensures forall k :: Get(refMap', k) == Get(refMap, k) + PrivilegesIn(refs, k)
  {
    heritance', refMap' := heritance, refMap;
    var keys := AnyOrder(refs.Keys);
    ghost var inclusions, privileges := k => InclusionsIn(refs, k), k => PrivilegesIn(refs, k);
    for i := 0 to |keys|
      invariant AllAdded(heritance, heritance', keys[..i], inclusions)
      invariant AllAdded(refMap, refMap', keys[..i], privileges)
    {
      assert keys[i] in keys && keys[..i + 1] == keys[..i] + [keys[i]];
      ghost var h, r := heritance', refMap';
      heritance', refMap' := CopyItems(keys[i], refs[keys[i]], heritance', refMap');
      AddKey(heritance, h, heritance', keys[..i], inclusions, keys[i]);
      AddKey(refMap, r, refMap', keys[..i], privileges, keys[i]);
    }
    assert keys[..|keys|] == keys;
    AddedToAll(refs, keys, heritance, heritance', refMap, refMap', inclusions, privileges);
  }

  /** Profiles that are not there have no items. */
  lemma {:induction false} AddedToAll(refs: Lists<Item>, keys: seq<string>, heritance: Lists<string>, heritance': Lists<string>,
                                               refMap: Lists<Priv>, refMap': Lists<Priv>, inclusions: string -> seq<string>, privileges: string -> seq<Priv>)
    requires forall k :: k in keys <==> k in refs
    requires forall k :: inclusions(k) == InclusionsIn(refs, k) && privileges(k) == PrivilegesIn(refs, k)
    requires AllAdded(heritance, heritance', keys, inclusions) && AllAdded(refMap, refMap', keys, privileges)
    ensures forall k :: Get(heritance', k) == Get(heritance, k) + InclusionsIn(refs, k)
    ensures forall k :: Get(refMap', k) == Get(refMap, k) + PrivilegesIn(refs, k)
  {
    forall k
      ensures Get(heritance', k) == Get(heritance, k) + InclusionsIn(refs, k)
      ensures Get(refMap', k) == Get(refMap, k) + PrivilegesIn(refs, k)
    {
      assert inclusions(k) == InclusionsIn(refs, k);
      if k !in refs { assert InclusionsIn(refs, k) == [] && PrivilegesIn(refs, k) == []; }
    }
  }

  method CopyItems(key: string, items: seq<Item>, heritance: Lists<string>, refMap: Lists<Priv>) returns (heritance': Lists<string>, refMap': Lists<Priv>)
    ensures Added(heritance, heritance', key, Inclusions(items, |items|))
    ensures Added(refMap, refMap', key, Privileges(items, |items|))
  {
    hide Get, Added, Inclusions, Privileges;
    heritance', refMap' := heritance, refMap;
    NothingAdded(key, items, heritance, refMap);
    for j := 0 to |items|
      invariant Added(heritance, heritance', key, Inclusions(items, j))
      invariant Added(refMap, refMap', key, Privileges(items, j))
    {
      NextItem(items, j);
      match items[j] {
        case Inclusion(profile) =>
          AddValue(heritance, heritance', key, Inclusions(items, j), profile);
          heritance' := heritance'[key := Get(heritance', key) + [profile]];
        case Privilege(privilege) =>
          AddValue(refMap, refMap', key, Privileges(items, j), privilege);
          refMap' := refMap'[key := Get(refMap', key) + [privilege]];
      }
    }
  }

  lemma {:induction false} NothingAdded(key: string, items: seq<Item>, heritance: Lists<string>, refMap: Lists<Priv>)
    ensures Added(heritance, heritance, key, Inclusions(items, 0)) && Added(refMap, refMap, key, Privileges(items, 0))
  {
  }

  lemma {:induction false} NextItem(items: seq<Item>, j: nat)
    requires j < |items|
    ensures Inclusions(items, j + 1) == if items[j].Inclusion? then Inclusions(items, j) + [items[j].profile] else Inclusions(items, j)
    ensures Privileges(items, j + 1) == if items[j].Privilege? then Privileges(items, j) + [items[j].privilege] else Privileges(items, j)
  {
    assert Inclusions(items, j) + [] == Inclusions(items, j) && Privileges(items, j) + [] == Privileges(items, j);
  }

  // What a profile means

  /** The lists of the first k names, one after the other. */
  function Collect(m: Lists<Priv>, names: seq<string>, k: nat): seq<Priv>
    requires k <= |names|
  {
    if k == 0 then [] else Collect(m, names, k - 1) + Get(m, names[k - 1])
  }

  /** u gives each profile its own privileges, then what u gives its parents in turn. */
  ghost predicate Unfolds(own: Lists<Priv>, g: Graph, u: Lists<Priv>) {
    forall n :: UnfoldsAt(own, g, u, n)
  }

  ghost predicate UnfoldsAt(own: Lists<Priv>, g: Graph, u: Lists<Priv>, n: string) {
    Get(u, n) == Get(own, n) + Collect(u, Get(g, n), |Get(g, n)|)
  }

  lemma {:induction false} SameCollect(u: Lists<Priv>, v: Lists<Priv>, names: seq<string>, k: nat)
    requires k <= |names| && forall j :: 0 <= j < k ==> Get(u, names[j]) == Get(v, names[j])
    ensures Collect(u, names, k) == Collect(v, names, k)
  {
    if k > 0 { SameCollect(u, v, names, k - 1); }
  }

  /** Inheritance without cycles has one meaning. */
  lemma {:induction false} UnfoldingIsUnique(own: Lists<Priv>, g: Graph, u: Lists<Priv>, v: Lists<Priv>, n: string)
    requires Acyclic(g) && Unfolds(own, g, u) && Unfolds(own, g, v)
    ensures Get(u, n) == Get(v, n)
    decreases n in g, Height(g, n)
  {
    assert UnfoldsAt(own, g, u, n) && UnfoldsAt(own, g, v, n);
    var parents := Get(g, n);
    forall j | 0 <= j < |parents|
      ensures Get(u, parents[j]) == Get(v, parents[j])
    {
      if parents[j] in g { ParentIsLower(g, n, parents[j]); }
      UnfoldingIsUnique(own, g, u, v, parents[j]);
    }
    SameCollect(u, v, parents, |parents|);
  }

  ghost function OwnOf(builtins: Lists<Item>, value: Lists<Item>): Lists<Priv> {
    map k | k in builtins.Keys + value.Keys && PrivilegesIn(builtins, k) + PrivilegesIn(value, k) != []
      :: PrivilegesIn(builtins, k) + PrivilegesIn(value, k)
  }

  ghost function HeritanceOf(builtins: Lists<Item>, value: Lists<Item>): Lists<string> {
    map k | k in builtins.Keys + value.Keys && InclusionsIn(builtins, k) + InclusionsIn(value, k) != []
      :: InclusionsIn(builtins, k) + InclusionsIn(value, k)
  }

  lemma {:induction false} SameLists<T(!new)>(a: Lists<T>, b: Lists<T>)
    requires NoneEmpty(a) && NoneEmpty(b) && forall k :: Get(a, k) == Get(b, k)
    ensures a == b
  {
    forall k
      ensures k in a <==> k in b
      ensures k in a ==> a[k] == b[k]
    {
      assert Get(a, k) == Get(b, k);
    }
  }

  predicate IsBuiltin(name: string) {
    |name| >= 2 && name[..2] == "__"
  }

  /** The loop over the parents of one name. */
  method Inherit(name: string, parents: seq<string>, refMap: Lists<Priv>) returns (refMap': Lists<Priv>)
    requires name !in parents
    ensures refMap' == if parents == [] then refMap else refMap[name := Get(refMap, name) + Collect(refMap, parents, |parents|)]
  {
    refMap' := refMap;
    for j := 0 to |parents|
      invariant refMap' == if j == 0 then refMap else refMap[name := Get(refMap, name) + Collect(refMap, parents, j)]
    {
      assert parents[j] in parents;
      ghost var own, more, last := Get(refMap, name), Collect(refMap, parents, j), Get(refMap, parents[j]);
      assert Get(refMap', name) == own + more && own + more + last == own + (more + last);
      refMap' := refMap'[name := Get(refMap', name) + Get(refMap', parents[j])];
    }
  }

  /** The first i names of the walk are unfolded, the others have their own privileges. */
  ghost predicate UnfoldedTo(own: Lists<Priv>, g: Graph, order: seq<string>, i: nat, refMap: Lists<Priv>)
    requires i <= |order|
  {
    forall n :: UnfoldedAt(own, g, order, i, refMap, n)
  }

  ghost predicate UnfoldedAt(own: Lists<Priv>, g: Graph, order: seq<string>, i: nat, refMap: Lists<Priv>, n: string)
    requires i <= |order|
  {
    && (if n in order[..i] then UnfoldsAt(own, g, refMap, n) else Get(refMap, n) == Get(own, n))
    && (n in refMap <==> n in own || (n in order[..i] && Get(g, n) != []))
  }

  /** The parents of the first i names are among them. */
  ghost predicate ClosedTo(g: Graph, order: seq<string>, i: nat)
    requires i <= |order|
  {
    forall n, p :: n in order[..i] && p in Get(g, n) ==> p in order[..i]
  }

  lemma {:induction false} OneMoreUnfolded(own: Lists<Priv>, g: Graph, order: seq<string>, i: nat, refMap: Lists<Priv>, n: string)
    requires i < |order| && order[i] !in order[..i] && order[i] !in Get(g, order[i]) && ClosedTo(g, order, i)
    requires UnfoldedAt(own, g, order, i, refMap, order[i]) && UnfoldedAt(own, g, order, i, refMap, n)
    ensures var parents := Get(g, order[i]);
            var refMap' := if parents == [] then refMap else refMap[order[i] := Get(refMap, order[i]) + Collect(refMap, parents, |parents|)];
            UnfoldedAt(own, g, order, i + 1, refMap', n)
  {
    var name, parents := order[i], Get(g, order[i]);
    var refMap' := if parents == [] then refMap else refMap[name := Get(refMap, name) + Collect(refMap, parents, |parents|)];
    assert order[..i + 1] == order[..i] + [name];
    if n in order[..i + 1] {
      var names := Get(g, n);
      forall j | 0 <= j < |names|
        ensures Get(refMap', names[j]) == Get(refMap, names[j])
      {
        assert names[j] in names;
      }
      SameCollect(refMap, refMap', names, |names|);
    }
  }

  /** The single pass over the walk. */
  method Pass(order: seq<string>, heritance: Lists<string>, refMap: Lists<Priv>, ghost g: Graph) returns (refMap': Lists<Priv>)
    requires Acyclic(g) && IsWalk(g, order)
    requires forall n :: n in g ==> g[n] == Get(heritance, n) && forall j :: 0 <= j < |g[n]| ==> g[n][j] in g
    ensures UnfoldedTo(refMap, g, order, |order|, refMap')
  {
    refMap' := refMap;
    for i := 0 to |order|
      invariant UnfoldedTo(refMap, g, order, i, refMap')
    {
      ghost var before := refMap';
      assert ReadyAt(g, order, i, {});
      NotItsOwnParent(g, order[i]);
      WalkIsClosed(g, order, i);
      refMap' := Inherit(order[i], Get(heritance, order[i]), refMap');
      ghost var next := i + 1;
      forall n
        ensures UnfoldedAt(refMap, g, order, next, refMap', n)
      {
        assert UnfoldedAt(refMap, g, order, i, before, n) && UnfoldedAt(refMap, g, order, i, before, order[i]);
        OneMoreUnfolded(refMap, g, order, i, before, n);
      }
    }
  }

  lemma {:induction false} WalkIsClosed(g: Graph, order: seq<string>, i: nat)
    requires ParentsFirst(g, order, {}) && i <= |order|
    requires forall n :: n in g ==> forall j :: 0 <= j < |g[n]| ==> g[n][j] in g
    ensures ClosedTo(g, order, i)
  {
    forall n, p | n in order[..i] && p in Get(g, n)
      ensures p in order[..i]
    {
      var k :| 0 <= k < i && order[k] == n;
      assert ReadyAt(g, order, k, {});
      var j :| 0 <= j < |g[n]| && g[n][j] == p;
      assert p in order[..k];
      assert order[..k] == order[..i][..k];
    }
  }

  lemma {:induction false} NotItsOwnParent(g: Graph, name: string)
    requires Acyclic(g) && name in g
    ensures name !in g[name]
  {
    if name in g[name] {
      SelfIsPath(g, name);
      EdgeThen(g, name, name, name);
    }
  }

  /** Remove builtin profiles. */
  method WithoutBuiltins(refMap: Lists<Priv>) returns (out: Lists<Priv>)
    ensures forall k :: k in out <==> k in refMap && !IsBuiltin(k)
    ensures forall k :: k in out ==> out[k] == refMap[k]
  {
    var keys := AnyOrder(refMap.Keys);
    out := refMap;
    for i := 0 to |keys|
      invariant forall k :: k in out <==> k in refMap && !(IsBuiltin(k) && k in keys[..i])
      invariant forall k :: k in out ==> out[k] == refMap[k]
    {
      if IsBuiltin(keys[i]) {
        out := out - {keys[i]};
      }
      assert keys[..i + 1] == keys[..i] + [keys[i]];
    }
    assert keys[..|keys|] == keys;
  }

  /** flattenProfiles: each profile gets its own privileges, then those of its parents in
      order, themselves flattened; a profile with nothing of its own and nothing included is
      not there, nor is a builtin one. */
  method FlattenProfiles(builtins: Lists<Item>, value: Lists<Item>) returns (out: Lists<Priv>, ghost u: Lists<Priv>)
    requires Acyclic(Full(HeritanceOf(builtins, value)))
    ensures Unfolds(OwnOf(builtins, value), Full(HeritanceOf(builtins, value)), u)
    ensures forall k :: k in out <==> !IsBuiltin(k) && (k in OwnOf(builtins, value) || k in HeritanceOf(builtins, value))
    ensures forall k :: k in out ==> out[k] == Get(u, k)
  {
    var heritance, refMap := CopyRefs(builtins, map[], map[]);
    heritance, refMap := CopyRefs(value, heritance, refMap);
    ghost var h, own := HeritanceOf(builtins, value), OwnOf(builtins, value);
    CopiedTwice(builtins, value, heritance, refMap);
    var groups := new Groups(heritance);
    var order := Walk(groups);
    refMap := Pass(order, groups.parents, refMap, WalkedGraph(h, groups.parents));
    u := refMap;
    out := WithoutBuiltins(refMap);
    FlattenedAll(own, h, Full(h), order, refMap);
  }

  lemma {:induction false} HeritanceAt(builtins: Lists<Item>, value: Lists<Item>, k: string)
    ensures Get(HeritanceOf(builtins, value), k) == InclusionsIn(builtins, k) + InclusionsIn(value, k)
  {
    if k !in builtins && k !in value { assert InclusionsIn(builtins, k) + InclusionsIn(value, k) == []; }
  }

  lemma {:induction false} OwnAt(builtins: Lists<Item>, value: Lists<Item>, k: string)
    ensures Get(OwnOf(builtins, value), k) == PrivilegesIn(builtins, k) + PrivilegesIn(value, k)
  {
    if k !in builtins && k !in value { assert PrivilegesIn(builtins, k) + PrivilegesIn(value, k) == []; }
  }

  lemma {:induction false} CopiedTwice(builtins: Lists<Item>, value: Lists<Item>, heritance: Lists<string>, refMap: Lists<Priv>)
    requires NoneEmpty(heritance) && NoneEmpty(refMap)
    requires forall k :: Get(heritance, k) == [] + InclusionsIn(builtins, k) + InclusionsIn(value, k)
    requires forall k :: Get(refMap, k) == [] + PrivilegesIn(builtins, k) + PrivilegesIn(value, k)
    ensures heritance == HeritanceOf(builtins, value) && refMap == OwnOf(builtins, value)
  {
    var h, own := HeritanceOf(builtins, value), OwnOf(builtins, value);
    forall k
      ensures Get(heritance, k) == Get(h, k)
      ensures Get(refMap, k) == Get(own, k)
    {
      HeritanceAt(builtins, value, k);
      OwnAt(builtins, value, k);
      assert [] + InclusionsIn(builtins, k) == InclusionsIn(builtins, k);
      assert [] + PrivilegesIn(builtins, k) == PrivilegesIn(builtins, k);
    }
    SameLists(heritance, h);
    SameLists(refMap, own);
  }

  lemma {:induction false} WalkedParents(h: Lists<string>, now: Lists<string>)
    requires now.Keys == h.Keys && forall k :: k in h ==> IsSorted(h, now, k)
    ensures forall n :: n in Full(h) ==> Full(h)[n] == Get(now, n) && forall j :: 0 <= j < |Full(h)[n]| ==> Full(h)[n][j] in Full(h)
  {
    FullIsFull(h);
    forall n | n in Full(h)
      ensures Full(h)[n] == Get(now, n) && forall j :: 0 <= j < |Full(h)[n]| ==> Full(h)[n][j] in Full(h)
    {
      assert IsFullAt(h, Full(h), n);
      assert n in h ==> IsSorted(h, now, n);
    }
  }

  /** The graph walked, given the lists as the walk left them. */
  ghost function WalkedGraph(h: Lists<string>, now: Lists<string>): (g: Graph)
    requires now.Keys == h.Keys && forall k :: k in h ==> IsSorted(h, now, k)
    ensures g == Full(h)
    ensures forall n :: n in g ==> g[n] == Get(now, n) && forall j :: 0 <= j < |g[n]| ==> g[n][j] in g
  {
    WalkedParents(h, now);
    Full(h)
  }

  lemma {:induction false} FlattenedAll(own: Lists<Priv>, h: Lists<string>, g: Graph, order: seq<string>, refMap: Lists<Priv>)
    requires NoneEmpty(h) && g == Full(h) && IsWalk(g, order) && UnfoldedTo(own, g, order, |order|, refMap)
    ensures Unfolds(own, g, refMap) && forall k :: k in refMap <==> k in own || k in h
  {
    assert order[..|order|] == order;
    forall k
      ensures UnfoldsAt(own, g, refMap, k)
      ensures k in refMap <==> k in own || k in h
    {
      assert UnfoldedAt(own, g, order, |order|, refMap, k);
      assert k in order <==> k in Elements(order);
    }
  }
}
