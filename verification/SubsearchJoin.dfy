/** The maps of a sub-search: one for each pair of a combination of the entry's values and a
    combination of a sub-entry's values. */
module SubsearchJoin {
  import opened Collections
  import opened Templates
  import opened TemplateRoundTrip
  import opened Subsearch
  import Product

  function IndexOf(s: seq<string>, x: string): (i: nat)
    requires x in s
    ensures i < |s| && s[i] == x
  {
    if s[0] == x then 0 else 1 + IndexOf(s[1..], x)
  }

  /** The expressions use the sub-search attribute, in its own spelling and never bare; and it
      is not an attribute read from the DN. */
  ghost predicate Joins(run: Run) {
    var attribute := run.result.attribute;
    && run.Valid() && attribute != "" && '.' !in attribute
    && run.names.lower(attribute) != "dn" && run.names.lower(attribute) !in run.names.known
    && attribute in run.attributes
    && (forall e :: e in run.expressions ==> (run.names.fold(attribute, Root(e)) <==> Root(e) == attribute))
    && forall e :: e in run.expressions && Root(e) == attribute ==> '.' in e
  }

  /** The place of the sub-search attribute. */
  function Place(run: Run): (q: nat)
    requires run.result.attribute in run.attributes
    ensures q < |run.attributes| && run.attributes[q] == run.result.attribute
  {
    IndexOf(run.attributes, run.result.attribute)
  }

  /** An index in the list of each attribute of the entry but the sub-search one. */
  ghost predicate IsParent(run: Run, u: seq<nat>)
    requires run.result.attribute in run.attributes
  {
    && |u| == |run.attributes| && u[Place(run)] == 0
    && forall p :: 0 <= p < |u| && p != Place(run) ==> u[p] < |run.Lists()[p]|
  }

  /** A combination of values of a sub-entry. */
  ghost predicate IsChild(run: Run, i: nat, j: nat) {
    i < |run.sub.values| && j < |run.sub.values[i]|
  }

  ghost predicate IsPair(run: Run, u: seq<nat>, i: nat, j: nat)
    requires run.result.attribute in run.attributes
  {
    IsParent(run, u) && IsChild(run, i, j)
  }

  /** The value of an attribute of the entry. */
  function ParentValue(run: Run, u: seq<nat>, attr: string): string
    requires run.result.attribute in run.attributes && IsParent(run, u)
    requires attr in run.attributes && attr != run.result.attribute
  {
    var p := IndexOf(run.attributes, attr);
    run.Lists()[p][u[p]]
  }

  /** The value of an expression, taken from the entry or from the one sub-entry. */
  function PairValue(run: Run, u: seq<nat>, i: nat, j: nat, e: string): Option<string>
    requires run.result.attribute in run.attributes && IsPair(run, u, i, j) && Root(e) in run.attributes
  {
    if Root(e) == run.result.attribute then Some(Lookup(run.sub.values[i][j], After(e, '.')))
    else if '.' !in e then Some(ParentValue(run, u, Root(e)))
    else run.names.rdn(ParentValue(run, u, Root(e)), After(e, '.'))
  }

  /** m holds the values of the expressions for a pair. */
  ghost predicate IsJoined(m: Values, run: Run, u: seq<nat>, i: nat, j: nat)
    requires run.Valid() && run.result.attribute in run.attributes && IsPair(run, u, i, j)
  {
    && (forall e :: e in m ==> e in run.expressions)
    && forall e :: e in run.expressions ==>
      Root(e) in run.attributes &&
      PairValue(run, u, i, j, e) == if e in m then Some(m[e]) else None
  }

  // The index vector of a pair

  lemma {:induction false} SubList(run: Run)
    requires Joins(run)
    ensures run.Lists()[Place(run)] == run.keys
  {
    var attribute := run.result.attribute;
    assert attribute in Roots(run.expressions);
    var e :| e in run.expressions && Root(e) == attribute;
    assert run.names.fold(attribute, Root(e));
  }

  lemma {:induction false} KeyIsThere(run: Run, i: nat, j: nat)
    requires Joins(run) && IsChild(run, i, j)
    ensures SubKey(i, j) in run.keys && SubKey(i, j) in run.subMap && run.subMap[SubKey(i, j)] == run.sub.values[i][j]
  {
    assert IsBefore(i, j, |run.sub.values|, 0);
  }

  ghost function VectorOf(run: Run, u: seq<nat>, i: nat, j: nat): (v: seq<nat>)
    requires Joins(run) && IsPair(run, u, i, j)
    ensures Product.IsVector(run.Lists(), v)
  {
    KeyIsThere(run, i, j);
    SubList(run);
    u[Place(run) := IndexOf(run.keys, SubKey(i, j))]
  }

  /** Where the map of a pair is. */
  ghost function Position(run: Run, u: seq<nat>, i: nat, j: nat): nat
    requires Joins(run) && IsPair(run, u, i, j)
  {
    Product.Rank(run.Lists(), VectorOf(run, u, i, j), 0)
  }

  // Values

  lemma {:induction false} IndexedAt(attributes: seq<string>, tuple: seq<string>, k: nat, p: nat)
    requires Distinct(attributes) && p < k <= |attributes| == |tuple|
    ensures attributes[p] in Indexed(attributes, tuple, k) && Indexed(attributes, tuple, k)[attributes[p]] == tuple[p]
  {
    if p < k - 1 { IndexedAt(attributes, tuple, k - 1, p); }
  }

  /** What the combination holds for an attribute. */
  lemma {:induction false} CombinationAt(run: Run, v: seq<nat>, p: nat)
    requires run.Valid() && Product.IsVector(run.Lists(), v) && p < |run.attributes|
    ensures Lookup(Combination(run.attributes, run.Lists(), v), run.attributes[p]) == run.Lists()[p][v[p]]
  {
    IndexedAt(run.attributes, Product.Pick(run.Lists(), v), |run.attributes|, p);
  }

  lemma {:induction false} ResolvesPair(run: Run, u: seq<nat>, i: nat, j: nat, v: seq<nat>, values: Values, e: string)
    requires Joins(run) && IsPair(run, u, i, j) && v == VectorOf(run, u, i, j) && e in run.expressions
    requires values == Combination(run.attributes, run.Lists(), v)
    ensures Root(e) in run.attributes
    ensures Resolve(run.names, run.result.attribute, values, run.subMap, e) == PairValue(run, u, i, j, e)
  {
    assert Root(e) in Roots(run.expressions);
    if Root(e) == run.result.attribute {
      CombinationAt(run, v, Place(run));
      SubList(run);
      KeyIsThere(run, i, j);
    } else {
      CombinationAt(run, v, IndexOf(run.attributes, Root(e)));
      if '.' !in e { NoCut(e, '.'); }
    }
  }

  /** Each pair has its map. */
  lemma {:induction false} PairIsThere(run: Run, out: seq<Values>, u: seq<nat>, i: nat, j: nat)
    requires Joins(run) && IsOutput(run, out) && IsPair(run, u, i, j)
    ensures Position(run, u, i, j) < |out| && IsJoined(out[Position(run, u, i, j)], run, u, i, j)
  {
    var v := VectorOf(run, u, i, j);
    var values := Combination(run.attributes, run.Lists(), v);
    assert out[Product.Rank(run.Lists(), v, 0)] == run.At(v);
    forall e | e in run.expressions
      ensures Root(e) in run.attributes
      ensures PairValue(run, u, i, j, e) == if e in run.At(v) then Some(run.At(v)[e]) else None
    {
      ResolvesPair(run, u, i, j, v, values, e);
    }
  }

  /** No two pairs share one. */
  lemma {:induction false} PairsAreApart(run: Run, u: seq<nat>, i: nat, j: nat, t: seq<nat>, k: nat, l: nat)
    requires Joins(run) && IsPair(run, u, i, j) && IsPair(run, t, k, l)
    requires Position(run, u, i, j) == Position(run, t, k, l)
    ensures u == t && i == k && j == l
  {
    var q := Place(run);
    var v, w := VectorOf(run, u, i, j), VectorOf(run, t, k, l);
    Product.RankIsInjective(run.Lists(), v, w, 0);
    KeyIsThere(run, i, j);
    KeyIsThere(run, k, l);
    assert v[q] == w[q];
    KeyIsInjective(i, j, k, l);
    assert forall p :: 0 <= p < |u| && p != q ==> u[p] == v[p] && t[p] == w[p];
  }

  /** And each map is that of a pair. */
  lemma {:induction false} NothingElse(run: Run, out: seq<Values>, pos: nat) returns (u: seq<nat>, i: nat, j: nat)
    requires Joins(run) && IsOutput(run, out) && pos < |out|
    ensures IsPair(run, u, i, j) && Position(run, u, i, j) == pos
  {
    var q := Place(run);
    var v := Product.RankIsOnto(run.Lists(), pos);
    SubList(run);
    var key := run.keys[v[q]];
    assert IsKey(key, run.sub.values, |run.sub.values|, 0);
    i, j :| i < |run.sub.values| && j < |run.sub.values[i]| && IsBefore(i, j, |run.sub.values|, 0) && key == SubKey(i, j);
    u := v[q := 0];
    KeyIsThere(run, i, j);
    SamePlace(run.keys, IndexOf(run.keys, key), v[q]);
    assert VectorOf(run, u, i, j) == v;
  }

  lemma {:induction false} SamePlace(s: seq<string>, a: nat, b: nat)
    requires Distinct(s) && a < |s| && b < |s| && s[a] == s[b]
    ensures a == b
  {
  }

  // Sub-entries

  /** The part of an expression under the sub-search attribute is one of the sub-entry's. */
  lemma {:induction false} UnderAttribute(run: Run, e: string)
    requires Joins(run) && e in run.expressions && Root(e) == run.result.attribute
    ensures After(e, '.') in run.sub.expressions
  {
    FindsFirst(e, 0, '.');
    var n := Find(e, 0, '.');
    assert n < |e|;
    assert e == run.result.attribute + "." + After(e, '.');
  }

  /** All the values of a map under the sub-search attribute are those of one combination of
      one sub-entry. */
  lemma {:induction false} FromOneSubEntry(run: Run, i: nat, j: nat) returns (w: seq<nat>)
    requires Joins(run) && IsChild(run, i, j)
    ensures Product.IsVector(SubLists(run.names, run.result.subEntries[i], run.sub.attributes), w)
    ensures run.sub.values[i][j]
      == SubValues(run.names, run.result.subEntries[i], run.sub.attributes, run.sub.expressions, w)
    ensures forall e :: e in run.expressions && Root(e) == run.result.attribute ==> After(e, '.') in run.sub.expressions
  {
    assert AreSubValues(
      run.sub.values[i], run.names, run.result.subEntries[i], run.sub.attributes, run.sub.expressions);
    w := Product.RankIsOnto(SubLists(run.names, run.result.subEntries[i], run.sub.attributes), j);
    forall e | e in run.expressions && Root(e) == run.result.attribute ensures After(e, '.') in run.sub.expressions {
      UnderAttribute(run, e);
    }
  }

  // Fields

  /** ReplaceAttributeAsSubentryField: a bare use stands for the DN of the sub-entry. */
  function Qualify(name: string, attribute: string): string {
    if Root(name) == attribute && '.' !in name then attribute + ".dn" else name
  }

  /** No bare use is left, and a field keeps its attribute. */
  lemma {:induction false} QualifyLeavesNoBareUse(name: string, attribute: string)
    requires '.' !in attribute
    ensures Root(Qualify(name, attribute)) == Root(name)
    ensures Root(name) == attribute ==> '.' in Qualify(name, attribute)
    ensures Qualify(Qualify(name, attribute), attribute) == Qualify(name, attribute)
  {
    assert attribute + ".dn" == attribute + ("." + "dn");
    CutAt(attribute, '.', "dn");
  }
}
