/** Values for formats from an LDAP entry and the entries of its sub-search
    (internal/ldap/generate.go). */
module Subsearch {
  import opened Collections
  import opened Templates
  import opened TemplateRoundTrip
  import Product

  /** How names compare, which attributes are read from the DN, and the value of the first RDN
      of a type in a DN. */
  datatype Names = Names(
    lower: string -> string, fold: (string, string) -> bool, known: set<string>, rdn: (string, string) -> Option<string>)

  /** The values are those of GetEqualFoldAttributeValues. */
  datatype Entry = Entry(dn: string, values: string -> seq<string>)

  /** attribute is empty without a sub-search. */
  datatype Result = Result(entry: Entry, attribute: string, subEntries: seq<Entry>)

  type Values = map<string, string>

  /** A Go map gives the empty string for a missing key. */
  function Lookup(m: Values, k: string): string {
    if k in m then m[k] else ""
  }

  function Submap(m: map<string, Values>, k: string): Values {
    if k in m then m[k] else map[]
  }

  // Keys

  const DIGITS := "0123456789"

  /** %d. */
  function Decimal(n: nat): (s: string)
    ensures s != ""
  {
    if n < 10 then [DIGITS[n]] else Decimal(n / 10) + [DIGITS[n % 10]]
  }

  function SubKey(i: nat, j: nat): string {
    "subentry" + (Decimal(i) + ("-comb" + Decimal(j)))
  }

  lemma {:induction false} DecimalIsInjective(m: nat, n: nat)
    requires Decimal(m) == Decimal(n)
    ensures m == n
  {
    var s, t := Decimal(m), Decimal(n);
    assert s[|s| - 1] == DIGITS[m % 10] && t[|t| - 1] == DIGITS[n % 10];
    SameDigit(m % 10, n % 10);
    assert m >= 10 ==> s[..|s| - 1] == Decimal(m / 10);
    assert n >= 10 ==> t[..|t| - 1] == Decimal(n / 10);
    if m >= 10 && n >= 10 { DecimalIsInjective(m / 10, n / 10); }
  }

  lemma {:induction false} SameDigit(a: nat, b: nat)
    requires a < 10 && b < 10 && DIGITS[a] == DIGITS[b]
    ensures a == b
  {
  }

  lemma {:induction false} OnlyDigits(n: nat)
    ensures !HasDash(Decimal(n))
  {
    assert DIGITS[n % 10] != '-';
    if n >= 10 { OnlyDigits(n / 10); }
  }

  lemma {:induction false} SamePrefix(a: string, b: string, c: string, d: string)
    requires a + ("-" + b) == c + ("-" + d)
    requires !HasDash(a) && !HasDash(c)
    ensures a == c && b == d
  {
    var s, t := a + ("-" + b), c + ("-" + d);
    assert s[|a|] == '-' && t[|c|] == '-';
    assert forall k :: 0 <= k < |a| ==> s[k] == a[k];
    assert forall k :: 0 <= k < |c| ==> t[k] == c[k];
    assert s[..|a|] == a && t[..|a|] == c;
    assert s[|a| + 1..] == b && t[|a| + 1..] == d;
  }

  /** The keys of two combinations never collide. */
  lemma {:induction false} KeyIsInjective(i: nat, j: nat, k: nat, l: nat)
    requires SubKey(i, j) == SubKey(k, l)
    ensures i == k && j == l
  {
    SamePart("subentry", Decimal(i) + ("-comb" + Decimal(j)), Decimal(k) + ("-comb" + Decimal(l)));
    OnlyDigits(i);
    OnlyDigits(k);
    SameDecimals(Decimal(i), Decimal(j), Decimal(k), Decimal(l));
    DecimalIsInjective(i, k);
    DecimalIsInjective(j, l);
  }

  lemma {:induction false} SamePart(a: string, b: string, c: string)
    requires a + b == a + c
    ensures b == c
  {
    assert (a + b)[|a|..] == b && (a + c)[|a|..] == c;
  }

  ghost predicate HasDash(s: string) {
    '-' in s
  }

  lemma {:induction false} SameDecimals(a: string, b: string, c: string, d: string)
    requires a + ("-comb" + b) == c + ("-comb" + d) && !HasDash(a) && !HasDash(c)
    ensures a == c && b == d
  {
    assert "-comb" + b == "-" + ("comb" + b) && "-comb" + d == "-" + ("comb" + d);
    SamePrefix(a, "comb" + b, c, "comb" + d);
    SamePart("comb", b, d);
  }

  // Combinations of attribute values

  /** The values an attribute ranges over. */
  function ValuesOf(names: Names, r: Result, attr: string, subKeys: seq<string>): seq<string> {
    var low := names.lower(attr);
    if low == "dn" then [r.entry.dn]
    else if low in names.known then
      [match names.rdn(r.entry.dn, attr) case Some(v) => v case None => ""]
    else if names.fold(r.attribute, attr) then subKeys
    else r.entry.values(attr)
  }

  function ListsOf(names: Names, r: Result, attributes: seq<string>, subKeys: seq<string>): (lists: seq<seq<string>>)
    ensures |lists| == |attributes|
  {
    seq(|attributes|, i requires 0 <= i < |attributes| => ValuesOf(names, r, attributes[i], subKeys))
  }

  /** The first k values of a tuple by attribute. */
  function Indexed(attributes: seq<string>, tuple: seq<string>, k: nat): Values
    requires k <= |attributes| == |tuple|
  {
    if k == 0 then map[] else Indexed(attributes, tuple, k - 1)[attributes[k - 1] := tuple[k - 1]]
  }

  function Combination(attributes: seq<string>, lists: seq<seq<string>>, v: seq<nat>): Values
    requires |lists| == |attributes| && Product.IsVector(lists, v)
  {
    Indexed(attributes, Product.Pick(lists, v), |attributes|)
  }

  /** One map for each index vector, at its rank. */
  ghost predicate AreCombinations(out: seq<Values>, attributes: seq<string>, lists: seq<seq<string>>)
    requires |lists| == |attributes|
  {
    && |out| == (if lists == [] then 0 else Product.Size(lists, 0))
    && forall v :: lists != [] && Product.IsVector(lists, v) ==>
      Product.Rank(lists, v, 0) < |out| && out[Product.Rank(lists, v, 0)] == Combination(attributes, lists, v)
  }

  method GenerateCombinations(names: Names, r: Result, attributes: seq<string>, subKeys: seq<string>)
    returns (out: seq<Values>)
    ensures AreCombinations(out, attributes, ListsOf(names, r, attributes, subKeys))
  {
    var lists := ListsOf(names, r, attributes, subKeys);
    var tuples := Product.Combinations(lists);
    out := [];
    for n := 0 to |tuples|
      invariant |out| == n
      invariant AreFirst(out, attributes, lists)
    {
      ghost var v := Product.RankIsOnto(lists, n);
      assert tuples[n] == Product.Pick(lists, v);
      var m := IndexValues(attributes, tuples[n]);
      OneMoreCombination(out, attributes, lists, v);
      out := out + [m];
    }
  }

  method IndexValues(attributes: seq<string>, tuple: seq<string>) returns (m: Values)
    requires |attributes| == |tuple|
    ensures m == Indexed(attributes, tuple, |attributes|)
  {
    m := map[];
    for i := 0 to |attributes|
      invariant m == Indexed(attributes, tuple, i)
    {
      m := m[attributes[i] := tuple[i]];
    }
  }

  /** The maps of the first vectors, at their rank. */
  ghost predicate AreFirst(out: seq<Values>, attributes: seq<string>, lists: seq<seq<string>>)
    requires |lists| == |attributes|
  {
    forall v :: Product.IsVector(lists, v) && Product.Rank(lists, v, 0) < |out| ==>
      out[Product.Rank(lists, v, 0)] == Combination(attributes, lists, v)
  }

  lemma {:induction false} OneMoreCombination(out: seq<Values>, attributes: seq<string>, lists: seq<seq<string>>, v: seq<nat>)
    requires |lists| == |attributes| && AreFirst(out, attributes, lists)
    requires Product.IsVector(lists, v) && Product.Rank(lists, v, 0) == |out|
    ensures AreFirst(out + [Combination(attributes, lists, v)], attributes, lists)
  {
    var longer := out + [Combination(attributes, lists, v)];
    forall w | Product.IsVector(lists, w) && Product.Rank(lists, w, 0) < |longer|
      ensures longer[Product.Rank(lists, w, 0)] == Combination(attributes, lists, w)
    {
      if Product.Rank(lists, w, 0) == |out| {
        Product.RankIsInjective(lists, v, w, 0);
        assert v == w;
      }
    }
  }

  // Expressions

  function Root(expr: string): string {
    Before(expr, '.')
  }

  /** The value of an expression; None when the DN has no such RDN, which leaves it out. */
  function Resolve(names: Names, attribute: string, values: Values, subMap: map<string, Values>, expr: string): Option<string> {
    if '.' !in expr then Some(Lookup(values, expr))
    else if Root(expr) == attribute then Some(Lookup(Submap(subMap, Lookup(values, Root(expr))), After(expr, '.')))
    else names.rdn(Lookup(values, Root(expr)), After(expr, '.'))
  }

  /** The values of the expressions that have one. */
  function Resolved(
    names: Names, attribute: string, expressions: seq<string>, values: Values, subMap: map<string, Values>): Values
  {
    map k | k in expressions && Resolve(names, attribute, values, subMap, k).Some?
      :: Resolve(names, attribute, values, subMap, k).value
  }

  method ResolveExpressions(
    names: Names, attribute: string, expressions: seq<string>, values: Values, subMap: map<string, Values>)
    returns (m: Values)
    ensures m == Resolved(names, attribute, expressions, values, subMap)
  {
    m := map[];
    for i := 0 to |expressions|
      invariant m == Resolved(names, attribute, expressions[..i], values, subMap)
    {
      var expr := expressions[i];
      assert expressions[..i + 1] == expressions[..i] + [expr];
      OneMoreResolved(names, attribute, expressions[..i], values, subMap, expr);
      var root, field := Before(expr, '.'), After(expr, '.');
      if '.' !in expr {
        NoCut(expr, '.');
        m := m[expr := Lookup(values, root)];
      } else if root == attribute {
        m := m[expr := Lookup(Submap(subMap, Lookup(values, root)), field)];
      } else {
        var value := names.rdn(Lookup(values, root), field);
        if value.Some? { m := m[expr := value.value]; }
      }
    }
    assert expressions[..|expressions|] == expressions;
  }

  lemma {:induction false} OneMoreResolved(
    names: Names, attribute: string, expressions: seq<string>, values: Values, subMap: map<string, Values>, expr: string)
    ensures var m, value := Resolved(names, attribute, expressions, values, subMap), Resolve(names, attribute, values, subMap, expr);
      Resolved(names, attribute, expressions + [expr], values, subMap)
      == if value.Some? then m[expr := value.value] else m
  {
  }

  /** ListVariables: the roots of the expressions, in any order. */
  method ListVariables(expressions: seq<string>) returns (out: seq<string>)
    ensures Distinct(out) && forall a :: a in out <==> a in Roots(expressions)
  {
    out := AnyOrder(Roots(expressions));
  }

  function Roots(expressions: seq<string>): set<string> {
    set e | e in expressions :: Root(e)
  }

  // Sub-entries

  /** What is left of the expressions behind the prefix. */
  ghost predicate AreBehind(sub: seq<string>, prefix: string, expressions: seq<string>) {
    forall f :: f in sub <==> prefix + f in expressions
  }

  method TrimAll(prefix: string, expressions: seq<string>) returns (sub: seq<string>)
    ensures AreBehind(sub, prefix, expressions)
  {
    sub := [];
    for i := 0 to |expressions|
      invariant AreBehind(sub, prefix, expressions[..i])
    {
      var e := expressions[i];
      assert expressions[..i + 1] == expressions[..i] + [e];
      if prefix <= e {
        TrimOne(prefix, e);
        sub := sub + [e[|prefix|..]];
      }
    }
    assert expressions[..|expressions|] == expressions;
  }

  lemma {:induction false} TrimOne(prefix: string, e: string)
    requires prefix <= e
    ensures forall f :: prefix + f == e <==> f == e[|prefix|..]
  {
    forall f ensures prefix + f == e <==> f == e[|prefix|..] {
      assert (prefix + f)[|prefix|..] == f;
    }
  }

  /** The values of a sub-entry for an index vector. */
  function SubValues(names: Names, entry: Entry, attributes: seq<string>, expressions: seq<string>, v: seq<nat>): Values
    requires Product.IsVector(SubLists(names, entry, attributes), v)
  {
    Resolved(names, "", expressions, Combination(attributes, SubLists(names, entry, attributes), v), map[])
  }

  function SubLists(names: Names, entry: Entry, attributes: seq<string>): (lists: seq<seq<string>>)
    ensures |lists| == |attributes|
  {
    ListsOf(names, Result(entry, "", []), attributes, [])
  }

  /** The keys of m are expressions. */
  ghost predicate IsAmong(m: Values, expressions: seq<string>) {
    forall f :: f in m ==> f in expressions
  }

  /** One map for each combination of the values of a sub-entry. */
  ghost predicate AreSubValues(
    list: seq<Values>, names: Names, entry: Entry, attributes: seq<string>, expressions: seq<string>)
  {
    var lists := SubLists(names, entry, attributes);
    && |list| == (if lists == [] then 0 else Product.Size(lists, 0))
    && forall v :: lists != [] && Product.IsVector(lists, v) ==>
      Product.Rank(lists, v, 0) < |list|
      && list[Product.Rank(lists, v, 0)] == SubValues(names, entry, attributes, expressions, v)
  }

  method ResolveSubEntry(names: Names, entry: Entry, attributes: seq<string>, expressions: seq<string>)
    returns (list: seq<Values>)
    ensures AreSubValues(list, names, entry, attributes, expressions)
    ensures forall k :: 0 <= k < |list| ==> IsAmong(list[k], expressions)
  {
    var combinations := GenerateCombinations(names, Result(entry, "", []), attributes, []);
    list := [];
    for j := 0 to |combinations|
      invariant |list| == j
      invariant forall k :: 0 <= k < j ==> list[k] == Resolved(names, "", expressions, combinations[k], map[])
    {
      var values := ResolveExpressions(names, "", expressions, combinations[j], map[]);
      list := list + [values];
    }
  }

  /** The combination (a, b) comes before (i, j). */
  predicate IsBefore(a: nat, b: nat, i: nat, j: nat) {
    a < i || (a == i && b < j)
  }

  /** subMap holds the combinations before (i, j), each under its own key. */
  ghost predicate Holds(subMap: map<string, Values>, sub: seq<seq<Values>>, i: nat, j: nat) {
    && (forall a: nat, b: nat :: a < |sub| && b < |sub[a]| && IsBefore(a, b, i, j) ==>
      SubKey(a, b) in subMap && subMap[SubKey(a, b)] == sub[a][b])
    && forall k :: k in subMap ==> IsKey(k, sub, i, j)
  }

  ghost predicate IsKey(k: string, sub: seq<seq<Values>>, i: nat, j: nat) {
    exists a: nat, b: nat :: a < |sub| && b < |sub[a]| && IsBefore(a, b, i, j) && k == SubKey(a, b)
  }

  lemma {:induction false} HoldsOneMore(subMap: map<string, Values>, sub: seq<seq<Values>>, i: nat, j: nat)
    requires Holds(subMap, sub, i, j) && i < |sub| && j < |sub[i]|
    ensures Holds(subMap[SubKey(i, j) := sub[i][j]], sub, i, j + 1)
  {
    var more := subMap[SubKey(i, j) := sub[i][j]];
    forall a: nat, b: nat | a < |sub| && b < |sub[a]| && IsBefore(a, b, i, j + 1)
      ensures SubKey(a, b) in more && more[SubKey(a, b)] == sub[a][b]
    {
      if SubKey(a, b) == SubKey(i, j) { KeyIsInjective(a, b, i, j); } else { assert IsBefore(a, b, i, j); }
    }
    forall k | k in more ensures IsKey(k, sub, i, j + 1) {
      if k == SubKey(i, j) {
        assert IsBefore(i, j, i, j + 1);
      } else {
        var a: nat, b: nat :| a < |sub| && b < |sub[a]| && IsBefore(a, b, i, j) && k == SubKey(a, b);
        assert IsBefore(a, b, i, j + 1);
      }
    }
  }

  lemma {:induction false} HoldsLonger(subMap: map<string, Values>, sub: seq<seq<Values>>, list: seq<Values>)
    requires Holds(subMap, sub, |sub|, 0)
    ensures Holds(subMap, sub + [list], |sub|, 0)
  {
    var longer := sub + [list];
    forall k | k in subMap ensures IsKey(k, longer, |sub|, 0) {
      var a: nat, b: nat :| a < |sub| && b < |sub[a]| && IsBefore(a, b, |sub|, 0) && k == SubKey(a, b);
      assert longer[a] == sub[a];
    }
  }

  lemma {:induction false} HoldsAll(subMap: map<string, Values>, sub: seq<seq<Values>>, i: nat)
    requires i + 1 == |sub| && Holds(subMap, sub, i, |sub[i]|)
    ensures Holds(subMap, sub, |sub|, 0)
  {
    forall a: nat, b: nat | a < |sub| && b < |sub[a]| && IsBefore(a, b, |sub|, 0)
      ensures SubKey(a, b) in subMap && subMap[SubKey(a, b)] == sub[a][b]
    {
      assert IsBefore(a, b, i, |sub[i]|);
    }
    forall k | k in subMap ensures IsKey(k, sub, |sub|, 0) {
      var a: nat, b: nat :| a < |sub| && b < |sub[a]| && IsBefore(a, b, i, |sub[i]|) && k == SubKey(a, b);
      assert IsBefore(a, b, |sub|, 0);
    }
  }

  /** The sub-search of a run: the expressions and attributes of its entries, and their
      combinations of values. */
  datatype Sub = Sub(expressions: seq<string>, attributes: seq<string>, values: seq<seq<Values>>)

  ghost predicate IsSub(sub: Sub, names: Names, r: Result, expressions: seq<string>) {
    && AreBehind(sub.expressions, r.attribute + ".", expressions)
    && Distinct(sub.attributes)
    && (forall a :: a in sub.attributes <==> a in Roots(sub.expressions))
    && |sub.values| == |r.subEntries|
    && forall i :: 0 <= i < |sub.values| ==>
      AreSubValues(sub.values[i], names, r.subEntries[i], sub.attributes, sub.expressions)
  }

  method GenerateSubsearchValues(names: Names, r: Result, parentExpressions: seq<string>)
    returns (subMap: map<string, Values>, ghost sub: Sub)
    ensures IsSub(sub, names, r, parentExpressions)
    ensures Holds(subMap, sub.values, |sub.values|, 0)
    ensures forall k, f :: k in subMap && f in subMap[k] ==> r.attribute + "." + f in parentExpressions
  {
    var expressions := TrimAll(r.attribute + ".", parentExpressions);
    var attributes := ListVariables(expressions);
    subMap := map[];
    ghost var all: seq<seq<Values>> := [];
    for i := 0 to |r.subEntries|
      invariant |all| == i && Holds(subMap, all, i, 0)
      invariant forall k :: k in subMap ==> IsAmong(subMap[k], expressions)
      invariant forall k :: 0 <= k < i ==> AreSubValues(all[k], names, r.subEntries[k], attributes, expressions)
    {
      var list := ResolveSubEntry(names, r.subEntries[i], attributes, expressions);
      HoldsLonger(subMap, all, list);
      all := all + [list];
      for j := 0 to |list|
        invariant Holds(subMap, all, i, j)
        invariant forall k :: k in subMap ==> IsAmong(subMap[k], expressions)
      {
        HoldsOneMore(subMap, all, i, j);
        subMap := subMap[SubKey(i, j) := list[j]];
      }
      HoldsAll(subMap, all, i);
    }
    sub := Sub(expressions, attributes, all);
  }

  /** What a run of GenerateValues worked with. */
  datatype Run = Run(
    names: Names, result: Result, expressions: seq<string>, attributes: seq<string>, sub: Sub, subMap: map<string, Values>,
    keys: seq<string>)
  {
    function Lists(): (lists: seq<seq<string>>)
      ensures |lists| == |attributes|
    {
      ListsOf(names, result, attributes, keys)
    }

    function At(v: seq<nat>): Values
      requires Product.IsVector(Lists(), v)
    {
      Resolved(names, result.attribute, expressions, Combination(attributes, Lists(), v), subMap)
    }

    ghost predicate Valid() {
      && Distinct(attributes) && (forall a :: a in attributes <==> a in Roots(expressions))
      && Distinct(keys) && (forall k :: k in keys <==> k in subMap)
      && (result.attribute == "" ==> subMap == map[])
      && (result.attribute != "" ==>
        IsSub(sub, names, result, expressions) && Holds(subMap, sub.values, |sub.values|, 0))
    }
  }

  /** One map for each index vector, at its rank; none without attributes. */
  ghost predicate IsOutput(run: Run, out: seq<Values>) {
    && |out| == (if run.attributes == [] then 0 else Product.Size(run.Lists(), 0))
    && forall v :: run.attributes != [] && Product.IsVector(run.Lists(), v) ==>
      Product.Rank(run.Lists(), v, 0) < |out| && out[Product.Rank(run.Lists(), v, 0)] == run.At(v)
  }

  /** GenerateValues for the field names of the formats. */
  method GenerateValues(names: Names, r: Result, fields: set<string>) returns (out: seq<Values>, ghost run: Run)
    ensures run.names == names && run.result == r && Elements(run.expressions) == fields && run.Valid()
    ensures IsOutput(run, out)
    ensures forall n :: 0 <= n < |out| ==> out[n].Keys <= fields
  {
    var expressions := AnyOrder(fields);
    var attributes := ListVariables(expressions);
    var subMap: map<string, Values> := map[];
    ghost var sub := Sub([], [], []);
    if r.attribute != "" {
      subMap, sub := GenerateSubsearchValues(names, r, expressions);
    }
    var keys := AnyOrder(subMap.Keys);
    run := Run(names, r, expressions, attributes, sub, subMap, keys);
    var combinations := GenerateCombinations(names, r, attributes, keys);
    out := [];
    for n := 0 to |combinations|
      invariant |out| == n
      invariant forall k :: 0 <= k < n ==> out[k] == Resolved(names, r.attribute, expressions, combinations[k], subMap)
    {
      var values := ResolveExpressions(names, r.attribute, expressions, combinations[n], subMap);
      out := out + [values];
    }
  }
}
