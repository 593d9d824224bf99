/** Privileges over the passes of a whole run (internal/cmd/ldap2pg.go): each pass inspects one
    ACL in one database, expands the wanted grants there, and applies the difference. */
module PrivilegeRun {
  import opened Grants
  import opened GrantDiff
  import opened Expansion
  import opened Collections
  import Profiles
  import Regroup

  /** What a run is in charge of: the databases with their managed schemas, the wanted roles and
      public when managed, the privileges of the profiles; and the ACLs of default privileges. */
  datatype Managed = Managed(world: World, roles: set<string>, privileges: set<Profiles.Priv>, defaults: set<string>)

  datatype Pass = Pass(acl: string, database: string)

  // What a pass sees

  /** The privilege type, as inspection queries filter it. */
  function TypeOf(m: Managed, acl: string, kind: string, target: string): string {
    if acl in m.defaults then kind + " ON " + target else kind
  }

  ghost predicate IsOfType(m: Managed, g: Grant) {
    exists p :: p in m.privileges && p.on == g.acl && TypeOf(m, g.acl, p.kind, p.target) == TypeOf(m, g.acl, g.kind, g.target)
  }

  /** What the query of the ACL is about: in the database of the pass, or everywhere for an ACL of
      the instance, the rows of managed types and those that tell irrelevance. */
  ghost predicate InQuery(m: Managed, p: Pass, g: Grant) {
    && g.acl == p.acl && (p.acl in m.world.instanceWide || g.database == p.database)
    && (g.kind != "" ==> IsOfType(m, g))
  }

  function SchemasOf(w: World, database: string): set<string> {
    if database in w.databases then w.databases[database].schemas.Keys else {}
  }

  /** What Inspect keeps: role, owner, database and schema are managed. */
  predicate IsKept(m: Managed, p: Pass, g: Grant) {
    && (g.kind != "" ==> g.grantee in m.roles)
    && (g.owner != "" ==> g.owner in m.roles)
    && (g.database != "" ==> g.database in m.world.databases)
    && (g.schema != "" ==> g.schema in SchemasOf(m.world, p.database))
  }

  ghost predicate InScope(m: Managed, p: Pass, g: Grant) {
    InQuery(m, p, g) && IsKept(m, p, g)
  }

  /** A row without database is in that of the pass, unless its ACL is of the instance. */
  function Located(m: Managed, p: Pass, r: Grant): Grant {
    if r.database == "" && p.acl !in m.world.instanceWide then r.(database := p.database) else r
  }

  /** Inspect, on what the query of the ACL returns. */
  method Inspect(m: Managed, p: Pass, found: seq<Grant>) returns (out: seq<Grant>)
    requires p.database in m.world.databases
    ensures forall g :: g in out <==> IsKept(m, p, g) && exists r :: r in found && g == Located(m, p, r)
  {
    out := [];
    for i := 0 to |found|
      invariant forall g :: g in out <==> IsKept(m, p, g) && exists r :: r in found[..i] && g == Located(m, p, r)
    {
      var grant := found[i];
      assert found[..i + 1] == found[..i] + [grant];
      if grant.database != "" {
        if grant.database !in m.world.databases { continue; }
      } else if p.acl !in m.world.instanceWide {
        grant := grant.(database := p.database);
      }
      assert grant == Located(m, p, found[i]);
      if grant.schema != "" && grant.schema !in m.world.databases[p.database].schemas { continue; }
      if grant.kind != "" && grant.grantee !in m.roles { continue; }
      if grant.owner != "" && grant.owner !in m.roles { continue; }
      out := out + [grant];
    }
    assert found[..|found|] == found;
  }

  /** The query returns the rows it is about. */
  ghost predicate IsQueried(m: Managed, p: Pass, rows: set<Grant>, found: seq<Grant>) {
    forall g :: g in rows && InQuery(m, p, g) <==> exists r :: r in found && g == Located(m, p, r)
  }

  ghost predicate Sees(m: Managed, p: Pass, rows: set<Grant>, g: Grant) {
    g in rows && InScope(m, p, g)
  }

  ghost predicate IsInspected(m: Managed, p: Pass, rows: set<Grant>, current: seq<Grant>) {
    forall g :: g in current <==> Sees(m, p, rows, g)
  }

  // What a pass wants

  ghost predicate Wants(m: Managed, p: Pass, grants: seq<Grant>, g: Grant) {
    p.database in m.world.databases && exists v :: v in grants && Expands(m.world, m.world.databases[p.database], v, g)
  }

  ghost predicate IsExpanded(m: Managed, p: Pass, grants: seq<Grant>, wanted: seq<Grant>) {
    forall h :: h in wanted <==> Wants(m, p, grants, h)
  }

  /** The wanted grants of an ACL, as rules give them. */
  ghost predicate AreOf(acl: string, grants: seq<Grant>) {
    AreComplete(grants) && forall g :: g in grants ==> g.acl == acl
  }

  /** What diff sends. */
  ghost function Sent(current: seq<Grant>, wanted: seq<Grant>): seq<Stmt> {
    Revokes(current, wanted, |current|) + Gives(current, wanted, |wanted|)
  }

  /** after is what a pass leaves of rows. */
  ghost predicate IsPass(m: Managed, p: Pass, grants: seq<Grant>, rows: set<Grant>, after: set<Grant>) {
    exists current, wanted ::
      IsInspected(m, p, rows, current) && IsExpanded(m, p, grants, wanted) && after == Run(rows, Sent(current, wanted), |Sent(current, wanted)|)
  }

  /** One pass of syncPrivileges: Inspect, then Sync. */
  method SyncPass(m: Managed, p: Pass, grants: seq<Grant>, found: seq<Grant>, ghost rows: set<Grant>) returns (out: seq<Stmt>)
    requires p.database in m.world.databases && m.world.databases[p.database].name == p.database && IsQueried(m, p, rows, found)
    ensures IsPass(m, p, grants, rows, Run(rows, out, |out|))
  {
    hide Run, IsKept, InQuery, Expands, Located;
    var current := Inspect(m, p, found);
    assert IsInspected(m, p, rows, current);
    var wanted := Expand(m.world, m.world.databases[p.database], grants);
    forall g | g in grants ensures !FindsNone(m.world, p.database, g) { ManagedPassDoesNotPanic(m.world, p.database, g); }
    out := Diff(current, wanted.value);
    assert IsExpanded(m, p, grants, wanted.value) && out == Sent(current, wanted.value);
  }

  // One pass

  lemma {:induction false} CompletedInScope(m: Managed, p: Pass, current: seq<Grant>, k: nat, c: Grant)
    requires k <= |current| && forall g :: g in current ==> InScope(m, p, g)
    ensures c in Completed(current, k) ==> InScope(m, p, c)
  {
    hide SchemasOf, TypeOf;
    if k > 0 {
      CompletedInScope(m, p, current, k - 1, c);
      CompleteInScope(m, p, current[k - 1]);
    }
  }

  lemma {:induction false} CompleteInScope(m: Managed, p: Pass, g: Grant)
    ensures InScope(m, p, g.Complete()) <==> InScope(m, p, g)
  {
    assert IsOfType(m, g.Complete()) <==> IsOfType(m, g);
  }

  lemma {:induction false} SentRun(rows: set<Grant>, current: seq<Grant>, wanted: seq<Grant>, g: Grant)
    requires AreComplete(wanted)
    ensures var c := g.Complete();
      var kept, given := g in rows && !(IsSpurious(wanted, g) && c in Completed(current, |current|)), c in wanted && IsMissing(current, c);
      g in Run(rows, Sent(current, wanted), |Sent(current, wanted)|) <==> if g.partial then kept && !given else kept || given
  {
    var a, b := Revokes(current, wanted, |current|), Gives(current, wanted, |wanted|);
    RunConcat(rows, a, b, |b|);
    RevokesRun(current, wanted, rows, |current|, g);
    GivesRun(current, wanted, Run(rows, a, |a|), |wanted|, g);
    assert wanted[..|wanted|] == wanted;
  }

  lemma {:induction false} ExpandedAreComplete(m: Managed, p: Pass, grants: seq<Grant>, wanted: seq<Grant>)
    requires AreOf(p.acl, grants) && IsExpanded(m, p, grants, wanted)
    ensures AreComplete(wanted)
  {
    forall h | h in wanted ensures !h.partial && h.kind != "" {
      var v :| v in grants && Expands(m.world, m.world.databases[p.database], v, h);
    }
  }

  lemma {:induction false} InCompleted(m: Managed, p: Pass, rows: set<Grant>, current: seq<Grant>, g: Grant)
    requires IsInspected(m, p, rows, current) && g in rows
    ensures g.Complete() in Completed(current, |current|) <==> InScope(m, p, g)
  {
    hide InScope, Completed;
    CompletedInScope(m, p, current, |current|, g.Complete());
    CompleteInScope(m, p, g);
    if InScope(m, p, g) {
      assert Sees(m, p, rows, g);
      var i :| 0 <= i < |current| && current[i] == g;
      CompletedHas(current, |current|, i);
    }
  }

  /** What a pass leaves of a row g, wanted once complete or not. What is not wanted goes if it is
      seen; what is wanted is there unless it is irrelevant; a partial row is completed unless the
      complete one is seen beside it or it is irrelevant. */
  ghost predicate Leaves(m: Managed, p: Pass, rows: set<Grant>, wants: bool, g: Grant) {
    var c := g.Complete();
    if !wants then g in rows && (g.kind == "" || !InScope(m, p, g))
    else if !g.partial then g in rows || !Sees(m, p, rows, c.Irrelevant())
    else g in rows && (Sees(m, p, rows, c) || Sees(m, p, rows, c.Irrelevant()))
  }

  lemma {:induction false} PassIs(m: Managed, p: Pass, grants: seq<Grant>, rows: set<Grant>, after: set<Grant>, g: Grant)
    requires AreOf(p.acl, grants) && IsPass(m, p, grants, rows, after)
    ensures g in after <==> Leaves(m, p, rows, Wants(m, p, grants, g.Complete()), g)
  {
    hide InScope, Wants, AreOf, Run, Completed, Revokes, Gives;
    var current, wanted :|
      IsInspected(m, p, rows, current) && IsExpanded(m, p, grants, wanted) && after == Run(rows, Sent(current, wanted), |Sent(current, wanted)|);
    var c := g.Complete();
    ExpandedAreComplete(m, p, grants, wanted);
    SentRun(rows, current, wanted, g);
    assert c in wanted <==> Wants(m, p, grants, c);
    if g in rows { InCompleted(m, p, rows, current, g); }
    assert IsMissing(current, c) <==> !Sees(m, p, rows, c) && !Sees(m, p, rows, c.Irrelevant());
    assert c.kind == g.kind && (!g.partial ==> c == g);
  }

  // The passes of a run

  /** One pass for each ACL, in order. */
  function Each(acls: seq<string>, database: string): seq<Pass> {
    seq(|acls|, i requires 0 <= i < |acls| => Pass(acls[i], database))
  }

  lemma {:induction false} AddEach(passes: seq<Pass>, acls: seq<string>, database: string)
    requires Distinct(passes) && Distinct(acls) && forall p :: p in passes ==> p.database != database
    ensures Distinct(passes + Each(acls, database))
    ensures forall p :: p in Each(acls, database) <==> p.acl in acls && p.database == database
  {
    forall p ensures p in Each(acls, database) <==> p.acl in acls && p.database == database {
      if p.acl in acls && p.database == database {
        var i :| 0 <= i < |acls| && acls[i] == p.acl;
        assert Each(acls, database)[i] == p;
      }
    }
    var all := passes + Each(acls, database);
    forall i, j | 0 <= i < j < |all| ensures all[i] != all[j] {
      if j >= |passes| > i { assert all[i] in passes; }
    }
  }

  /** An ACL with a pass in the default database only. */
  predicate IsOfInstance(m: Managed, acl: string) {
    acl in m.world.instanceWide && acl !in m.defaults
  }

  /** SplitManagedACLs. */
  method SplitManagedAcls(m: Managed, acls: set<string>) returns (instance: seq<string>, database: seq<string>, defaults: seq<string>)
    ensures Distinct(instance + database + defaults)
    ensures forall a :: a in instance <==> a in acls && IsOfInstance(m, a)
    ensures forall a :: a in database <==> a in acls && a !in m.world.instanceWide && a !in m.defaults
    ensures forall a :: a in defaults <==> a in acls && a in m.defaults
  {
    instance, database, defaults := [], [], [];
    var names := AnyOrder(acls);
    for i := 0 to |names|
      invariant Distinct(instance) && Distinct(database) && Distinct(defaults)
      invariant forall a :: a in instance <==> a in names[..i] && IsOfInstance(m, a)
      invariant forall a :: a in database <==> a in names[..i] && a !in m.world.instanceWide && a !in m.defaults
      invariant forall a :: a in defaults <==> a in names[..i] && a in m.defaults
    {
      var n := names[i];
      assert names[..i + 1] == names[..i] + [n] && n !in names[..i];
      if n in m.defaults {
        defaults := defaults + [n];
      } else if n in m.world.instanceWide {
        instance := instance + [n];
      } else {
        database := database + [n];
      }
    }
    assert names[..|names|] == names;
    ApartAreDistinct(instance, database);
    ApartAreDistinct(instance + database, defaults);
  }

  lemma {:induction false} ApartAreDistinct(a: seq<string>, b: seq<string>)
    requires Distinct(a) && Distinct(b) && forall x :: x in a ==> x !in b
    ensures Distinct(a + b)
  {
    forall i, j | 0 <= i < j < |a + b| ensures (a + b)[i] != (a + b)[j] {
      if i < |a| <= j { assert a[i] in a && b[j - |a|] in b; }
    }
  }

  /** The default database comes first, and in each database default privileges come last, as they
      depend on who may create objects by then. */
  ghost predicate AreInOrder(m: Managed, default: string, passes: seq<Pass>) {
    forall i, j :: 0 <= i < j < |passes| ==> ComesFirst(m, default, passes[i], passes[j])
  }

  ghost predicate ComesFirst(m: Managed, default: string, p: Pass, q: Pass) {
    (q.database == default ==> p.database == default) && (p.database == q.database && p.acl in m.defaults ==> q.acl in m.defaults)
  }

  lemma {:induction false} AddInOrder(m: Managed, default: string, passes: seq<Pass>, acls: seq<string>, defaults: seq<string>, d: string)
    requires AreInOrder(m, default, passes) && (forall p :: p in passes ==> p.database != d) && (d == default ==> passes == [])
    requires (forall a :: a in acls ==> a !in m.defaults) && forall a :: a in defaults ==> a in m.defaults
    ensures AreInOrder(m, default, passes + Each(acls + defaults, d))
  {
    var more := Each(acls + defaults, d);
    var all := passes + more;
    forall i, j | 0 <= i < j < |all| ensures ComesFirst(m, default, all[i], all[j]) {
      if i < |passes| <= j { assert all[i] in passes && all[j].database == d; }
      if |passes| <= i { InOneDatabase(m, default, acls, defaults, d, i - |passes|, j - |passes|); }
    }
  }

  lemma {:induction false} InOneDatabase(m: Managed, default: string, acls: seq<string>, defaults: seq<string>, d: string, i: nat, j: nat)
    requires (forall a :: a in acls ==> a !in m.defaults) && (forall a :: a in defaults ==> a in m.defaults) && i < j < |acls + defaults|
    ensures ComesFirst(m, default, Each(acls + defaults, d)[i], Each(acls + defaults, d)[j])
  {
    if j >= |acls| { assert (acls + defaults)[j] == defaults[j - |acls|]; } else { assert (acls + defaults)[i] == acls[i]; }
  }

  lemma {:induction false} DefaultIsFirst(order: seq<string>, databases: set<string>, default: string, i: nat)
    requires Regroup.IsSyncOrder(order, databases, default, true) && i < |order| && order[i] == default
    ensures i == 0
  {
    assert default in Elements(order);
    assert order[0] == default;
  }

  /** The passes of the run over the managed ACLs: for each database, the default one first, the ACLs
      of the instance if it is that one, those of databases, then those of default privileges. */
  method ListPasses(m: Managed, default: string, managed: set<string>) returns (passes: seq<Pass>)
    ensures Distinct(passes) && AreInOrder(m, default, passes)
    ensures forall p :: p in passes <==>
      p.acl in managed && p.database in m.world.databases && (IsOfInstance(m, p.acl) ==> p.database == default)
  {
    hide Distinct, IsOfInstance, AreInOrder;
    var instance, database, defaults := SplitManagedAcls(m, managed);
    var order := Regroup.SyncOrder(m.world.databases.Keys, default, true);
    forall a | a in instance ensures a !in m.defaults { OfInstance(m, a); }
    forall i: nat | i < |order| && order[i] == default ensures i == 0 { DefaultIsFirst(order, m.world.databases.Keys, default, i); }
    passes := ListOver(m, default, order, instance, database, defaults);
    forall d ensures d in order <==> d in m.world.databases { assert d in order <==> d in Elements(order); }
    Whose(m, managed, instance, database, defaults);
  }

  ghost predicate IsListed(default: string, databases: seq<string>, instance: seq<string>, database: seq<string>, defaults: seq<string>, p: Pass) {
    p.database in databases && (p.acl in database || p.acl in defaults || (p.acl in instance && p.database == default))
  }

  method ListOver(m: Managed, default: string, order: seq<string>, instance: seq<string>, database: seq<string>, defaults: seq<string>)
    returns (passes: seq<Pass>)
    requires Distinct(order) && Distinct(instance + database + defaults) && forall i: nat :: i < |order| && order[i] == default ==> i == 0
    requires (forall a :: a in instance + database ==> a !in m.defaults) && forall a :: a in defaults ==> a in m.defaults
    ensures Distinct(passes) && AreInOrder(m, default, passes)
    ensures forall p :: p in passes <==> IsListed(default, order, instance, database, defaults, p)
  {
    hide Distinct, AreInOrder, ComesFirst;
    passes := [];
    NonePasses(m, default);
    for i := 0 to |order|
      invariant Distinct(passes) && AreInOrder(m, default, passes) && (i == 0 ==> passes == [])
      invariant forall p :: p in passes <==> IsListed(default, order[..i], instance, database, defaults, p)
    {
      var d := order[i];
      var acls := [];
      if d == default && |instance| > 0 { acls := instance; }
      acls := acls + database;
      NextIsNew(order, i);
      AclsAreDistinct(acls, instance, database, defaults);
      AddEach(passes, acls + defaults, d);
      AddInOrder(m, default, passes, acls, defaults, d);
      assert passes + Each(acls, d) + Each(defaults, d) == passes + Each(acls + defaults, d);
      passes := passes + Each(acls, d);
      passes := passes + Each(defaults, d);
    }
    assert order[..|order|] == order;
  }

  lemma {:induction false} OfInstance(m: Managed, acl: string)
    ensures IsOfInstance(m, acl) ==> acl !in m.defaults
  {
  }

  lemma {:induction false} NonePasses(m: Managed, default: string)
    ensures Distinct<Pass>([]) && AreInOrder(m, default, [])
  {
  }

  lemma {:induction false} NextIsNew(order: seq<string>, i: nat)
    requires Distinct(order) && i < |order|
    ensures order[..i + 1] == order[..i] + [order[i]] && order[i] !in order[..i]
  {
  }

  lemma {:induction false} Whose(m: Managed, managed: set<string>, instance: seq<string>, database: seq<string>, defaults: seq<string>)
    requires forall a :: a in instance <==> a in managed && IsOfInstance(m, a)
    requires forall a :: a in database <==> a in managed && a !in m.world.instanceWide && a !in m.defaults
    requires forall a :: a in defaults <==> a in managed && a in m.defaults
    ensures forall a :: a in database || a in defaults <==> a in managed && !IsOfInstance(m, a)
  {
  }

  lemma {:induction false} AclsAreDistinct(acls: seq<string>, instance: seq<string>, database: seq<string>, defaults: seq<string>)
    requires Distinct(instance + database + defaults) && (acls == instance + database || acls == [] + database)
    ensures Distinct(acls + defaults)
  {
    var all := instance + database + defaults;
    var skipped := |all| - |acls + defaults|;
    assert forall i :: 0 <= i < |acls + defaults| ==> (acls + defaults)[i] == all[i + skipped];
  }

  /** No pass comes twice, and ACLs of the instance have theirs in the default database only. */
  ghost predicate AreRunPasses(m: Managed, default: string, passes: seq<Pass>) {
    && Distinct(passes)
    && (forall d :: d in m.world.databases ==> m.world.databases[d].name == d)
    && forall p :: p in passes ==> p.database in m.world.databases && (p.acl in m.world.instanceWide ==> p.database == default)
  }

  /** ListPasses gives such passes, unless an ACL of the instance is one of default privileges. */
  lemma {:induction false} ListedAreRunPasses(m: Managed, default: string, managed: set<string>, passes: seq<Pass>)
    requires Distinct(passes) && managed * m.defaults !! m.world.instanceWide
    requires forall p :: p in passes <==>
      p.acl in managed && p.database in m.world.databases && (IsOfInstance(m, p.acl) ==> p.database == default)
    requires forall d :: d in m.world.databases ==> m.world.databases[d].name == d
    ensures AreRunPasses(m, default, passes)
    ensures forall acl, d :: acl in managed && acl !in m.world.instanceWide ==> (Pass(acl, d) in passes <==> d in m.world.databases)
    ensures forall acl :: acl in managed && acl in m.world.instanceWide ==> (Pass(acl, default) in passes <==> default in m.world.databases)
  {
    forall p | p in passes && p.acl in m.world.instanceWide ensures p.database == default {
      assert p.acl !in managed * m.defaults;
    }
  }

  /** The pass in whose reach g is. */
  function PassOf(m: Managed, default: string, g: Grant): Pass {
    Pass(g.acl, if g.acl in m.world.instanceWide then default else g.database)
  }

  function GrantsOf(grants: map<string, seq<Grant>>, acl: string): seq<Grant> {
    if acl in grants then grants[acl] else []
  }

  ghost predicate AreWanted(grants: map<string, seq<Grant>>) {
    forall acl :: acl in grants ==> AreOf(acl, grants[acl])
  }

  /** The rows before each pass and after the last. */
  ghost predicate IsTrace(m: Managed, grants: map<string, seq<Grant>>, passes: seq<Pass>, trace: seq<set<Grant>>) {
    |trace| == |passes| + 1 && forall i: nat :: i < |passes| ==> PassAt(m, grants, passes, trace, i)
  }

  ghost predicate PassAt(m: Managed, grants: map<string, seq<Grant>>, passes: seq<Pass>, trace: seq<set<Grant>>, i: nat)
    requires i < |passes| && |trace| == |passes| + 1
  {
    IsPass(m, passes[i], GrantsOf(grants, passes[i].acl), trace[i], trace[i + 1])
  }

  ghost predicate IsRun(m: Managed, default: string, grants: map<string, seq<Grant>>, passes: seq<Pass>, trace: seq<set<Grant>>) {
    AreRunPasses(m, default, passes) && AreWanted(grants) && IsTrace(m, grants, passes, trace)
  }

  /** Other passes neither want nor see a row. */
  lemma {:induction false} OtherPass(m: Managed, default: string, grants: seq<Grant>, p: Pass, rows: set<Grant>, g: Grant)
    requires AreOf(p.acl, grants) && p != PassOf(m, default, g)
    requires p.database in m.world.databases ==> m.world.databases[p.database].name == p.database
    requires p.acl in m.world.instanceWide ==> p.database == default
    ensures Leaves(m, p, rows, Wants(m, p, grants, g.Complete()), g) <==> g in rows
  {
    var c := g.Complete();
    if Wants(m, p, grants, c) {
      var v :| v in grants && Expands(m.world, m.world.databases[p.database], v, c);
      assert false;
    }
  }

  /** The rows after the first k passes. */
  lemma {:induction false} RowsAre(
    m: Managed, default: string, grants: map<string, seq<Grant>>, passes: seq<Pass>, trace: seq<set<Grant>>, k: nat, g: Grant)
    requires IsRun(m, default, grants, passes, trace) && k <= |passes|
    ensures var p := PassOf(m, default, g);
      g in trace[k] <==> if p in passes[..k] then Leaves(m, p, trace[0], Wants(m, p, GrantsOf(grants, p.acl), g.Complete()), g) else g in trace[0]
  {
    hide IsPass, Wants, InScope, PassOf;
    if k > 0 {
      var q, p := passes[k - 1], PassOf(m, default, g);
      RowsAre(m, default, grants, passes, trace, k - 1, g);
      assert PassAt(m, grants, passes, trace, k - 1);
      assert q in passes && passes[..k] == passes[..k - 1] + [q] && q !in passes[..k - 1];
      PassIs(m, q, GrantsOf(grants, q.acl), trace[k - 1], trace[k], g);
      if q != p {
        OtherPass(m, default, GrantsOf(grants, q.acl), q, trace[k - 1], g);
      } else {
        var c := g.Complete();
        SamePass(m, default, g);
        RowsAre(m, default, grants, passes, trace, k - 1, c);
        RowsAre(m, default, grants, passes, trace, k - 1, c.Irrelevant());
      }
    }
  }

  lemma {:induction false} SamePass(m: Managed, default: string, g: Grant)
    ensures PassOf(m, default, g.Complete()) == PassOf(m, default, g) == PassOf(m, default, g.Complete().Irrelevant())
  {
  }

  // What a run leaves

  /** v substituted over all databases gives g. */
  ghost predicate IsWanted(w: World, grants: seq<Grant>, g: Grant) {
    exists v :: v in grants && Substitutes(w, v, g)
  }

  /** After the run, for an ACL of databases with a pass in each. */
  lemma {:induction false} PassesConverge(
    m: Managed, default: string, grants: map<string, seq<Grant>>, passes: seq<Pass>, trace: seq<set<Grant>>, g: Grant)
    requires IsRun(m, default, grants, passes, trace) && g.acl !in m.world.instanceWide
    requires forall d :: Pass(g.acl, d) in passes <==> d in m.world.databases
    ensures g in trace[|passes|] <==>
      if g.database !in m.world.databases then g in trace[0]
      else Leaves(m, Pass(g.acl, g.database), trace[0], IsWanted(m.world, GrantsOf(grants, g.acl), g.Complete()), g)
  {
    hide Leaves;
    var p, c := Pass(g.acl, g.database), g.Complete();
    RowsAre(m, default, grants, passes, trace, |passes|, g);
    assert passes[..|passes|] == passes;
    forall v | v in GrantsOf(grants, g.acl)
      ensures p in passes ==> (Expands(m.world, m.world.databases[p.database], v, c) <==> Substitutes(m.world, v, c)) { }
  }

  /** For an ACL of the instance, the one pass of the default database does the same for all. */
  lemma {:induction false} InstancePassConverges(
    m: Managed, default: string, grants: map<string, seq<Grant>>, passes: seq<Pass>, trace: seq<set<Grant>>, g: Grant)
    requires IsRun(m, default, grants, passes, trace) && g.acl in m.world.instanceWide && Pass(g.acl, default) in passes
    requires forall v :: v in GrantsOf(grants, g.acl) ==> v.owner != AUTO && v.schema != ALL
    ensures g in trace[|passes|] <==>
      Leaves(m, Pass(g.acl, default), trace[0], IsNamed(m.world, GrantsOf(grants, g.acl), g.Complete()), g)
  {
    hide Leaves;
    var p, c := Pass(g.acl, default), g.Complete();
    RowsAre(m, default, grants, passes, trace, |passes|, g);
    assert passes[..|passes|] == passes;
    forall v | v in GrantsOf(grants, g.acl) ensures Expands(m.world, m.world.databases[default], v, c) <==> Names(m.world, v, c) {
      DefaultPassIsInstanceWide(m.world, default, v, c);
    }
  }

  /** g is v, on one of the databases v is for. */
  ghost predicate Names(w: World, v: Grant, g: Grant) {
    (if v.database == ALL then g.database in w.databases else g.database == v.database) && g == v.(database := g.database)
  }

  ghost predicate IsNamed(w: World, grants: seq<Grant>, g: Grant) {
    exists v :: v in grants && Names(w, v, g)
  }

  /** Only what is managed and not wanted is taken away, or a partial grant that is completed. */
  lemma {:induction false} OnlyUnwantedGo(
    m: Managed, default: string, grants: map<string, seq<Grant>>, passes: seq<Pass>, trace: seq<set<Grant>>, g: Grant)
    requires IsRun(m, default, grants, passes, trace) && g in trace[0] && g !in trace[|passes|]
    ensures var p := PassOf(m, default, g);
      p in passes && if Wants(m, p, GrantsOf(grants, p.acl), g.Complete()) then g.partial && g.Complete() in trace[|passes|] else InScope(m, p, g)
  {
    hide IsPass, Wants, InScope, PassOf;
    RowsAre(m, default, grants, passes, trace, |passes|, g);
    SamePass(m, default, g);
    RowsAre(m, default, grants, passes, trace, |passes|, g.Complete());
    assert passes[..|passes|] == passes;
  }

  // A second run

  /** A pass that sees what one left behind sends nothing but the wanted grants it cannot see, nor
      their irrelevance row. */
  lemma {:induction false} SecondPassSends(
    m: Managed, p: Pass, grants: seq<Grant>, rows: set<Grant>, later: set<Grant>, current: seq<Grant>, wanted: seq<Grant>, stmt: Stmt)
    requires AreOf(p.acl, grants) && IsInspected(m, p, later, current) && IsExpanded(m, p, grants, wanted)
    requires forall g :: InScope(m, p, g) ==> (g in later <==> Leaves(m, p, rows, Wants(m, p, grants, g.Complete()), g))
    ensures stmt in Sent(current, wanted) <==>
      stmt.Give? && Wants(m, p, grants, stmt.grant) && !InScope(m, p, stmt.grant) && !Sees(m, p, rows, stmt.grant.Irrelevant())
  {
    hide Wants, Revokes, Gives, AreOf;
    var g := stmt.grant;
    StatementsAreDue(current, wanted, stmt);
    ExpandedAreComplete(m, p, grants, wanted);
    assert g.kind != "" ==> g.Complete().kind != "";
    IrrelevantStays(m, p, grants, rows, wanted, g);
    assert Sees(m, p, later, g.Irrelevant()) <==> Sees(m, p, rows, g.Irrelevant());
    assert g in wanted ==> g.Complete() == g;
  }

  lemma {:induction false} IrrelevantStays(m: Managed, p: Pass, grants: seq<Grant>, rows: set<Grant>, wanted: seq<Grant>, g: Grant)
    requires AreComplete(wanted) && IsExpanded(m, p, grants, wanted)
    ensures var i := g.Irrelevant(); Leaves(m, p, rows, Wants(m, p, grants, i.Complete()), i) <==> i in rows
  {
    hide Wants, InScope;
    assert g.Irrelevant().Complete().kind == "";
    assert g.Irrelevant().Complete() !in wanted;
  }

  /** A second run starts from what the first one left, with the same passes in any order. */
  ghost predicate AreTwoRuns(
    m: Managed, default: string, grants: map<string, seq<Grant>>,
    passes: seq<Pass>, trace: seq<set<Grant>>, passes': seq<Pass>, again: seq<set<Grant>>) {
    && IsRun(m, default, grants, passes, trace) && IsRun(m, default, grants, passes', again)
    && (forall p :: p in passes' <==> p in passes) && again[0] == trace[|passes|]
  }

  lemma {:induction false} FoundAsLeft(
    m: Managed, default: string, grants: map<string, seq<Grant>>,
    passes: seq<Pass>, trace: seq<set<Grant>>, passes': seq<Pass>, again: seq<set<Grant>>, i: nat, g: Grant)
    requires AreTwoRuns(m, default, grants, passes, trace, passes', again) && i < |passes'| && InScope(m, passes'[i], g)
    ensures var p := passes'[i]; g in again[i] <==> Leaves(m, p, trace[0], Wants(m, p, GrantsOf(grants, p.acl), g.Complete()), g)
  {
    hide PassAt, Wants, IsOfType, SchemasOf, Leaves;
    var p := passes'[i];
    assert p in passes' && p in passes && p !in passes'[..i] && PassOf(m, default, g) == p;
    RowsAre(m, default, grants, passes', again, i, g);
    RowsAre(m, default, grants, passes, trace, |passes|, g);
    assert passes[..|passes|] == passes;
  }

  /** What a second run sends: no revocation, and exactly the wanted grants that inspection does not
      return and that have no irrelevance row. */
  lemma {:induction false} SecondRunSends(
    m: Managed, default: string, grants: map<string, seq<Grant>>,
    passes: seq<Pass>, trace: seq<set<Grant>>, passes': seq<Pass>, again: seq<set<Grant>>,
    i: nat, current: seq<Grant>, wanted: seq<Grant>, stmt: Stmt)
    requires AreTwoRuns(m, default, grants, passes, trace, passes', again) && i < |passes'|
    requires IsInspected(m, passes'[i], again[i], current) && IsExpanded(m, passes'[i], GrantsOf(grants, passes'[i].acl), wanted)
    ensures var p := passes'[i];
      stmt in Sent(current, wanted) <==>
        stmt.Give? && Wants(m, p, GrantsOf(grants, p.acl), stmt.grant) && !InScope(m, p, stmt.grant) && !Sees(m, p, trace[0], stmt.grant.Irrelevant())
  {
    hide Wants, Leaves, Sent, PassAt, InScope;
    var p := passes'[i];
    var own := GrantsOf(grants, p.acl);
    assert AreOf(p.acl, own);
    forall g | InScope(m, p, g) ensures g in again[i] <==> Leaves(m, p, trace[0], Wants(m, p, own, g.Complete()), g) {
      FoundAsLeft(m, default, grants, passes, trace, passes', again, i, g);
    }
    SecondPassSends(m, p, own, trace[0], again[i], current, wanted, stmt);
  }

  ghost predicate IsIdle(m: Managed, p: Pass, grants: seq<Grant>, rows: set<Grant>) {
    forall current, wanted :: IsInspected(m, p, rows, current) && IsExpanded(m, p, grants, wanted) ==> Sent(current, wanted) == []
  }

  /** A second run sends nothing if and only if inspection can return every wanted grant, or the
      row that tells it is irrelevant. */
  lemma {:induction false} SecondRunIsIdleIff(
    m: Managed, default: string, grants: map<string, seq<Grant>>,
    passes: seq<Pass>, trace: seq<set<Grant>>, passes': seq<Pass>, again: seq<set<Grant>>)
    requires AreTwoRuns(m, default, grants, passes, trace, passes', again)
    ensures (forall i: nat :: i < |passes'| ==> IsIdle(m, passes'[i], GrantsOf(grants, passes'[i].acl), again[i]))
      <==> forall p, h :: p in passes && Wants(m, p, GrantsOf(grants, p.acl), h) ==> InScope(m, p, h) || Sees(m, p, trace[0], h.Irrelevant())
  {
    hide Wants, Sent, InScope, AreRunPasses;
    forall i: nat | i < |passes'|
      ensures IsIdle(m, passes'[i], GrantsOf(grants, passes'[i].acl), again[i]) <==>
        forall h :: Wants(m, passes'[i], GrantsOf(grants, passes'[i].acl), h) ==> InScope(m, passes'[i], h) || Sees(m, passes'[i], trace[0], h.Irrelevant())
    {
      PassIsIdleIff(m, default, grants, passes, trace, passes', again, i);
    }
    forall p | p in passes ensures exists i: nat :: i < |passes'| && passes'[i] == p { assert p in passes'; }
    assert forall i: nat :: i < |passes'| ==> passes'[i] in passes';
  }

  lemma {:induction false} PassIsIdleIff(
    m: Managed, default: string, grants: map<string, seq<Grant>>,
    passes: seq<Pass>, trace: seq<set<Grant>>, passes': seq<Pass>, again: seq<set<Grant>>, i: nat)
    requires AreTwoRuns(m, default, grants, passes, trace, passes', again) && i < |passes'|
    ensures var p := passes'[i];
      IsIdle(m, p, GrantsOf(grants, p.acl), again[i]) <==>
        forall h :: Wants(m, p, GrantsOf(grants, p.acl), h) ==> InScope(m, p, h) || Sees(m, p, trace[0], h.Irrelevant())
  {
    hide Wants, Sent, InScope, AreRunPasses, Sees, GrantsOf;
    var p := passes'[i];
    var own := GrantsOf(grants, p.acl);
    forall current, wanted | IsInspected(m, p, again[i], current) && IsExpanded(m, p, own, wanted)
      ensures Sent(current, wanted) == [] <==>
        forall h :: Wants(m, p, own, h) ==> InScope(m, p, h) || Sees(m, p, trace[0], h.Irrelevant())
    {
      forall stmt
        ensures stmt in Sent(current, wanted) <==>
          stmt.Give? && Wants(m, p, own, stmt.grant) && !InScope(m, p, stmt.grant) && !Sees(m, p, trace[0], stmt.grant.Irrelevant())
      {
        SecondRunSends(m, default, grants, passes, trace, passes', again, i, current, wanted, stmt);
      }
      FirstIsIn(Sent(current, wanted));
      forall h | Wants(m, p, own, h) && !InScope(m, p, h) && !Sees(m, p, trace[0], h.Irrelevant()) ensures Sent(current, wanted) != [] {
        assert Give(h) in Sent(current, wanted);
      }
    }
    assert PassAt(m, grants, passes', again, i);
    var current, wanted :| IsInspected(m, p, again[i], current) && IsExpanded(m, p, own, wanted);
  }

  /** Whatever a second run sends, it leaves every row as it is. */
  lemma {:induction false} SecondRunKeepsAll(
    m: Managed, default: string, grants: map<string, seq<Grant>>,
    passes: seq<Pass>, trace: seq<set<Grant>>, passes': seq<Pass>, again: seq<set<Grant>>)
    requires AreTwoRuns(m, default, grants, passes, trace, passes', again)
    ensures again[|passes'|] == again[0]
  {
    hide PassAt, Wants, InScope, AreRunPasses, PassOf;
    assert passes[..|passes|] == passes && passes'[..|passes'|] == passes';
    forall g ensures g in again[|passes'|] <==> g in again[0] {
      var c := g.Complete();
      SamePass(m, default, g);
      RowsAre(m, default, grants, passes', again, |passes'|, g);
      RowsAre(m, default, grants, passes, trace, |passes|, g);
      RowsAre(m, default, grants, passes, trace, |passes|, c);
      RowsAre(m, default, grants, passes, trace, |passes|, c.Irrelevant());
      IrrelevantIsUnwanted(m, PassOf(m, default, g), grants, c);
    }
  }

  lemma {:induction false} IrrelevantIsUnwanted(m: Managed, p: Pass, grants: map<string, seq<Grant>>, c: Grant)
    requires AreWanted(grants)
    ensures !Wants(m, p, GrantsOf(grants, p.acl), c.Irrelevant().Complete())
  {
    assert c.Irrelevant().Complete().kind == "";
  }

  /** What a rule may name for its grants to be seen: a managed database, schema and owner, if any. */
  ghost predicate NamesManaged(m: Managed, p: Pass, v: Grant) {
    && v.grantee in m.roles && IsOfType(m, v)
    && (v.database == ALL || v.database == "" || v.database in m.world.databases)
    && (v.schema == ALL || v.schema == "" || v.schema in SchemasOf(m.world, p.database))
    && (v.owner == AUTO || v.owner == "" || v.owner in m.roles)
  }

  /** Only managed roles are inspected as creators. */
  ghost predicate CreatorsAreManaged(m: Managed) {
    forall d, s, o :: d in m.world.databases && s in m.world.databases[d].schemas && o in m.world.databases[d].schemas[s] ==> o in m.roles
  }

  /** Whether inspection can return a wanted grant depends on what its rule names. */
  lemma {:induction false} SeenIffNamesManaged(m: Managed, p: Pass, v: Grant, h: Grant)
    requires p.database in m.world.databases && m.world.databases[p.database].name == p.database
    requires CreatorsAreManaged(m) && v.acl == p.acl && v.kind != "" && Expands(m.world, m.world.databases[p.database], v, h)
    ensures InScope(m, p, h) <==> NamesManaged(m, p, v)
  {
    assert IsOfType(m, h) <==> IsOfType(m, v);
    assert InQuery(m, p, h) <==> IsOfType(m, v);
    if v.owner == AUTO { CreatorIsManaged(m, p.database, h.schema, h.owner); }
  }

  lemma {:induction false} CreatorIsManaged(m: Managed, d: string, schema: string, o: string)
    requires d in m.world.databases && CreatorsAreManaged(m) && Creates(m.world.databases[d], schema, o)
    ensures o in m.roles
  {
  }

  /** A grant that is wanted and never seen is sent again. */
  lemma {:induction false} UnseenIsGrantedAgain(m: Managed, default: string, p: Pass, grants: map<string, seq<Grant>>, g: Grant)
    requires AreRunPasses(m, default, [p]) && AreWanted(grants) && !g.partial && !InScope(m, p, g)
    requires forall h :: Wants(m, p, GrantsOf(grants, p.acl), h) <==> h == g
    ensures AreTwoRuns(m, default, grants, [p], [{}, {g}], [p], [{g}, {g}])
    ensures !IsIdle(m, p, GrantsOf(grants, p.acl), {g})
  {
    hide Wants, InScope, GrantsOf, AreRunPasses, AreWanted;
    var own, sent := GrantsOf(grants, p.acl), Sent([], [g]);
    assert IsExpanded(m, p, own, [g]) && IsInspected(m, p, {}, []) && IsInspected(m, p, {g}, []);
    assert sent == [Give(g)] by {
      assert Gives([], [g], 1) == Gives([], [g], 0) + [Give(g)];
    }
    RunOne({}, [], Give(g));
    RunOne({g}, [], Give(g));
    assert Run({}, sent, |sent|) == {g} && Run({g}, sent, |sent|) == {g} by { assert [] + [Give(g)] == sent; }
    assert PassAt(m, grants, [p], [{}, {g}], 0) && PassAt(m, grants, [p], [{g}, {g}], 0);
  }

  /** Such a grant: a rule names a schema that is not managed. */
  lemma {:induction false} UnmanagedSchemaIsGrantedAgain() returns (m: Managed, grants: map<string, seq<Grant>>, g: Grant)
    ensures g.schema == "other" && SchemasOf(m.world, "app") == {"public"} && grants == map["SCHEMA" := [g]]
    ensures AreTwoRuns(m, "app", grants, [Pass("SCHEMA", "app")], [{}, {g}], [Pass("SCHEMA", "app")], [{g}, {g}])
    ensures !IsIdle(m, Pass("SCHEMA", "app"), [g], {g})
  {
    hide AreTwoRuns, IsIdle, IsOfType;
    var p := Pass("SCHEMA", "app");
    m := Managed(World(map["app" := Database("app", map["public" := []])], {}), {"alice"}, {Profiles.Priv("USAGE", "SCHEMA", "")}, {});
    g := Grant("", "alice", "SCHEMA", "USAGE", "app", "other", "", false);
    grants := map["SCHEMA" := [g]];
    assert "other" != "public" by { assert "other"[0] != "public"[0]; }
    assert SchemasOf(m.world, "app") == {"public"};
    forall h ensures Wants(m, p, GrantsOf(grants, p.acl), h) <==> h == g {
      assert Expands(m.world, m.world.databases["app"], g, h) <==> h == g by { assert "other"[0] != ALL[0] && "app"[0] != ALL[0]; }
    }
    UnseenIsGrantedAgain(m, "app", p, grants, g);
  }
}
