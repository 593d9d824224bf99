/** A whole role run: Diff, regrouped by GroupByDatabase, executed on the inspected cluster. */
module RoleRun {
  import opened Roles
  import opened RoleGraph
  import opened Postgres
  import opened RoleDiff
  import opened RoleScripts
  import opened Regroup
  import opened Collections
  import TopoSort

  /** One run: what it reads, what it wants, and the choices it makes. */
  datatype Session = Session(
    self: string,
    enabled: set<Column>,
    blacklist: set<string>,
    start: Cluster,
    all: RoleMap,
    managed: set<string>,
    wanted: RoleMap,
    fallback: string,
    default: string,
    plan: Plan,
    order: seq<string>)
  {
    function Doomed(): set<string> {
      RoleDiff.Doomed(all, managed, wanted)
    }

    /** The statements, in the order Diff sends them. */
    ghost function Sent(): seq<Query>
      requires IsPlan(enabled, all, managed, wanted, start.databases, plan)
    {
      PlanQueries(all, managed, wanted, start.databases, fallback, plan)
    }

    /** The statements, in the order they are executed. */
    ghost function Executed(): seq<Query>
      requires IsPlan(enabled, all, managed, wanted, start.databases, plan)
    {
      Grouped(order, |order|, ResolveAll(Sent(), order, default))
    }
  }

  /** all is what inspection reads of the cluster, blacklisted roles left out. */
  ghost predicate Inspected(enabled: set<Column>, blacklist: set<string>, s: Cluster, all: RoleMap) {
    && WellKeyed(all)
    && (forall n :: n in all <==> n in s.roles && n !in blacklist)
    && (forall n :: n in all ==> Shows(enabled, all[n], s.roles[n]))
  }

  /** What Postgres itself guarantees. */
  ghost predicate Consistent(s: Cluster) {
    && (forall n :: n in s.roles ==> NamesOf(s.roles[n].parents) <= s.roles.Keys)
    && (forall d :: d in s.databases ==> s.databases[d] in s.roles)
    && s.objects.Keys <= s.databases.Keys
  }

  /** A parent of a wanted role is wanted too, or is an existing role that this run does not drop. */
  ghost predicate ParentStands(run: Session, p: string) {
    p in run.wanted || (p in run.start.roles && p !in run.Doomed())
  }

  ghost predicate WantedIsPossible(run: Session) {
    && WellKeyed(run.wanted)
    && TopoSort.Acyclic(GraphOf(run.wanted))
    && (forall n :: n in run.wanted ==> n !in run.blacklist)
    && (forall n, p :: n in run.wanted && p in ParentNames(run.wanted[n].parents) ==> ParentStands(run, p))
    && run.fallback in run.start.roles && run.fallback !in run.Doomed()
  }

  ghost predicate IsRun(run: Session) {
    && Consistent(run.start)
    && Inspected(run.enabled, run.blacklist, run.start, run.all)
    && WantedIsPossible(run)
    && run.default in run.start.databases
    && "" !in run.start.databases && "<first>" !in run.start.databases
    && IsPlan(run.enabled, run.all, run.managed, run.wanted, run.start.databases, run.plan)
    && IsSyncOrder(run.order, run.start.databases.Keys, run.default, false)
  }

  // Which memberships a run can grant

  /** a is a member of b once the roles in done, and no others, are as wanted. */
  ghost predicate IsMemberWith(run: Session, done: set<string>, a: string, b: string) {
    if a in done then a in run.wanted && b in ParentNames(run.wanted[a].parents) else IsMember(run.start, a, b)
  }

  ghost predicate LeadsWith(run: Session, done: set<string>, path: seq<string>, from: string, to: string) {
    && path != [] && path[0] == from && path[|path| - 1] == to
    && forall i: nat :: 0 < i < |path| ==> IsMemberWith(run, done, path[i - 1], path[i])
  }

  /** from is then to, or a member of it through any number of memberships. */
  ghost predicate ReachesWith(run: Session, done: set<string>, from: string, to: string) {
    exists path :: LeadsWith(run, done, path, from, to)
  }

  /** Role.Alter grants p to n: n exists and lacks it. */
  ghost predicate IsGranted(run: Session, n: string, p: string) {
    && n in run.wanted && n in run.all
    && p in ParentNames(run.wanted[n].parents) && p !in ParentNames(run.all[n].parents)
  }

  /** The wanted roles in done can come first and n next: whoever is among them has its wanted
      parents among them. */
  ghost predicate ComesNext(run: Session, done: set<string>, n: string) {
    && done <= run.wanted.Keys && n in run.wanted && n !in done
    && forall a, b :: a in done + {n} && b in run.wanted && b in ParentNames(run.wanted[a].parents) ==> b in done
  }

  /** Whatever the order of the wanted roles, no parent is below the role it is granted to. */
  ghost predicate ClosesNoLoop(run: Session) {
    forall n, p, done :: IsGranted(run, n, p) && ComesNext(run, done, n) ==> !ReachesWith(run, done, p, n)
  }

  /** In this order, no parent is below the role it is granted to. */
  ghost predicate OrderIsSafe(run: Session, names: seq<string>) {
    forall k: nat :: k < |names| ==> TurnIsSafe(run, names, k)
  }

  ghost predicate TurnIsSafe(run: Session, names: seq<string>, k: nat)
    requires k < |names|
  {
    forall p :: IsGranted(run, names[k], p) ==> !ReachesWith(run, Elements(names[..k]), p, names[k])
  }

  lemma {:induction false} TurnComesNext(run: Session, names: seq<string>, k: nat)
    requires IsFlattening(run.wanted, names) && k < |names|
    ensures ComesNext(run, Elements(names[..k]), names[k])
  {
    var done := Elements(names[..k]);
    assert AfterParents(run.wanted, names, k);
    forall a | a in done ensures a in run.wanted { assert a in Elements(names); }
    forall a, b | a in done && b in run.wanted && b in ParentNames(run.wanted[a].parents)
      ensures b in done
    {
      var j :| 0 <= j < k && names[j] == a;
      assert AfterParents(run.wanted, names, j);
      Earlier(names, b, j, k);
    }
  }

  lemma {:induction false} Earlier(names: seq<string>, b: string, j: nat, k: nat)
    requires j <= k <= |names| && b in names[..j]
    ensures b in names[..k]
  {
    var i :| 0 <= i < j && names[i] == b;
    assert names[..k][i] == b;
  }

  lemma {:induction false} EveryOrderIsSafe(run: Session, names: seq<string>)
    requires ClosesNoLoop(run) && IsFlattening(run.wanted, names)
    ensures OrderIsSafe(run, names)
  {
    forall k: nat | k < |names| ensures TurnIsSafe(run, names, k) { TurnComesNext(run, names, k); }
  }

  // First part: create and alter

  /** The row a wanted role ends with. */
  ghost function Target(run: Session, n: string): PgRole
    requires n in run.wanted
  {
    if n in run.all && n in run.start.roles
    then Altered(run.self, run.enabled, run.all[n], run.wanted[n], run.start.roles[n])
    else Created(run.self, run.enabled, run.wanted[n])
  }

  /** The cluster after the first k wanted roles, from a cluster s with the inspected roles. */
  ghost function AfterFirst(run: Session, s: Cluster, k: nat): Cluster
    requires k <= |run.plan.names|
    requires forall i :: 0 <= i < k ==> run.plan.names[i] in run.wanted
  {
    if k == 0 then s
    else Put(AfterFirst(run, s, k - 1), run.plan.names[k - 1], Target(run, run.plan.names[k - 1]))
  }

  ghost function RowOf(t: Cluster, n: string): Option<PgRole> {
    if n in t.roles then Some(t.roles[n]) else None
  }

  lemma {:induction false} NamesAreWanted(wanted: RoleMap, names: seq<string>)
    requires IsFlattening(wanted, names)
    ensures forall i :: 0 <= i < |names| ==> names[i] in wanted
  {
    forall i | 0 <= i < |names|
      ensures names[i] in wanted
    {
      assert AfterParents(wanted, names, i);
    }
  }

  lemma {:induction false} AfterFirstRow(run: Session, s: Cluster, k: nat, n: string)
    requires k <= |run.plan.names| && forall i :: 0 <= i < k ==> run.plan.names[i] in run.wanted
    ensures RowOf(AfterFirst(run, s, k), n)
      == if n in run.wanted && n in run.plan.names[..k] then Some(Target(run, n)) else RowOf(s, n)
  {
    hide Target;
    if k > 0 {
      AfterFirstRow(run, s, k - 1, n);
      var names := run.plan.names;
      assert names[..k] == names[..k - 1] + [names[k - 1]];
    }
  }

  lemma {:induction false} AfterFirstRows(run: Session, s: Cluster, k: nat)
    requires k <= |run.plan.names| && forall i :: 0 <= i < k ==> run.plan.names[i] in run.wanted
    ensures var t := AfterFirst(run, s, k);
            && t.databases == s.databases && t.objects == s.objects
            && forall n :: RowOf(t, n) == if n in run.wanted && n in run.plan.names[..k] then Some(Target(run, n)) else RowOf(s, n)
  {
    hide Target, RowOf;
    if k > 0 { AfterFirstRows(run, s, k - 1); }
    forall n
      ensures RowOf(AfterFirst(run, s, k), n)
        == if n in run.wanted && n in run.plan.names[..k] then Some(Target(run, n)) else RowOf(s, n)
    {
      AfterFirstRow(run, s, k, n);
    }
  }

  lemma {:induction false} TargetMeets(run: Session, n: string)
    requires Inspected(run.enabled, run.blacklist, run.start, run.all) && n in run.wanted
    ensures Meets(run.enabled, Target(run, n), run.wanted[n])
  {
    if n in run.all {
      AlteredMeets(run.self, run.enabled, run.all[n], run.wanted[n], run.start.roles[n]);
    } else {
      CreatedMeets(run.self, run.enabled, run.wanted[n]);
    }
  }

  /** The memberships after the first k wanted roles. */
  lemma {:induction false} MembersAfter(run: Session, s: Cluster, k: nat, a: string, b: string)
    requires IsRun(run) && s.roles == run.start.roles && k <= |run.plan.names|
    requires forall i :: 0 <= i < |run.plan.names| ==> run.plan.names[i] in run.wanted
    ensures IsMember(AfterFirst(run, s, k), a, b) <==> IsMemberWith(run, Elements(run.plan.names[..k]), a, b)
  {
    hide AfterFirst, Listing, Consistent, WantedIsPossible, IsPlan, IsSyncOrder;
    var t := AfterFirst(run, s, k);
    AfterFirstRows(run, s, k);
    assert a in t.roles ==> RowOf(t, a) == Some(t.roles[a]);
    assert RowOf(t, a) == if a in run.wanted && a in run.plan.names[..k] then Some(Target(run, a)) else RowOf(s, a);
    if a in run.plan.names[..k] { TargetMeets(run, a); }
  }

  lemma {:induction false} WalksAfter(run: Session, s: Cluster, k: nat, from: string, to: string)
    requires IsRun(run) && s.roles == run.start.roles && k <= |run.plan.names|
    requires forall i :: 0 <= i < |run.plan.names| ==> run.plan.names[i] in run.wanted
    ensures Reaches(AfterFirst(run, s, k), from, to) <==> ReachesWith(run, Elements(run.plan.names[..k]), from, to)
  {
    var t, done := AfterFirst(run, s, k), Elements(run.plan.names[..k]);
    if Reaches(t, from, to) {
      var path :| ClimbsTo(t, path, from, to);
      forall i: nat | 0 < i < |path| ensures IsMemberWith(run, done, path[i - 1], path[i]) {
        MembersAfter(run, s, k, path[i - 1], path[i]);
      }
      assert LeadsWith(run, done, path, from, to);
    }
    if ReachesWith(run, done, from, to) {
      var path :| LeadsWith(run, done, path, from, to);
      forall i | 0 < i < |path| ensures IsMember(t, path[i - 1], path[i]) {
        MembersAfter(run, s, k, path[i - 1], path[i]);
      }
      assert ClimbsTo(t, path, from, to);
    }
  }

  /** When a role's turn comes, its wanted parents exist. */
  lemma {:induction false} ParentsAreReady(run: Session, s: Cluster, k: nat, p: string)
    requires IsRun(run) && s.roles == run.start.roles && k < |run.plan.names|
    requires forall i :: 0 <= i < |run.plan.names| ==> run.plan.names[i] in run.wanted
    requires p in ParentNames(run.wanted[run.plan.names[k]].parents)
    ensures p in AfterFirst(run, s, k).roles
  {
    assert AfterParents(run.wanted, run.plan.names, k);
    assert ParentStands(run, p);
    AfterFirstRows(run, s, k);
    assert RowOf(AfterFirst(run, s, k), p).Some?;
  }

  lemma {:induction false} AlterTurn(run: Session, s: Cluster, k: nat)
    requires IsRun(run) && s.roles == run.start.roles && k < |run.plan.names|
    requires forall i :: 0 <= i < |run.plan.names| ==> run.plan.names[i] in run.wanted
    requires run.plan.names[k] in run.all && TurnIsSafe(run, run.plan.names, k)
    ensures Runs(run.self, AfterFirst(run, s, k), run.plan.scripts[k], AfterFirst(run, s, k + 1))
  {
    var n, t := run.plan.names[k], AfterFirst(run, s, k);
    var r, wanted := run.all[n], run.wanted[n];
    UntouchedYet(run, s, k);
    JoinersAreReady(run, s, k, Missing(r.parents, wanted.parents));
    assert RoleScript(run.enabled, run.all, wanted, run.plan.scripts[k]);
    AlterRuns(run.self, t, run.enabled, r, wanted, run.plan.scripts[k]);
  }

  lemma {:induction false} UntouchedYet(run: Session, s: Cluster, k: nat)
    requires IsRun(run) && s.roles == run.start.roles && k < |run.plan.names|
    requires forall i :: 0 <= i < |run.plan.names| ==> run.plan.names[i] in run.wanted
    ensures var n, t := run.plan.names[k], AfterFirst(run, s, k);
            && (n in run.all <==> n in t.roles)
            && (n in run.all ==> t.roles[n] == run.start.roles[n] && NamesOf(t.roles[n].parents) <= t.roles.Keys)
  {
    hide AfterFirst, NamesOf, RoleScript, IsDrops, Elements, Placed;
    var n, t := run.plan.names[k], AfterFirst(run, s, k);
    AfterFirstRows(run, s, k);
    assert RowOf(t, n) == RowOf(s, n);
    forall x | x in s.roles
      ensures x in t.roles
    {
      assert RowOf(t, x).Some?;
    }
  }

  lemma {:induction false} JoinersAreReady(run: Session, s: Cluster, k: nat, missing: seq<Membership>)
    requires IsRun(run) && s.roles == run.start.roles && k < |run.plan.names|
    requires forall i :: 0 <= i < |run.plan.names| ==> run.plan.names[i] in run.wanted
    requires run.plan.names[k] in run.all && TurnIsSafe(run, run.plan.names, k)
    requires missing == Missing(run.all[run.plan.names[k]].parents, run.wanted[run.plan.names[k]].parents)
    ensures CanJoin(AfterFirst(run, s, k), Names(missing), run.plan.names[k])
  {
    NamesHolds(missing);
    forall p | p in Names(missing)
      ensures p in AfterFirst(run, s, k).roles && !Reaches(AfterFirst(run, s, k), p, run.plan.names[k])
    {
      var m :| m in missing && m.name == p;
      assert IsGranted(run, run.plan.names[k], p);
      ParentsAreReady(run, s, k, p);
      WalksAfter(run, s, k, p, run.plan.names[k]);
    }
  }

  lemma {:induction false} CreateTurn(run: Session, s: Cluster, k: nat)
    requires IsRun(run) && s.roles == run.start.roles && k < |run.plan.names|
    requires forall i :: 0 <= i < |run.plan.names| ==> run.plan.names[i] in run.wanted
    requires run.plan.names[k] !in run.all
    ensures Runs(run.self, AfterFirst(run, s, k), run.plan.scripts[k], AfterFirst(run, s, k + 1))
  {
    var n, t := run.plan.names[k], AfterFirst(run, s, k);
    var wanted := run.wanted[n];
    UntouchedYet(run, s, k);
    forall p | p in ParentNames(wanted.parents)
      ensures p in t.roles
    {
      ParentsAreReady(run, s, k, p);
    }
    assert RoleScript(run.enabled, run.all, wanted, run.plan.scripts[k]);
    CreateRuns(run.self, t, run.enabled, wanted, run.plan.scripts[k]);
  }

  ghost predicate TurnRuns(run: Session, s: Cluster, k: nat)
    requires k < |run.plan.names| == |run.plan.scripts|
    requires forall i :: 0 <= i <= k ==> run.plan.names[i] in run.wanted
  {
    Runs(run.self, AfterFirst(run, s, k), run.plan.scripts[k], AfterFirst(run, s, k + 1))
  }

  lemma {:induction false} TurnsRun(run: Session, s: Cluster, k: nat)
    requires k <= |run.plan.names| == |run.plan.scripts|
    requires forall i :: 0 <= i < |run.plan.names| ==> run.plan.names[i] in run.wanted
    requires forall i: nat :: i < k ==> TurnRuns(run, s, i)
    ensures Runs(run.self, s, Flat(run.plan.scripts, k), AfterFirst(run, s, k))
  {
    if k == 0 {
      RunsNone(run.self, s);
    } else {
      TurnsRun(run, s, k - 1);
      assert TurnRuns(run, s, k - 1);
      RunsConcat(run.self, s, Flat(run.plan.scripts, k - 1), AfterFirst(run, s, k - 1), run.plan.scripts[k - 1], AfterFirst(run, s, k));
    }
  }

  /** Creating and altering the wanted roles in flattened order is accepted, statement
      by statement, and gives each its target row. */
  lemma {:induction false} FirstPartRuns(run: Session, s: Cluster)
    requires IsRun(run) && s.roles == run.start.roles && OrderIsSafe(run, run.plan.names)
    requires forall i :: 0 <= i < |run.plan.names| ==> run.plan.names[i] in run.wanted
    ensures Runs(run.self, s, Flat(run.plan.scripts, |run.plan.scripts|), AfterFirst(run, s, |run.plan.names|))
  {
    forall i: nat | i < |run.plan.names| ensures TurnRuns(run, s, i) { SafeTurnRuns(run, s, i); }
    TurnsRun(run, s, |run.plan.names|);
  }

  lemma {:induction false} SafeTurnRuns(run: Session, s: Cluster, k: nat)
    requires IsRun(run) && s.roles == run.start.roles && k < |run.plan.names| && TurnIsSafe(run, run.plan.names, k)
    requires forall i :: 0 <= i < |run.plan.names| ==> run.plan.names[i] in run.wanted
    ensures TurnRuns(run, s, k)
  {
    if run.plan.names[k] in run.all { AlterTurn(run, s, k); } else { CreateTurn(run, s, k); }
  }
}
