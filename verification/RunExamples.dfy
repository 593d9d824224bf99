/** Two small runs: alice is wanted in dba, an existing role that no rule speaks of. */
module RunExamples {
  import opened Roles
  import opened RoleGraph
  import opened Postgres
  import opened RoleDiff
  import opened RoleScripts
  import opened Regroup
  import opened Collections
  import opened RoleRun
  import opened Convergence
  import opened GrantLoops
  import Sorting
  import TopoSort

  const ALICE := "alice"
  const DBA := "dba"
  const READERS := "readers"
  const ADMIN := "postgres"

  function Row(parents: set<Membership>): PgRole {
    PgRole(DEFAULTS, parents, "", map[])
  }

  function Known(name: string, parents: seq<Membership>): Role {
    Role(name, "", parents, DEFAULTS, Some(map[]), "", "")
  }

  function Wish(name: string, parents: seq<Membership>): Role {
    Role(name, "", parents, DEFAULTS, None, "", "")
  }

  const GRANT := Query("", GrantParents([DBA], ALICE))

  /** dba is a member of above. */
  function Example(above: string): Session {
    var m := Membership(ADMIN, above);
    Session(
      ADMIN, {}, {},
      Cluster(map[ALICE := Row({}), READERS := Row({}), ADMIN := Row({}), DBA := Row({m})], map[ADMIN := ADMIN], map[]),
      map[ALICE := Known(ALICE, []), READERS := Known(READERS, []), ADMIN := Known(ADMIN, []), DBA := Known(DBA, [m])],
      {ALICE, READERS},
      map[ALICE := Wish(ALICE, [Membership("", DBA)]), READERS := Wish(READERS, [])],
      ADMIN, ADMIN,
      Plan([READERS, ALICE], [[], [GRANT]], [], []),
      [ADMIN])
  }

  lemma {:induction false} NoOptionsDiffer(a: Options, b: Options)
    ensures Differences({}, a, b, |COLUMNS|) == []
  {
    AlterOptionsReachesWanted({}, a, b);
  }

  lemma {:induction false} ScriptsFit()
    ensures IsAlter({}, Known(READERS, []), Wish(READERS, []), [])
    ensures IsAlter({}, Known(ALICE, []), Wish(ALICE, [Membership("", DBA)]), [GRANT])
  {
    NoOptionsDiffer(DEFAULTS, DEFAULTS);
    var m := Membership("", DBA);
    assert Missing([], []) == [];
    assert Missing([m], []) == [];
    assert [m][..0] == [] && Missing([], [m]) == [m];
    assert Names([m]) == [DBA];
    assert AlterHead({}, Known(READERS, []), Wish(READERS, [])) == [];
    assert AlterHead({}, Known(ALICE, []), Wish(ALICE, [m])) == [GRANT];
  }

  lemma {:induction false} NamesFit(wanted: RoleMap)
    requires wanted == map[ALICE := Wish(ALICE, [Membership("", DBA)]), READERS := Wish(READERS, [])]
    ensures IsFlattening(wanted, [READERS, ALICE]) && TopoSort.Acyclic(GraphOf(wanted))
  {
    var names, g := [READERS, ALICE], GraphOf(wanted);
    assert Elements(names) == wanted.Keys;
    assert AfterParents(wanted, names, 0) && AfterParents(wanted, names, 1);
    forall n ensures !TopoSort.Above(g, n, n) {
      if TopoSort.Above(g, n, n) {
        var path :| TopoSort.LeadsUp(g, path, n, n);
        NoWalkBack(g, path, n);
      }
    }
  }

  lemma {:induction false} NoWalkBack(g: TopoSort.Graph, path: seq<string>, n: string)
    requires g.Keys == {ALICE, READERS} && g[ALICE] == [DBA] && g[READERS] == []
    ensures !TopoSort.LeadsUp(g, path, n, n)
  {
    if |path| >= 2 && TopoSort.IsPath(g, path) {
      var k := |path| - 1;
      assert TopoSort.Edge(g, path[1 - 1], path[1]) && TopoSort.Edge(g, path[k - 1], path[k]);
    }
  }

  lemma {:induction false} OrderFits()
    ensures IsSyncOrder([ADMIN], {ADMIN}, ADMIN, false)
  {
    var names := [ADMIN];
    assert Sorting.SortStrings(names) == names by { assert names[1..] == []; }
    assert names[..0] == [] && Without(names, ADMIN) == [];
    assert Placed(names, {ADMIN}, ADMIN, false) == [ADMIN];
    assert Elements([ADMIN]) == {ADMIN};
  }

  lemma {:induction false} ClusterFits(above: string)
    requires above == ALICE || above == READERS
    ensures var run := Example(above); Consistent(run.start) && Inspected(run.enabled, run.blacklist, run.start, run.all)
  {
  }

  lemma {:induction false} WishesFit(above: string)
    requires above == ALICE || above == READERS
    ensures var run := Example(above); WantedIsPossible(run)
  {
    var run := Example(above);
    NamesFit(run.wanted);
    assert run.Doomed() == {};
    forall n, p | n in run.wanted && p in ParentNames(run.wanted[n].parents) ensures ParentStands(run, p) {
      assert p == DBA;
    }
  }

  lemma {:induction false} PlanFits(above: string)
    requires above == ALICE || above == READERS
    ensures var run := Example(above);
      IsPlan(run.enabled, run.all, run.managed, run.wanted, run.start.databases, run.plan)
  {
    hide IsAlter, IsFlattening, Missing, Elements;
    var run := Example(above);
    NamesFit(run.wanted);
    ScriptsFit();
    assert run.Doomed() == {};
  }

  lemma {:induction false} ExampleIsRun(above: string)
    requires above == ALICE || above == READERS
    ensures IsRun(Example(above))
  {
    hide IsPlan, WantedIsPossible, Inspected, Consistent, IsSyncOrder;
    ClusterFits(above);
    WishesFit(above);
    PlanFits(above);
    OrderFits();
    assert Example(above).start.databases.Keys == {ADMIN};
  }

  lemma {:induction false} TurnIsUnsafe(run: Session)
    requires run == Example(ALICE)
    ensures !OrderIsSafe(run, run.plan.names)
  {
    var names, done := run.plan.names, {READERS};
    assert names[..1] == [READERS] && Elements([READERS]) == done;
    assert Membership("", DBA) in run.wanted[ALICE].parents && IsGranted(run, ALICE, DBA);
    assert Membership(ADMIN, ALICE) in run.start.roles[DBA].parents && IsMemberWith(run, done, DBA, ALICE);
    assert LeadsWith(run, done, [DBA, ALICE], DBA, ALICE);
    assert names[1] == ALICE && ReachesWith(run, Elements(names[..1]), DBA, names[1]);
    assert !TurnIsSafe(run, names, 1);
  }

  /** With dba a member of alice, the grant would close a loop: the run stops. */
  lemma {:induction false} LoopStopsTheRun()
    ensures var run := Example(ALICE);
      IsRun(run) && !ClosesNoLoop(run) && forall t :: !Runs(run.self, run.start, run.Executed(), t)
  {
    var run := Example(ALICE);
    ExampleIsRun(ALICE);
    RefusesAll(run);
  }

  lemma {:induction false} RefusesAll(run: Session)
    requires run == Example(ALICE) && IsRun(run)
    ensures !ClosesNoLoop(run) && forall t :: !Runs(run.self, run.start, run.Executed(), t)
  {
    hide OrderIsSafe, ClosesNoLoop, Example;
    TurnIsUnsafe(run);
    if ClosesNoLoop(run) { EveryOrderIsSafe(run, run.plan.names); }
    RunsThroughIff(run);
  }

  /** With dba a member of readers, another wanted role, the run goes through. */
  lemma {:induction false} OtherMemberIsFine() returns (t: Cluster)
    ensures var run := Example(READERS);
      IsRun(run) && ClosesNoLoop(run) && Runs(run.self, run.start, run.Executed(), t) && Converged(run, t)
  {
    var run := Example(READERS);
    ExampleIsRun(READERS);
    NoLoopHere(run);
    t := RunConverges(run);
  }

  lemma {:induction false} NoLoopHere(run: Session)
    requires run == Example(READERS)
    ensures ClosesNoLoop(run)
  {
    forall n, p, done | IsGranted(run, n, p) && ComesNext(run, done, n) ensures !ReachesWith(run, done, p, n) {
      if ReachesWith(run, done, p, n) {
        var path :| LeadsWith(run, done, path, p, n);
        StaysBelow(run, done, path, |path| - 1);
      }
    }
  }

  lemma {:induction false} StaysBelow(run: Session, done: set<string>, path: seq<string>, k: nat)
    requires run == Example(READERS) && ALICE !in done && k < |path| && path[0] == DBA
    requires forall i: nat :: 0 < i < |path| ==> IsMemberWith(run, done, path[i - 1], path[i])
    ensures path[k] == DBA || path[k] == READERS
  {
    if k > 0 {
      StaysBelow(run, done, path, k - 1);
      assert IsMemberWith(run, done, path[k - 1], path[k]);
    }
  }
}
