/** What a whole role run achieves on the cluster it has inspected. */
module Convergence {
  import opened Roles
  import opened RoleGraph
  import opened Postgres
  import opened RoleDiff
  import opened RoleScripts
  import opened Regroup
  import opened Collections
  import opened DropSafety
  import opened DropRun
  import opened RoleRun

  // Creating and altering happens in the default database

  /** A statement for the default database whose effect does not depend on the database. */
  predicate Plain(q: Query) {
    q.database == "" && !q.stmt.ReassignOwned? && !q.stmt.AlterDatabaseOwner? && !q.stmt.DropRole?
  }

  ghost predicate AllPlain(qs: seq<Query>) {
    forall i: nat :: i < |qs| ==> Plain(qs[i])
  }

  lemma {:induction false} RevokesArePlain(name: string, spurious: seq<Membership>)
    ensures AllPlain(Revokes(name, spurious))
  {
    if spurious != [] { RevokesArePlain(name, spurious[..|spurious| - 1]); }
  }

  lemma {:induction false} SettingsArePlain(settings: seq<Query>, name: string)
    requires forall i: nat :: i < |settings| ==> IsConfig(settings[i], name)
    ensures AllPlain(settings)
  {
  }

  lemma {:induction false} PlainConcat(a: seq<Query>, b: seq<Query>)
    requires AllPlain(a) && AllPlain(b)
    ensures AllPlain(a + b)
  {
  }

  lemma {:induction false} AlterHeadIsPlain(enabled: set<Column>, r: Role, wanted: Role)
    ensures AllPlain(AlterHead(enabled, r, wanted))
  {
    RevokesArePlain(r.name, Missing(wanted.parents, r.parents));
  }

  lemma {:induction false} ScriptIsPlain(enabled: set<Column>, all: RoleMap, wanted: Role, script: seq<Query>)
    requires RoleScript(enabled, all, wanted, script)
    ensures AllPlain(script)
  {
    hide AlterHead;
    if wanted.name in all {
      var r := all[wanted.name];
      var head := AlterHead(enabled, r, wanted);
      AlterHeadIsPlain(enabled, r, wanted);
      var settings := script[|head|..];
      SettingsArePlain(settings, r.name);
      PlainConcat(head, settings);
      assert script == head + settings;
    } else {
      var settings :| ConfigScript(wanted.name, map[], Settings(wanted), settings) && script == CreateWith(enabled, wanted, settings);
      SettingsArePlain(settings, wanted.name);
    }
  }

  lemma {:induction false} FlatIsPlain(scripts: seq<seq<Query>>, k: nat)
    requires k <= |scripts| && forall i :: 0 <= i < k ==> AllPlain(scripts[i])
    ensures AllPlain(Flat(scripts, k))
  {
    if k > 0 { FlatIsPlain(scripts, k - 1); }
  }

  ghost predicate SameStmts(a: seq<Query>, b: seq<Query>) {
    |a| == |b| && forall i: nat :: i < |a| ==> SameStmt(a[i], b[i])
  }

  ghost predicate SameStmt(a: Query, b: Query) {
    a.stmt == b.stmt && !a.stmt.ReassignOwned? && !a.stmt.DropRole?
  }

  /** Only REASSIGN OWNED depends on the database it is sent to. */
  lemma {:induction false} SameRuns(self: string, s: Cluster, a: seq<Query>, b: seq<Query>, t: Cluster)
    requires Runs(self, s, a, t) && SameStmts(a, b)
    ensures Runs(self, s, b, t)
  {
    var trace :| IsTrace(self, trace, a, s, t);
    forall i: nat | i < |b|
      ensures StepAt(self, trace, b, i)
    {
      assert StepAt(self, trace, a, i) && SameStmt(a[i], b[i]);
    }
    assert IsTrace(self, trace, b, s, t);
  }

  lemma {:induction false} PlainShare(order: seq<string>, default: string, database: string, qs: seq<Query>, deal: seq<Query> -> seq<Query>)
    requires AllPlain(qs) && Deals(order, default, database, deal)
    ensures database != default ==> deal(qs) == []
    ensures database == default ==> SameStmts(qs, deal(qs))
  {
    if qs != [] {
      var front, last := qs[..|qs| - 1], qs[|qs| - 1];
      assert Plain(last) && qs == front + [last];
      PlainShare(order, default, database, front, deal);
      assert deal(qs) == deal(front) + deal([last]);
      assert deal([last]) == ShareOne(order, default, last, database);
    }
  }

  // The schedule of drops of a run

  ghost function PositionOf(drops: seq<string>, name: string): (i: nat)
    requires name in drops
    ensures i < |drops| && drops[i] == name
  {
    var i :| 0 <= i < |drops| && drops[i] == name;
    i
  }

  ghost function ScheduleOf(run: Session): Schedule {
    var drops := run.plan.drops;
    Schedule(drops, map name | name in drops :: PositionOf(drops, name), run.start.databases, run.fallback, run.default)
  }

  ghost function TeardownOf(run: Session): Teardown {
    Teardown(run.all, run.plan.orders, run.order, ScheduleOf(run))
  }

  lemma {:induction false} IsScheduled(run: Session)
    requires IsRun(run)
    ensures IsSchedule(ScheduleOf(run)) && ScheduleOf(run).ranks.Keys == run.Doomed()
  {
    hide Consistent, Inspected, IsSyncOrder, RoleScript;
    var sc := ScheduleOf(run);
    forall i: nat | i < |sc.drops|
      ensures RankedAt(sc, i)
    {
      assert sc.drops[i] in sc.drops;
    }
  }

  lemma {:induction false} IsTornDown(run: Session)
    requires IsRun(run)
    ensures IsTeardown(TeardownOf(run))
  {
    var td := TeardownOf(run);
    IsScheduled(run);
    DefaultIsLast(run.order, run.start.databases.Keys, run.default);
    forall i: nat | i < |td.sc.drops|
      ensures Known(td, i)
    {
      assert Visits(run.plan.orders[i], run.start.databases.Keys);
    }
  }

  lemma {:induction false} DefaultIsLast(order: seq<string>, databases: set<string>, default: string)
    requires IsSyncOrder(order, databases, default, false) && default in databases
    ensures order != [] && order[|order| - 1] == default
  {
  }

  lemma {:induction false} EveryoneIsPresent(run: Session, s: Cluster)
    requires IsRun(run) && run.start.roles.Keys <= s.roles.Keys
    ensures Present(ScheduleOf(run), s, 0)
  {
    var sc := ScheduleOf(run);
    forall j | 0 <= j < |sc.drops|
      ensures sc.drops[j] in s.roles
    {
      assert sc.drops[j] in run.all;
    }
  }

  lemma {:induction false} StartStands(run: Session)
    requires IsRun(run)
    ensures Standing(ScheduleOf(run), run.start.databases, 0, {})
  {
    var sc := ScheduleOf(run);
    forall d | d in sc.owners
      ensures StandsIn(sc, run.start.databases, 0, {}, d)
    {
    }
  }

  // What each database receives

  /** The resolved statements. */
  ghost function Resolved(run: Session): seq<Query>
    requires IsRun(run)
  {
    ResolveAll(run.Sent(), run.order, run.default)
  }

  lemma {:induction false} ScriptsArePlain(run: Session)
    requires IsRun(run)
    ensures AllPlain(Flat(run.plan.scripts, |run.plan.scripts|))
  {
    forall i | 0 <= i < |run.plan.scripts|
      ensures AllPlain(run.plan.scripts[i])
    {
      ScriptIsPlain(run.enabled, run.all, run.wanted[run.plan.names[i]], run.plan.scripts[i]);
    }
    FlatIsPlain(run.plan.scripts, |run.plan.scripts|);
  }

  lemma {:induction false} OtherShare(run: Session, database: string)
    requires IsRun(run) && database in run.start.databases && database != run.default
    ensures IsOtherGroup(ScheduleOf(run), database, Of(Resolved(run), database))
  {
    hide Flat, Consistent, IsPlan;
    var td, scripts := TeardownOf(run), Flat(run.plan.scripts, |run.plan.scripts|);
    IsTornDown(run);
    var turns := OtherShape(td, database);
    var deal := ShareDeals(run.order, run.default, database);
    ScriptsArePlain(run);
    PlainShare(run.order, run.default, database, scripts, deal);
    assert run.Sent() == scripts + Drops(td, |td.sc.drops|);
    assert deal(scripts + Drops(td, |td.sc.drops|)) == deal(scripts) + deal(Drops(td, |td.sc.drops|));
  }

  lemma {:induction false} DefaultShare(run: Session) returns (head: seq<Query>, dts: seq<DefaultTurn>, turns: seq<seq<Query>>)
    requires IsRun(run)
    ensures SameStmts(Flat(run.plan.scripts, |run.plan.scripts|), head)
    ensures AreDefaultTurns(ScheduleOf(run), dts, turns)
    ensures Of(Resolved(run), run.default) == head + Flat(turns, |turns|)
  {
    var td, scripts := TeardownOf(run), Flat(run.plan.scripts, |run.plan.scripts|);
    IsTornDown(run);
    dts, turns := DefaultShape(td);
    var deal := ShareDeals(run.order, run.default, run.default);
    ScriptsArePlain(run);
    PlainShare(run.order, run.default, run.default, scripts, deal);
    head := deal(scripts);
    assert run.Sent() == scripts + Drops(td, |td.sc.drops|);
    assert deal(scripts + Drops(td, |td.sc.drops|)) == head + deal(Drops(td, |td.sc.drops|));
  }

  ghost function OtherGroupsOf(run: Session): seq<seq<Query>>
    requires IsRun(run) && run.order != []
  {
    seq(|run.order| - 1, k requires 0 <= k < |run.order| - 1 => Of(Resolved(run), run.order[k]))
  }

  lemma {:induction false} GroupsAreFlat(order: seq<string>, qs: seq<Query>, groups: seq<seq<Query>>, k: nat)
    requires k <= |groups| <= |order| && forall i :: 0 <= i < |groups| ==> groups[i] == Of(qs, order[i])
    ensures Grouped(order, k, qs) == Flat(groups, k)
  {
    if k > 0 { GroupsAreFlat(order, qs, groups, k - 1); }
  }

  // The three stages

  lemma {:induction false} OthersRun(run: Session) returns (t: Cluster)
    requires IsRun(run) && run.order != []
    ensures Runs(run.self, run.start, Grouped(run.order, |run.order| - 1, Resolved(run)), t)
    ensures t.roles == run.start.roles && Midway(ScheduleOf(run), t, 0, {})
  {
    var sc, m, groups := ScheduleOf(run), |run.order| - 1, OtherGroupsOf(run);
    DefaultIsLast(run.order, run.start.databases.Keys, run.default);
    IsScheduled(run);
    EveryoneIsPresent(run, run.start);
    StartStands(run);
    forall k: nat | k < |groups|
      ensures IsOtherGroup(sc, run.order[k], groups[k])
    {
      assert run.order[k] in Elements(run.order);
      OtherShare(run, run.order[k]);
    }
    t := OtherGroups(run.self, sc, run.start, run.order, groups);
    GroupsAreFlat(run.order, Resolved(run), groups, m);
    AllOthersClean(run, t);
  }

  lemma {:induction false} AllOthersClean(run: Session, t: Cluster)
    requires IsRun(run) && run.order != [] && run.order[|run.order| - 1] == run.default
    requires GroupsClean(ScheduleOf(run), run.start, run.order, |run.order| - 1, t)
    ensures OthersClean(ScheduleOf(run), t)
  {
    hide OwnersFrom, Inspected, WantedIsPossible, RoleScript, Placed;
    var sc := ScheduleOf(run);
    forall d | d in t.objects && d != run.default
      ensures OwnersFrom(sc, t.objects[d], |sc.drops|)
    {
      assert d in Elements(run.order);
      var j :| 0 <= j < |run.order| && run.order[j] == d;
      assert CleanTo(sc, t, run.order[j], |sc.drops|);
    }
  }

  /** The row of n once the wanted roles are created and altered. */
  ghost function FirstRow(run: Session, n: string): Option<PgRole> {
    if n in run.wanted then Some(Target(run, n)) else RowOf(run.start, n)
  }

  ghost predicate FirstPartDone(run: Session, s: Cluster, t: Cluster) {
    && t.databases == s.databases && t.objects == s.objects
    && forall n :: RowOf(t, n) == FirstRow(run, n)
  }

  lemma {:induction false} FirstPartKeeps(run: Session, s: Cluster)
    requires s.roles == run.start.roles && Elements(run.plan.names) == run.wanted.Keys
    requires forall i :: 0 <= i < |run.plan.names| ==> run.plan.names[i] in run.wanted
    ensures FirstPartDone(run, s, AfterFirst(run, s, |run.plan.names|))
  {
    var t, names := AfterFirst(run, s, |run.plan.names|), run.plan.names;
    AfterFirstRows(run, s, |names|);
    assert names[..|names|] == names;
    forall n
      ensures RowOf(t, n) == FirstRow(run, n)
    {
      assert n in run.wanted <==> n in Elements(names);
      assert RowOf(t, n) == if n in run.wanted && n in names then Some(Target(run, n)) else RowOf(s, n);
    }
  }

  lemma {:induction false} HeadRuns(run: Session, s: Cluster, head: seq<Query>) returns (u: Cluster)
    requires IsRun(run) && s.roles == run.start.roles && OrderIsSafe(run, run.plan.names)
    requires SameStmts(Flat(run.plan.scripts, |run.plan.scripts|), head)
    ensures Runs(run.self, s, head, u) && FirstPartDone(run, s, u)
  {
    NamesAreWanted(run.wanted, run.plan.names);
    FirstPartRuns(run, s);
    FirstPartKeeps(run, s);
    u := AfterFirst(run, s, |run.plan.names|);
    SameRuns(run.self, s, Flat(run.plan.scripts, |run.plan.scripts|), head, u);
  }

  lemma {:induction false} DropsRun(run: Session, s: Cluster, u: Cluster, dts: seq<DefaultTurn>, turns: seq<seq<Query>>) returns (t: Cluster)
    requires FirstPartDone(run, s, u) && IsSchedule(ScheduleOf(run)) && run.default in run.start.databases
    requires Present(ScheduleOf(run), u, 0) && Midway(ScheduleOf(run), u, 0, {})
    requires AreDefaultTurns(ScheduleOf(run), dts, turns)
    ensures Runs(run.self, u, Flat(turns, |turns|), t)
    ensures Midway(ScheduleOf(run), t, |run.plan.drops|, {}) && RowsEnd(run, t)
  {
    t := DefaultTurns(run.self, ScheduleOf(run), u, dts, turns);
    assert run.plan.drops[..|turns|] == run.plan.drops;
    RowsAreTrimmed(run, s, u, t);
  }

  lemma {:induction false} DefaultRuns(run: Session, s: Cluster) returns (t: Cluster)
    requires IsRun(run) && OrderIsSafe(run, run.plan.names)
    requires s.roles == run.start.roles && Midway(ScheduleOf(run), s, 0, {})
    ensures Runs(run.self, s, Of(Resolved(run), run.default), t)
    ensures Midway(ScheduleOf(run), t, |run.plan.drops|, {}) && RowsEnd(run, t)
  {
    var head, dts, turns := DefaultShare(run);
    var u := HeadRuns(run, s, head);
    AllStillThere(run, s, u);
    EveryoneIsPresent(run, u);
    IsScheduled(run);
    t := DropsRun(run, s, u, dts, turns);
    RunsConcat(run.self, s, head, u, Flat(turns, |turns|), t);
  }

  lemma {:induction false} AllStillThere(run: Session, s: Cluster, u: Cluster)
    requires FirstPartDone(run, s, u)
    ensures run.start.roles.Keys <= u.roles.Keys
  {
    forall n | n in run.start.roles
      ensures n in u.roles
    {
      assert RowOf(u, n) == FirstRow(run, n);
    }
  }

  /** The row of n at the end of the run. */
  ghost function LastRow(run: Session, n: string): Option<PgRole> {
    if n in run.plan.drops || FirstRow(run, n).None? then None
    else Some(Trimmed(FirstRow(run, n).value, run.plan.drops))
  }

  ghost predicate RowsEnd(run: Session, t: Cluster) {
    forall n :: RowOf(t, n) == LastRow(run, n)
  }

  lemma {:induction false} RowsAreTrimmed(run: Session, s: Cluster, u: Cluster, t: Cluster)
    requires FirstPartDone(run, s, u) && LeftOver(u.roles, t.roles, run.plan.drops)
    ensures RowsEnd(run, t)
  {
    forall n
      ensures RowOf(t, n) == LastRow(run, n)
    {
      assert RowOf(u, n) == FirstRow(run, n) && LeftRow(u.roles, t.roles, run.plan.drops, n);
    }
  }

  // What the run achieves

  /** A wanted role is as wanted; what the run does not manage is as it was, or as
      CREATE ROLE leaves it. */
  ghost predicate WantedRow(run: Session, n: string, p: PgRole)
    requires n in run.wanted
  {
    && Meets(run.enabled, p, run.wanted[n])
    && (n in run.start.roles ==> forall c :: c !in run.enabled ==> p.options.Get(c) == run.start.roles[n].options.Get(c))
    && (run.wanted[n].config.None? ==> p.config == if n in run.start.roles then run.start.roles[n].config else map[])
  }

  /** Another role only loses its memberships in dropped roles. */
  ghost predicate OtherRow(run: Session, n: string, p: PgRole)
    requires n in run.start.roles
  {
    var before := run.start.roles[n];
    p.options == before.options && p.comment == before.comment && p.config == before.config
    && forall m :: m in p.parents <==> m in before.parents && m.name !in run.Doomed()
  }

  ghost predicate NoDroppedOwner(run: Session, owners: map<string, string>) {
    forall o :: o in owners ==> owners[o] !in run.Doomed()
  }

  ghost predicate Converged(run: Session, t: Cluster) {
    && (forall n :: n in t.roles <==> (n in run.start.roles || n in run.wanted) && n !in run.Doomed())
    && (forall n :: n in run.wanted ==> WantedRow(run, n, t.roles[n]))
    && (forall n :: n in t.roles && n !in run.wanted ==> OtherRow(run, n, t.roles[n]))
    && t.databases.Keys == run.start.databases.Keys
    && NoDroppedOwner(run, t.databases)
    && forall d :: d in t.objects ==> NoDroppedOwner(run, t.objects[d])
  }

  lemma {:induction false} TrimKeeps(run: Session, n: string, p: PgRole, drops: seq<string>)
    requires n in run.wanted && Meets(run.enabled, p, run.wanted[n])
    requires forall q :: q in ParentNames(run.wanted[n].parents) ==> q !in drops
    ensures Trimmed(p, drops) == p
  {
    forall m | m in p.parents
      ensures m.name !in drops
    {
      assert m.name in NamesOf(p.parents);
    }
    assert Trimmed(p, drops).parents == p.parents;
  }

  lemma {:induction false} TargetIsWanted(run: Session, n: string)
    requires Inspected(run.enabled, run.blacklist, run.start, run.all) && n in run.wanted && n !in run.blacklist
    ensures WantedRow(run, n, Target(run, n))
  {
    TargetMeets(run, n);
    if n in run.all {
      var r, p, wanted := run.all[n], run.start.roles[n], run.wanted[n];
      DifferencesAgree(run.enabled, r.options, p.options, wanted.options, |COLUMNS|);
      AlterOptionsReachesWanted(run.enabled, p.options, wanted.options);
    }
  }

  lemma {:induction false} WantedConverges(run: Session, n: string)
    requires IsRun(run) && n in run.wanted
    ensures LastRow(run, n) == Some(Target(run, n)) && WantedRow(run, n, Target(run, n))
  {
    hide Elements, NamesOf;
    TargetIsWanted(run, n);
    forall q | q in ParentNames(run.wanted[n].parents)
      ensures q !in run.plan.drops
    {
      assert ParentStands(run, q);
    }
    TrimKeeps(run, n, Target(run, n), run.plan.drops);
  }

  lemma {:induction false} OtherConverges(run: Session, n: string)
    requires IsRun(run) && n !in run.wanted
    ensures LastRow(run, n).Some? <==> n in run.start.roles && n !in run.Doomed()
    ensures LastRow(run, n).Some? ==> OtherRow(run, n, LastRow(run, n).value)
  {
  }

  lemma {:induction false} RolesConverge(run: Session, t: Cluster)
    requires IsRun(run) && RowsEnd(run, t)
    ensures forall n :: n in t.roles <==> (n in run.start.roles || n in run.wanted) && n !in run.Doomed()
    ensures forall n :: n in run.wanted ==> WantedRow(run, n, t.roles[n])
    ensures forall n :: n in t.roles && n !in run.wanted ==> OtherRow(run, n, t.roles[n])
  {
    forall n
      ensures n in t.roles <==> (n in run.start.roles || n in run.wanted) && n !in run.Doomed()
      ensures n in run.wanted ==> WantedRow(run, n, t.roles[n])
      ensures n in t.roles && n !in run.wanted ==> OtherRow(run, n, t.roles[n])
    {
      assert RowOf(t, n) == LastRow(run, n);
      if n in run.wanted { WantedConverges(run, n); } else { OtherConverges(run, n); }
    }
  }

  lemma {:induction false} OwnersConverge(run: Session, t: Cluster)
    requires IsRun(run) && Midway(ScheduleOf(run), t, |run.plan.drops|, {})
    ensures NoDroppedOwner(run, t.databases)
    ensures forall d :: d in t.objects ==> NoDroppedOwner(run, t.objects[d])
  {
    var sc := ScheduleOf(run);
    IsScheduled(run);
    forall d | d in t.databases
      ensures t.databases[d] !in sc.ranks
    {
      assert StandsIn(sc, t.databases, |sc.drops|, {}, d);
      assert t.databases[d] in sc.ranks ==> IsRanked(sc, t.databases[d]);
    }
    forall d, o | d in t.objects && o in t.objects[d]
      ensures t.objects[d][o] !in sc.ranks
    {
      assert OwnersFrom(sc, t.objects[d], |sc.drops|);
      assert t.objects[d][o] in sc.ranks ==> IsRanked(sc, t.objects[d][o]);
    }
  }

  /** Every statement of a run is accepted, regrouped as it is, and the cluster converges. */
  lemma {:induction false} SafeRunConverges(run: Session) returns (t: Cluster)
    requires IsRun(run) && OrderIsSafe(run, run.plan.names)
    ensures Runs(run.self, run.start, run.Executed(), t) && Converged(run, t)
  {
    DefaultIsLast(run.order, run.start.databases.Keys, run.default);
    var s := OthersRun(run);
    t := DefaultRuns(run, s);
    RunsConcat(run.self, run.start, Grouped(run.order, |run.order| - 1, Resolved(run)), s, Of(Resolved(run), run.default), t);
    RolesConverge(run, t);
    OwnersConverge(run, t);
  }

  /** So does every run whose grants can close no loop, whatever the iteration orders. */
  lemma {:induction false} RunConverges(run: Session) returns (t: Cluster)
    requires IsRun(run) && ClosesNoLoop(run)
    ensures Runs(run.self, run.start, run.Executed(), t) && Converged(run, t)
  {
    EveryOrderIsSafe(run, run.plan.names);
    t := SafeRunConverges(run);
  }

  // A second run

  lemma {:induction false} FlatOfNone(scripts: seq<seq<Query>>, k: nat)
    requires k <= |scripts| && forall i :: 0 <= i < k ==> scripts[i] == []
    ensures Flat(scripts, k) == []
  {
    if k > 0 { FlatOfNone(scripts, k - 1); }
  }

  lemma {:induction false} ScriptsAreIdle(run: Session, t: Cluster, all: RoleMap, plan: Plan)
    requires Inspected(run.enabled, run.blacklist, t, all) && WellKeyed(run.wanted)
    requires forall n :: n in run.wanted ==> n !in run.blacklist && n in t.roles && WantedRow(run, n, t.roles[n])
    requires IsFlattening(run.wanted, plan.names) && |plan.scripts| == |plan.names|
    requires forall i :: 0 <= i < |plan.names| ==> RoleScript(run.enabled, all, run.wanted[plan.names[i]], plan.scripts[i])
    ensures Flat(plan.scripts, |plan.scripts|) == []
  {
    forall i | 0 <= i < |plan.scripts|
      ensures plan.scripts[i] == []
    {
      var n := plan.names[i];
      assert AfterParents(run.wanted, plan.names, i);
      AlterIsIdle(run.enabled, all[n], run.wanted[n], t.roles[n], plan.scripts[i]);
    }
    FlatOfNone(plan.scripts, |plan.scripts|);
  }

  lemma {:induction false} FirstIsDoomed(drops: seq<string>, doomed: set<string>)
    requires forall n :: n in drops ==> n in doomed
    ensures drops == [] || drops[0] in doomed
  {
    if drops != [] { assert drops[0] in drops; }
  }

  lemma {:induction false} NothingLeftToDrop(run: Session, t: Cluster, all: RoleMap, managed: set<string>, drops: seq<string>)
    requires Inspected(run.enabled, run.blacklist, run.start, run.all) && Inspected(run.enabled, run.blacklist, t, all)
    requires forall n :: n in t.roles <==> (n in run.start.roles || n in run.wanted) && n !in run.Doomed()
    requires managed <= run.managed + run.wanted.Keys
    requires forall n :: n in drops <==> n in Doomed(all, managed, run.wanted)
    ensures drops == []
  {
    assert Doomed(all, managed, run.wanted) == {};
    FirstIsDoomed(drops, Doomed(all, managed, run.wanted));
  }

  /** Inspecting the converged cluster and running again, whatever the iteration orders,
      sends nothing: no role is managed then that was neither managed before nor wanted. */
  lemma {:induction false} SecondRunIsIdle(run: Session, t: Cluster, all: RoleMap, managed: set<string>, plan: Plan)
    requires IsRun(run) && Converged(run, t)
    requires Inspected(run.enabled, run.blacklist, t, all)
    requires managed <= run.managed + run.wanted.Keys
    requires IsPlan(run.enabled, all, managed, run.wanted, t.databases, plan)
    ensures PlanQueries(all, managed, run.wanted, t.databases, run.fallback, plan) == []
  {
    hide Inspected, Consistent, IsSyncOrder, OtherRow, NoDroppedOwner, RoleScript, Meets;
    ScriptsAreIdle(run, t, all, plan);
    NothingLeftToDrop(run, t, all, managed, plan.drops);
  }

  // What the run spares

  /** A statement that takes nothing from a role that is not dropped. */
  ghost predicate Spares(run: Session, q: Query) {
    match q.stmt
    case ReassignOwned(name, _) => name in run.Doomed()
    case AlterDatabaseOwner(d, _) => d in run.start.databases && run.start.databases[d] in run.Doomed()
    case _ => true
  }

  /** Whatever belonged to a role that is not dropped still does. */
  ghost predicate Kept(run: Session, before: map<string, string>, after: map<string, string>) {
    forall o :: o in before && before[o] !in run.Doomed() ==> o in after && after[o] == before[o]
  }

  ghost predicate OwnersKept(run: Session, t: Cluster) {
    && Kept(run, run.start.databases, t.databases)
    && forall d :: d in run.start.objects ==> d in t.objects && Kept(run, run.start.objects[d], t.objects[d])
  }

  lemma {:induction false} StepSpares(run: Session, s: Cluster, q: Query)
    requires Spares(run, q) && OwnersKept(run, s)
    ensures OwnersKept(run, Step(run.self, s, q))
  {
    var t := Step(run.self, s, q);
    if q.stmt.ReassignOwned? {
      forall d | d in run.start.objects
        ensures d in t.objects && Kept(run, run.start.objects[d], t.objects[d])
      {
      }
    }
  }

  lemma {:induction false} TraceSpares(run: Session, trace: seq<Cluster>, qs: seq<Query>, i: nat)
    requires |trace| == |qs| + 1 && trace[0] == run.start && i <= |qs|
    requires forall j: nat :: j < |qs| ==> StepAt(run.self, trace, qs, j) && Spares(run, qs[j])
    ensures OwnersKept(run, trace[i])
  {
    if i > 0 {
      TraceSpares(run, trace, qs, i - 1);
      assert StepAt(run.self, trace, qs, i - 1);
      StepSpares(run, trace[i - 1], qs[i - 1]);
    }
  }

  ghost predicate AllSpare(run: Session, qs: seq<Query>) {
    forall i: nat :: i < |qs| ==> Spares(run, qs[i])
  }

  lemma {:induction false} BothSpare(run: Session, a: seq<Query>, b: seq<Query>)
    requires AllSpare(run, a) && AllSpare(run, b)
    ensures AllSpare(run, a + b)
  {
  }

  lemma {:induction false} OfIsPart(qs: seq<Query>, database: string)
    ensures forall q :: q in Of(qs, database) ==> q in qs
  {
    if qs != [] { OfIsPart(qs[..|qs| - 1], database); }
  }

  lemma {:induction false} GroupedIsPart(order: seq<string>, k: nat, qs: seq<Query>)
    requires k <= |order|
    ensures forall q :: q in Grouped(order, k, qs) ==> q in qs
  {
    if k > 0 {
      GroupedIsPart(order, k - 1, qs);
      OfIsPart(qs, order[k - 1]);
    }
  }

  lemma {:induction false} ResolveSpares(run: Session, qs: seq<Query>)
    requires AllSpare(run, qs)
    ensures AllSpare(run, ResolveAll(qs, run.order, run.default))
  {
    if qs != [] {
      ResolveSpares(run, qs[..|qs| - 1]);
      assert Spares(run, qs[|qs| - 1]);
    }
  }

  /** Drop finds an owner to replace only where the inspected owner is the dropped role. */
  lemma {:induction false} DropFromSpares(run: Session, i: nat, visited: seq<string>, k: nat)
    requires IsSchedule(ScheduleOf(run)) && i < |run.plan.drops| && run.plan.drops[i] in run.Doomed()
    requires Visits(visited, run.start.databases.Keys) && k <= |visited|
    ensures AllSpare(run, DropFromFirst(run.plan.drops[i], run.fallback, Owners(ScheduleOf(run), i), visited, k))
  {
    hide OwnersAfter, IsSchedule, Doomed, DropFrom, Spares;
    if k > 0 {
      var name, owners := run.plan.drops[i], Owners(ScheduleOf(run), i);
      DropFromSpares(run, i, visited, k - 1);
      assert visited[k - 1] in visited;
      DropFromOneSpares(run, i, visited[k - 1]);
      BothSpare(
        run, DropFromFirst(name, run.fallback, owners, visited, k - 1), DropFrom(name, run.fallback, owners, visited[k - 1]));
    }
  }

  lemma {:induction false} DropFromOneSpares(run: Session, i: nat, d: string)
    requires IsSchedule(ScheduleOf(run)) && i < |run.plan.drops| && run.plan.drops[i] in run.Doomed()
    requires d in run.start.databases
    ensures AllSpare(run, DropFrom(run.plan.drops[i], run.fallback, Owners(ScheduleOf(run), i), d))
  {
    OwnerIsTarget(ScheduleOf(run), i, d);
    assert RankedAt(ScheduleOf(run), i);
  }

  ghost predicate HasDrops(run: Session) {
    IsDrops(run.all, run.managed, run.wanted, run.start.databases, run.plan.drops, run.plan.orders)
  }

  ghost predicate DropSpares(run: Session, i: nat)
    requires HasDrops(run) && i < |run.plan.drops|
  {
    AllSpare(run, DropScript(run.all[run.plan.drops[i]], run.fallback, Owners(ScheduleOf(run), i), run.plan.orders[i]))
  }

  lemma {:induction false} OneDropSpares(run: Session, i: nat)
    requires HasDrops(run) && i < |run.plan.drops| && WellKeyed(run.all) && IsSchedule(ScheduleOf(run))
    ensures DropSpares(run, i)
  {
    var r, owners, visited := run.all[run.plan.drops[i]], Owners(ScheduleOf(run), i), run.plan.orders[i];
    assert r.name in run.plan.drops;
    DropFromSpares(run, i, visited, |visited|);
    var middle := DropFromFirst(r.name, run.fallback, owners, visited, |visited|);
    var head := if r.options.canLogin then [Query("<first>", Terminate(r.name))] else [];
    BothSpare(run, head, middle);
    BothSpare(run, head + middle, [Query("", NoLogin(r.name)), Query("", DropRole(r.name))]);
  }

  lemma {:induction false} DropsSpare(run: Session, k: nat)
    requires HasDrops(run) && k <= |run.plan.drops| && forall i: nat :: i < k ==> DropSpares(run, i)
    ensures AllSpare(run, DropScripts(run.all, run.fallback, run.start.databases, run.plan.drops, run.plan.orders, k))
  {
    if k > 0 {
      DropsSpare(run, k - 1);
      assert DropSpares(run, k - 1);
      BothSpare(run, DropScripts(run.all, run.fallback, run.start.databases, run.plan.drops, run.plan.orders, k - 1),
        DropScript(run.all[run.plan.drops[k - 1]], run.fallback, Owners(ScheduleOf(run), k - 1), run.plan.orders[k - 1]));
    }
  }

  lemma {:induction false} AllDropsSpare(run: Session)
    requires HasDrops(run) && WellKeyed(run.all) && IsSchedule(ScheduleOf(run))
    ensures AllSpare(run, DropScripts(run.all, run.fallback, run.start.databases, run.plan.drops, run.plan.orders, |run.plan.drops|))
  {
    forall i: nat | i < |run.plan.drops| ensures DropSpares(run, i) { OneDropSpares(run, i); }
    DropsSpare(run, |run.plan.drops|);
  }

  lemma {:induction false} PlainSpares(run: Session, qs: seq<Query>)
    requires AllPlain(qs)
    ensures AllSpare(run, qs)
  {
    forall i: nat | i < |qs| ensures Spares(run, qs[i]) { assert Plain(qs[i]); }
  }

  lemma {:induction false} SentSpares(run: Session)
    requires IsRun(run)
    ensures AllSpare(run, run.Sent())
  {
    hide WantedIsPossible, Consistent, IsSyncOrder, Flat, DropScripts, IsSchedule;
    ScriptsArePlain(run);
    PlainSpares(run, Flat(run.plan.scripts, |run.plan.scripts|));
    IsScheduled(run);
    AllDropsSpare(run);
    BothSpare(run, Flat(run.plan.scripts, |run.plan.scripts|),
      DropScripts(run.all, run.fallback, run.start.databases, run.plan.drops, run.plan.orders, |run.plan.drops|));
  }

  /** No statement of a run takes a database or an object from a role that is not dropped. */
  lemma {:induction false} RunSpares(run: Session, t: Cluster)
    requires IsRun(run) && Runs(run.self, run.start, run.Executed(), t)
    ensures OwnersKept(run, t)
  {
    var qs := run.Executed();
    SentSpares(run);
    ResolveSpares(run, run.Sent());
    GroupedIsPart(run.order, |run.order|, Resolved(run));
    var trace :| IsTrace(run.self, trace, qs, run.start, t);
    forall j: nat | j < |qs|
      ensures StepAt(run.self, trace, qs, j) && Spares(run, qs[j])
    {
      assert qs[j] in qs;
    }
    TraceSpares(run, trace, qs, |qs|);
  }
}
