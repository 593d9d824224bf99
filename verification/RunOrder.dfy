/** What is executed in a run, and in which order. */
module RunOrder {
  import opened Roles
  import opened RoleGraph
  import opened Postgres
  import opened RoleDiff
  import opened Regroup
  import opened Collections
  import opened DropSafety
  import opened DropRun
  import opened RoleRun
  import opened Convergence

  // No statement is lost

  /** The statement is for the default database, the first one, or one that is managed. */
  ghost predicate IsAddressed(run: Session, q: Query) {
    q.database == "" || q.database == "<first>" || q.database in run.start.databases
  }

  ghost predicate AllAddressed(run: Session, qs: seq<Query>) {
    forall i: nat :: i < |qs| ==> IsAddressed(run, qs[i])
  }

  lemma {:induction false} BothAddressed(run: Session, a: seq<Query>, b: seq<Query>)
    requires AllAddressed(run, a) && AllAddressed(run, b)
    ensures AllAddressed(run, a + b)
  {
  }

  lemma {:induction false} DropFromAddressed(run: Session, name: string, owners: map<string, string>, visited: seq<string>, k: nat)
    requires owners.Keys == run.start.databases.Keys && Visits(visited, owners.Keys) && k <= |visited|
    ensures AllAddressed(run, DropFromFirst(name, run.fallback, owners, visited, k))
  {
    if k > 0 {
      DropFromAddressed(run, name, owners, visited, k - 1);
      assert visited[k - 1] in visited;
      BothAddressed(
        run, DropFromFirst(name, run.fallback, owners, visited, k - 1), DropFrom(name, run.fallback, owners, visited[k - 1]));
    }
  }

  lemma {:induction false} DropAddressed(run: Session, r: Role, owners: map<string, string>, visited: seq<string>)
    requires owners.Keys == run.start.databases.Keys && Visits(visited, owners.Keys)
    ensures AllAddressed(run, DropScript(r, run.fallback, owners, visited))
  {
    DropFromAddressed(run, r.name, owners, visited, |visited|);
    var middle := DropFromFirst(r.name, run.fallback, owners, visited, |visited|);
    var head := if r.options.canLogin then [Query("<first>", Terminate(r.name))] else [];
    BothAddressed(run, head, middle);
    BothAddressed(run, head + middle, [Query("", NoLogin(r.name)), Query("", DropRole(r.name))]);
  }

  lemma {:induction false} DropsAddressed(run: Session, k: nat)
    requires HasDrops(run) && k <= |run.plan.drops|
    ensures AllAddressed(run, DropScripts(run.all, run.fallback, run.start.databases, run.plan.drops, run.plan.orders, k))
  {
    if k > 0 {
      var owners := OwnersAfter(run.start.databases, run.fallback, run.plan.drops, k - 1);
      DropsAddressed(run, k - 1);
      DropAddressed(run, run.all[run.plan.drops[k - 1]], owners, run.plan.orders[k - 1]);
      BothAddressed(run, DropScripts(run.all, run.fallback, run.start.databases, run.plan.drops, run.plan.orders, k - 1),
        DropScript(run.all[run.plan.drops[k - 1]], run.fallback, owners, run.plan.orders[k - 1]));
    }
  }

  lemma {:induction false} PlainAddressed(run: Session, qs: seq<Query>)
    requires AllPlain(qs)
    ensures AllAddressed(run, qs)
  {
    forall i: nat | i < |qs| ensures IsAddressed(run, qs[i]) { assert Plain(qs[i]); }
  }

  lemma {:induction false} ResolvedNames(run: Session, qs: seq<Query>)
    requires AllAddressed(run, qs) && run.default in run.start.databases && Elements(run.order) == run.start.databases.Keys
    ensures forall q :: q in ResolveAll(qs, run.order, run.default) ==> q.database in run.order
  {
    if qs != [] {
      var front, last := qs[..|qs| - 1], qs[|qs| - 1];
      ResolvedNames(run, front);
      assert IsAddressed(run, last);
      assert run.default in Elements(run.order);
      assert last.database in run.start.databases ==> last.database in Elements(run.order);
    }
  }

  /** A run executes exactly the statements it sends, each as often as it is sent. */
  lemma {:induction false} NothingIsLost(run: Session)
    requires IsRun(run)
    ensures multiset(run.Executed()) == multiset(Resolved(run))
  {
    ScriptsArePlain(run);
    PlainAddressed(run, Flat(run.plan.scripts, |run.plan.scripts|));
    DropsAddressed(run, |run.plan.drops|);
    BothAddressed(run, Flat(run.plan.scripts, |run.plan.scripts|),
      DropScripts(run.all, run.fallback, run.start.databases, run.plan.drops, run.plan.orders, |run.plan.drops|));
    ResolvedNames(run, run.Sent());
    NothingLost(run.order, Resolved(run));
  }

  // Every managed database has the objects of a dropped role reassigned

  ghost predicate IsReassign(q: Query, database: string, name: string) {
    q.database == database && q.stmt.ReassignOwned? && q.stmt.name == name
  }

  lemma {:induction false} ReassignIsSent(name: string, fallback: string, owners: map<string, string>, visited: seq<string>, k: nat, j: nat)
    returns (q: Query)
    requires Visits(visited, owners.Keys) && j < k <= |visited|
    ensures q in DropFromFirst(name, fallback, owners, visited, k) && IsReassign(q, visited[j], name)
  {
    if j == k - 1 {
      assert visited[j] in visited;
      var piece := DropFrom(name, fallback, owners, visited[j]);
      q := piece[|piece| - 1];
    } else {
      q := ReassignIsSent(name, fallback, owners, visited, k - 1, j);
    }
  }

  /** What the i-th drop sends. */
  ghost function DropOf(run: Session, i: nat): seq<Query>
    requires HasDrops(run) && i < |run.plan.drops|
  {
    DropScript(
      run.all[run.plan.drops[i]], run.fallback, OwnersAfter(run.start.databases, run.fallback, run.plan.drops, i), run.plan.orders[i])
  }

  lemma {:induction false} ScriptIsSent(run: Session, k: nat, i: nat, q: Query)
    requires HasDrops(run) && i < k <= |run.plan.drops|
    requires q in DropOf(run, i)
    ensures q in DropScripts(run.all, run.fallback, run.start.databases, run.plan.drops, run.plan.orders, k)
  {
    hide DropScript, OwnersAfter, HasDrops;
    if i < k - 1 { ScriptIsSent(run, k - 1, i, q); }
  }

  lemma {:induction false} ResolvedHolds(qs: seq<Query>, order: seq<string>, default: string, q: Query)
    requires q in qs
    ensures Resolve(q, order, default) in ResolveAll(qs, order, default)
  {
    if q != qs[|qs| - 1] {
      assert qs == qs[..|qs| - 1] + [qs[|qs| - 1]];
      ResolvedHolds(qs[..|qs| - 1], order, default, q);
    }
  }

  lemma {:induction false} IsExecuted(run: Session, i: nat, q: Query)
    requires IsRun(run) && i < |run.plan.drops|
    requires q in DropOf(run, i)
    ensures Resolve(q, run.order, run.default) in run.Executed()
  {
    ScriptIsSent(run, |run.plan.drops|, i, q);
    ResolvedHolds(run.Sent(), run.order, run.default, q);
    NothingIsLost(run);
    assert Resolve(q, run.order, run.default) in multiset(Resolved(run));
  }

  /** For every dropped role, its DROP ROLE is executed, and in every managed database its
      objects are reassigned. */
  lemma {:induction false} ReassignedEverywhere(run: Session, n: string, database: string) returns (q: Query)
    requires IsRun(run) && n in run.Doomed() && database in run.start.databases
    ensures q in run.Executed() && IsReassign(q, database, n)
    ensures Query(run.default, DropRole(n)) in run.Executed()
  {
    hide IsRun, Grouped, ResolveAll, DropOf;
    RunHasDrops(run, database);
    assert n in run.plan.drops;
    var i: nat :| i < |run.plan.drops| && run.plan.drops[i] == n;
    q := ReassignIsDue(run, i, database);
    IsExecuted(run, i, q);
    IsExecuted(run, i, Query("", DropRole(n)));
  }

  lemma {:induction false} RunHasDrops(run: Session, database: string)
    requires IsRun(run) && database in run.start.databases
    ensures HasDrops(run) && WellKeyed(run.all) && database != "" && database != "<first>"
  {
  }

  lemma {:induction false} ReassignIsDue(run: Session, i: nat, database: string) returns (q: Query)
    requires HasDrops(run) && WellKeyed(run.all) && i < |run.plan.drops| && database in run.start.databases
    ensures q in DropOf(run, i) && IsReassign(q, database, run.plan.drops[i])
    ensures Query("", DropRole(run.plan.drops[i])) in DropOf(run, i)
  {
    var owners, visited := OwnersAfter(run.start.databases, run.fallback, run.plan.drops, i), run.plan.orders[i];
    assert Visits(visited, run.start.databases.Keys) && database in visited;
    var j: nat :| j < |visited| && visited[j] == database;
    q := ReassignIsSent(run.plan.drops[i], run.fallback, owners, visited, |visited|, j);
    assert run.all[run.plan.drops[i]].name == run.plan.drops[i];
  }

  // And before the role is dropped

  /** Every reassignment of a role stands before every DROP ROLE of it. */
  ghost predicate Precede(qs: seq<Query>) {
    forall a: nat, b: nat :: a < |qs| && b < |qs| && qs[a].stmt.ReassignOwned? && qs[b].stmt == DropRole(qs[a].stmt.name) ==> a < b
  }

  ghost predicate DropsOnly(qs: seq<Query>, names: seq<string>) {
    forall q :: q in qs && q.stmt.DropRole? ==> q.stmt.name in names
  }

  ghost predicate ReassignsNone(qs: seq<Query>, names: seq<string>) {
    forall q :: q in qs && q.stmt.ReassignOwned? ==> q.stmt.name !in names
  }

  lemma {:induction false} PrecedeConcat(x: seq<Query>, y: seq<Query>, names: seq<string>)
    requires Precede(x) && Precede(y) && DropsOnly(x, names) && ReassignsNone(y, names)
    ensures Precede(x + y)
  {
    var qs := x + y;
    forall a: nat, b: nat | a < |qs| && b < |qs| && qs[a].stmt.ReassignOwned? && qs[b].stmt == DropRole(qs[a].stmt.name)
      ensures a < b
    {
      assert b < |x| ==> qs[b] in x;
      assert a >= |x| ==> qs[a] in y;
      if a >= |x| && b >= |x| {
        assert y[a - |x|].stmt.ReassignOwned? && y[b - |x|].stmt == DropRole(y[a - |x|].stmt.name);
      }
    }
  }

  /** The pieces of a turn reassign that role alone, and drop none. */
  lemma {:induction false} PiecesReassign(sc: Schedule, i: nat, visited: seq<string>, k: nat, to: string)
    requires i < |sc.drops| && k <= |visited| && forall j :: 0 <= j < |visited| ==> visited[j] in sc.owners
    ensures forall q :: q in Pieces(sc, i, visited, k, to) ==>
      !q.stmt.DropRole? && (q.stmt.ReassignOwned? ==> q.stmt.name == sc.drops[i])
  {
    if k > 0 { PiecesReassign(sc, i, visited, k - 1, to); }
  }

  ghost predicate IsTurnOf(turn: seq<Query>, name: string) {
    && (forall q :: q in turn && q.stmt.DropRole? ==> q.stmt.name == name)
    && (forall q :: q in turn && q.stmt.ReassignOwned? ==> q.stmt.name == name)
    && Precede(turn)
  }

  lemma {:induction false} DefaultTurnIsOf(sc: Schedule, i: nat, dt: DefaultTurn, turn: seq<Query>)
    requires i < |sc.drops| && IsDefaultTurn(sc, i, dt, turn)
    ensures IsTurnOf(turn, sc.drops[i])
  {
    hide Pieces, IsTarget, Precede;
    var before := dt.head + Pieces(sc, i, dt.visited, |dt.visited|, dt.to);
    PiecesReassign(sc, i, dt.visited, |dt.visited|, dt.to);
    forall q | q in dt.head ensures !q.stmt.DropRole? && !q.stmt.ReassignOwned? { }
    assert forall q :: q in before ==> !q.stmt.DropRole? && (q.stmt.ReassignOwned? ==> q.stmt.name == sc.drops[i]);
    PrecedeConcat(before, Ending(sc, i), []);
  }

  lemma {:induction false} TurnsPrecede(sc: Schedule, turns: seq<seq<Query>>, k: nat)
    requires k <= |turns| == |sc.drops| && Distinct(sc.drops)
    requires forall i: nat :: i < |turns| ==> IsTurnOf(turns[i], sc.drops[i])
    ensures Precede(Flat(turns, k)) && DropsOnly(Flat(turns, k), sc.drops[..k])
  {
    if k > 0 {
      TurnsPrecede(sc, turns, k - 1);
      assert IsTurnOf(turns[k - 1], sc.drops[k - 1]);
      assert sc.drops[k - 1] !in sc.drops[..k - 1];
      PrecedeConcat(Flat(turns, k - 1), turns[k - 1], sc.drops[..k - 1]);
      assert sc.drops[..k] == sc.drops[..k - 1] + [sc.drops[k - 1]];
    }
  }

  /** Statements that drop no role. */
  ghost predicate DropsNone(qs: seq<Query>) {
    forall q :: q in qs ==> !q.stmt.DropRole?
  }

  lemma {:induction false} OtherGroupDropsNone(sc: Schedule, database: string, group: seq<Query>)
    requires IsOtherGroup(sc, database, group)
    ensures DropsNone(group)
  {
    hide Flat, IsTarget;
    var turns :| AreOtherTurns(sc, database, turns) && group == Flat(turns, |turns|);
    forall i: nat | i < |turns| ensures DropsNone(turns[i]) {
      assert IsOtherTurn(sc, database, i, turns[i]);
      assert turns[i] == turns[i][..|turns[i]| - 1] + [turns[i][|turns[i]| - 1]];
    }
    FlatDropsNone(turns, |turns|);
  }

  lemma {:induction false} FlatDropsNone(turns: seq<seq<Query>>, k: nat)
    requires k <= |turns| && forall i: nat :: i < k ==> DropsNone(turns[i])
    ensures DropsNone(Flat(turns, k))
  {
    if k > 0 { FlatDropsNone(turns, k - 1); }
  }

  lemma {:induction false} OthersDropNone(run: Session)
    requires IsRun(run) && run.order != [] && run.order[|run.order| - 1] == run.default
    ensures DropsNone(Grouped(run.order, |run.order| - 1, Resolved(run)))
  {
    var groups := OtherGroupsOf(run);
    forall k: nat | k < |groups| ensures DropsNone(groups[k]) {
      assert run.order[k] in Elements(run.order);
      OtherShare(run, run.order[k]);
      OtherGroupDropsNone(ScheduleOf(run), run.order[k], groups[k]);
    }
    GroupsAreFlat(run.order, Resolved(run), groups, |groups|);
    FlatDropsNone(groups, |groups|);
  }

  lemma {:induction false} HeadIsNeither(scripts: seq<Query>, head: seq<Query>)
    requires SameStmts(scripts, head)
    ensures forall q :: q in head ==> !q.stmt.DropRole? && !q.stmt.ReassignOwned?
  {
    forall q | q in head ensures !q.stmt.DropRole? && !q.stmt.ReassignOwned? {
      var i: nat :| i < |head| && head[i] == q;
      assert SameStmt(scripts[i], head[i]);
    }
  }

  /** In what a run executes, every reassignment of a dropped role comes before its DROP ROLE. */
  lemma {:induction false} ReassignsComeFirst(run: Session)
    requires IsRun(run)
    ensures Precede(run.Executed())
  {
    hide Flat, Consistent, WantedIsPossible, RoleScript;
    DefaultIsLast(run.order, run.start.databases.Keys, run.default);
    var others := Grouped(run.order, |run.order| - 1, Resolved(run));
    var head, dts, turns := DefaultShare(run);
    var sc := ScheduleOf(run);
    OthersDropNone(run);
    HeadIsNeither(Flat(run.plan.scripts, |run.plan.scripts|), head);
    forall i: nat | i < |turns| ensures IsTurnOf(turns[i], sc.drops[i]) {
      assert DefaultTurnAt(sc, dts, turns, i);
      DefaultTurnIsOf(sc, i, dts[i], turns[i]);
    }
    TurnsPrecede(sc, turns, |turns|);
    PrecedeConcat(head, Flat(turns, |turns|), []);
    PrecedeConcat(others, head + Flat(turns, |turns|), []);
  }
}
