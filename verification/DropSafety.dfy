/** Why a dropped role owns nothing when its DROP ROLE runs: ownership only ever
    passes to roles that are dropped later, or not at all. */
module DropSafety {
  import opened Roles
  import opened Postgres
  import opened Collections

  /** The roles to drop, first to last, with the position of each; the owners of the
      databases as inspected; the owner of last resort; the default database. */
  datatype Schedule = Schedule(
    drops: seq<string>,
    ranks: map<string, nat>,
    owners: map<string, string>,
    fallback: string,
    default: string)
  {
    /** When name's turn to be dropped comes, or |drops| if it is not dropped. */
    function Rank(name: string): nat {
      if name in ranks then ranks[name] else |drops|
    }
  }

  ghost predicate IsSchedule(sc: Schedule) {
    && (forall i: nat :: i < |sc.drops| ==> RankedAt(sc, i))
    && (forall name :: name in sc.ranks ==> IsRanked(sc, name))
    && sc.fallback !in sc.ranks
  }

  ghost predicate RankedAt(sc: Schedule, i: nat)
    requires i < |sc.drops|
  {
    sc.drops[i] in sc.ranks && sc.ranks[sc.drops[i]] == i
  }

  ghost predicate IsRanked(sc: Schedule, name: string)
    requires name in sc.ranks
  {
    sc.ranks[name] < |sc.drops| && sc.drops[sc.ranks[name]] == name
  }

  // Owners

  ghost predicate OwnersFrom(sc: Schedule, owners: map<string, string>, i: nat) {
    forall o :: o in owners ==> sc.Rank(owners[o]) >= i
  }

  /** None of the first i dropped roles owns an object of database. */
  ghost predicate CleanTo(sc: Schedule, s: Cluster, database: string, i: nat) {
    database in s.objects ==> OwnersFrom(sc, s.objects[database], i)
  }

  /** A database's owner while the i-th role is being dropped and the databases in done are
      treated: the fallback owner once the inspected owner is dropped, and never a role
      dropped earlier than the inspected owner. */
  ghost predicate OwnerStands(sc: Schedule, i: nat, done: set<string>, d: string, owner: string)
    requires d in sc.owners
  {
    var inspected := sc.Rank(sc.owners[d]);
    && sc.Rank(owner) >= inspected
    && (inspected < i || (inspected == i && d in done) ==> owner == sc.fallback)
  }

  ghost predicate StandsIn(sc: Schedule, databases: map<string, string>, i: nat, done: set<string>, d: string)
    requires d in sc.owners
  {
    d in databases && OwnerStands(sc, i, done, d, databases[d])
  }

  ghost predicate Standing(sc: Schedule, databases: map<string, string>, i: nat, done: set<string>) {
    databases.Keys == sc.owners.Keys && forall d :: d in sc.owners ==> StandsIn(sc, databases, i, done, d)
  }

  function Renamed(owner: string, from: string, to: string): string {
    if owner == from then to else owner
  }

  ghost predicate Moved(before: map<string, string>, after: map<string, string>, from: string, to: string) {
    after.Keys == before.Keys && forall o :: o in before ==> after[o] == Renamed(before[o], from, to)
  }

  /** t differs from s at most in the owners of databases and of database's objects. */
  ghost predicate OnlyOwners(s: Cluster, t: Cluster, database: string) {
    && t.roles == s.roles
    && t.objects.Keys == s.objects.Keys
    && forall d :: d in s.objects && d != database ==> t.objects[d] == s.objects[d]
  }

  /** t is s after REASSIGN OWNED BY from TO to in database. */
  ghost predicate Reassigned(s: Cluster, t: Cluster, database: string, from: string, to: string) {
    && OnlyOwners(s, t, database)
    && Moved(s.databases, t.databases, from, to)
    && (database in s.objects ==> Moved(s.objects[database], t.objects[database], from, to))
  }

  lemma {:induction false} StepReassigns(self: string, s: Cluster, database: string, from: string, to: string)
    ensures Reassigned(s, Step(self, s, Query(database, ReassignOwned(from, to))), database, from, to)
  {
  }

  /** Passing from the i-th dropped role to a role dropped later, or not at all. */
  lemma {:induction false} RankRises(sc: Schedule, i: nat, to: string, owner: string)
    requires IsSchedule(sc) && i < |sc.drops| && sc.Rank(to) > i
    ensures var now := sc.Rank(Renamed(owner, sc.drops[i], to));
            now >= sc.Rank(owner) && (sc.Rank(owner) >= i ==> now >= i + 1)
  {
    assert RankedAt(sc, i);
    if owner in sc.ranks { assert IsRanked(sc, owner); }
  }

  lemma {:induction false} OwnersRise(sc: Schedule, before: map<string, string>, after: map<string, string>, i: nat, to: string)
    requires IsSchedule(sc) && i < |sc.drops| && sc.Rank(to) > i
    requires Moved(before, after, sc.drops[i], to) && OwnersFrom(sc, before, i)
    ensures OwnersFrom(sc, after, i + 1)
  {
    forall o | o in after
      ensures sc.Rank(after[o]) >= i + 1
    {
      RankRises(sc, i, to, before[o]);
    }
  }

  /** REASSIGN OWNED BY the j-th dropped role, as it concerns databases, while the i-th is dropped. */
  lemma {:induction false} ReassignStands(sc: Schedule, before: map<string, string>, after: map<string, string>, i: nat, done: set<string>, j: nat, to: string)
    requires IsSchedule(sc) && i <= j < |sc.drops| && sc.Rank(to) > j
    requires Standing(sc, before, i, done) && Moved(before, after, sc.drops[j], to)
    ensures Standing(sc, after, i, done)
  {
    forall d | d in sc.owners
      ensures StandsIn(sc, after, i, done, d)
    {
      assert StandsIn(sc, before, i, done, d) && RankedAt(sc, j);
      RankRises(sc, j, to, before[d]);
    }
  }

  /** ALTER DATABASE d OWNER TO fallback, sent when the inspected owner is being dropped. */
  lemma {:induction false} AlterStands(sc: Schedule, before: map<string, string>, i: nat, done: set<string>, d: string)
    requires IsSchedule(sc) && d in sc.owners && Standing(sc, before, i, done)
    ensures var after := if sc.Rank(sc.owners[d]) == i then before[d := sc.fallback] else before;
            Standing(sc, after, i, done + {d})
  {
    var after := if sc.Rank(sc.owners[d]) == i then before[d := sc.fallback] else before;
    forall e | e in sc.owners
      ensures StandsIn(sc, after, i, done + {d}, e)
    {
      assert StandsIn(sc, before, i, done, e);
    }
  }

  // A database other than the default one

  ghost predicate IsTerminate(qs: seq<Query>) {
    qs == [] || (|qs| == 1 && qs[0].stmt.Terminate?)
  }

  lemma {:induction false} TerminateRuns(self: string, s: Cluster, qs: seq<Query>)
    requires IsTerminate(qs)
    ensures Runs(self, s, qs, s)
  {
    if qs == [] {
      RunsNone(self, s);
    } else {
      RunsOne(self, s, qs[0]);
      assert qs == [qs[0]];
    }
  }

  /** What database receives for the i-th drop: sessions may be ended, objects go to a
      role that is dropped later, or not at all. */
  ghost predicate IsOtherTurn(sc: Schedule, database: string, i: nat, turn: seq<Query>)
    requires i < |sc.drops|
  {
    && turn != []
    && IsTerminate(turn[..|turn| - 1])
    && turn[|turn| - 1].database == database
    && turn[|turn| - 1].stmt.ReassignOwned?
    && turn[|turn| - 1].stmt.name == sc.drops[i]
    && IsTarget(sc, i, turn[|turn| - 1].stmt.owner)
  }

  ghost predicate IsTarget(sc: Schedule, i: nat, to: string) {
    sc.Rank(to) > i && (to == sc.fallback || exists d :: d in sc.owners && sc.owners[d] == to)
  }

  ghost predicate AreOtherTurns(sc: Schedule, database: string, turns: seq<seq<Query>>) {
    |turns| == |sc.drops| && forall i: nat :: i < |turns| ==> IsOtherTurn(sc, database, i, turns[i])
  }

  /** Everyone the statements speak of exists, once the first i roles are dropped. */
  ghost predicate Present(sc: Schedule, s: Cluster, i: nat) {
    && (forall j :: i <= j < |sc.drops| ==> sc.drops[j] in s.roles)
    && (forall d :: d in sc.owners && sc.Rank(sc.owners[d]) >= i ==> sc.owners[d] in s.roles)
    && sc.fallback in s.roles
  }

  lemma {:induction false} OtherTurn(self: string, sc: Schedule, s: Cluster, database: string, i: nat, turn: seq<Query>) returns (t: Cluster)
    requires IsSchedule(sc) && i < |sc.drops| && IsOtherTurn(sc, database, i, turn)
    requires Present(sc, s, 0) && Standing(sc, s.databases, 0, {}) && CleanTo(sc, s, database, i)
    ensures Runs(self, s, turn, t)
    ensures OnlyOwners(s, t, database) && Standing(sc, t.databases, 0, {}) && CleanTo(sc, t, database, i + 1)
  {
    var head, q := turn[..|turn| - 1], turn[|turn| - 1];
    TerminateRuns(self, s, head);
    RunsSnoc(self, s, head, s, q);
    assert head + [q] == turn;
    t := Step(self, s, q);
    StepReassigns(self, s, database, sc.drops[i], q.stmt.owner);
    ReassignStands(sc, s.databases, t.databases, 0, {}, i, q.stmt.owner);
    if database in s.objects {
      OwnersRise(sc, s.objects[database], t.objects[database], i, q.stmt.owner);
    }
  }

  /** A database other than the default one, once its turns for the first i drops have run. */
  lemma {:induction false} OtherTurns(self: string, sc: Schedule, s: Cluster, database: string, turns: seq<seq<Query>>, i: nat) returns (t: Cluster)
    requires IsSchedule(sc) && AreOtherTurns(sc, database, turns) && i <= |turns|
    requires Present(sc, s, 0) && Standing(sc, s.databases, 0, {})
    ensures Runs(self, s, Flat(turns, i), t)
    ensures OnlyOwners(s, t, database) && Standing(sc, t.databases, 0, {}) && CleanTo(sc, t, database, i)
  {
    if i == 0 {
      RunsNone(self, s);
      t := s;
    } else {
      var u := OtherTurns(self, sc, s, database, turns, i - 1);
      t := OtherTurn(self, sc, u, database, i - 1, turns[i - 1]);
      RunsConcat(self, s, Flat(turns, i - 1), u, turns[i - 1], t);
    }
  }

  /** What database receives: its turns, one after the other. */
  ghost predicate IsOtherGroup(sc: Schedule, database: string, group: seq<Query>) {
    exists turns :: AreOtherTurns(sc, database, turns) && group == Flat(turns, |turns|)
  }

  /** The cluster once the first k of some databases have received their groups. */
  ghost predicate GroupsDone(self: string, sc: Schedule, s: Cluster, order: seq<string>, groups: seq<seq<Query>>, k: nat, t: Cluster)
    requires k <= |groups| <= |order|
  {
    && Runs(self, s, Flat(groups, k), t)
    && GroupsClean(sc, s, order, k, t) && Standing(sc, t.databases, 0, {})
  }

  lemma {:induction false} OneMoreGroup(self: string, sc: Schedule, s: Cluster, order: seq<string>, groups: seq<seq<Query>>, k: nat, u: Cluster) returns (t: Cluster)
    requires IsSchedule(sc) && Present(sc, s, 0) && Distinct(order)
    requires k < |groups| <= |order| && IsOtherGroup(sc, order[k], groups[k]) && GroupsDone(self, sc, s, order, groups, k, u)
    ensures GroupsDone(self, sc, s, order, groups, k + 1, t)
  {
    var turns :| AreOtherTurns(sc, order[k], turns) && groups[k] == Flat(turns, |turns|);
    t := OtherTurns(self, sc, u, order[k], turns, |turns|);
    RunsConcat(self, s, Flat(groups, k), u, groups[k], t);
    CleanGroups(sc, s, order, k, u, t);
  }

  /** Objects: the first k databases are clean, the others as in s. */
  ghost predicate GroupsClean(sc: Schedule, s: Cluster, order: seq<string>, k: nat, t: Cluster)
    requires k <= |order|
  {
    && t.roles == s.roles && t.objects.Keys == s.objects.Keys
    && (forall j :: 0 <= j < k ==> CleanTo(sc, t, order[j], |sc.drops|))
    && (forall d :: d in s.objects && d !in order[..k] ==> t.objects[d] == s.objects[d])
  }

  lemma {:induction false} CleanGroups(sc: Schedule, s: Cluster, order: seq<string>, k: nat, u: Cluster, t: Cluster)
    requires k < |order| && Distinct(order) && GroupsClean(sc, s, order, k, u)
    requires OnlyOwners(u, t, order[k]) && CleanTo(sc, t, order[k], |sc.drops|)
    ensures GroupsClean(sc, s, order, k + 1, t)
  {
    forall j | 0 <= j < k + 1
      ensures CleanTo(sc, t, order[j], |sc.drops|)
    {
      if j < k && order[j] in t.objects { assert t.objects[order[j]] == u.objects[order[j]]; }
    }
    assert order[..k + 1] == order[..k] + [order[k]];
  }

  /** All databases but the default one, whatever their order: every statement is accepted,
      no role changes, and no dropped role is left owning an object there. */
  lemma {:induction false} OtherGroups(self: string, sc: Schedule, s: Cluster, order: seq<string>, groups: seq<seq<Query>>) returns (t: Cluster)
    requires IsSchedule(sc) && Present(sc, s, 0) && Standing(sc, s.databases, 0, {}) && Distinct(order)
    requires |groups| <= |order| && forall k: nat :: k < |groups| ==> IsOtherGroup(sc, order[k], groups[k])
    ensures GroupsDone(self, sc, s, order, groups, |groups|, t)
  {
    RunsNone(self, s);
    t := s;
    for k := 0 to |groups|
      invariant GroupsDone(self, sc, s, order, groups, k, t)
    {
      t := OneMoreGroup(self, sc, s, order, groups, k, t);
    }
  }

  // The default database, where roles are dropped

  /** What the default database receives for d during the i-th drop; its own objects go to to. */
  function Piece(sc: Schedule, i: nat, d: string, to: string): seq<Query>
    requires i < |sc.drops| && d in sc.owners
  {
    (if sc.Rank(sc.owners[d]) == i then [Query(sc.default, AlterDatabaseOwner(d, sc.fallback))] else [])
    + (if d == sc.default then [Query(d, ReassignOwned(sc.drops[i], to))] else [])
  }

  function Pieces(sc: Schedule, i: nat, visited: seq<string>, k: nat, to: string): seq<Query>
    requires i < |sc.drops| && k <= |visited| && forall j :: 0 <= j < |visited| ==> visited[j] in sc.owners
  {
    if k == 0 then [] else Pieces(sc, i, visited, k - 1, to) + Piece(sc, i, visited[k - 1], to)
  }

  function Ending(sc: Schedule, i: nat): seq<Query>
    requires i < |sc.drops|
  {
    [Query(sc.default, NoLogin(sc.drops[i])), Query(sc.default, DropRole(sc.drops[i]))]
  }

  /** The i-th drop as the default database sees it: the databases are visited in some order. */
  datatype DefaultTurn = DefaultTurn(head: seq<Query>, visited: seq<string>, to: string)

  ghost predicate IsDefaultTurn(sc: Schedule, i: nat, dt: DefaultTurn, turn: seq<Query>)
    requires i < |sc.drops|
  {
    && IsTerminate(dt.head)
    && IsTarget(sc, i, dt.to)
    && Distinct(dt.visited) && (forall d :: d in dt.visited <==> d in sc.owners)
    && (forall j :: 0 <= j < |dt.visited| ==> dt.visited[j] in sc.owners)
    && turn == dt.head + Pieces(sc, i, dt.visited, |dt.visited|, dt.to) + Ending(sc, i)
  }

  ghost predicate OthersClean(sc: Schedule, s: Cluster) {
    forall d :: d in s.objects && d != sc.default ==> OwnersFrom(sc, s.objects[d], |sc.drops|)
  }

  /** The cluster while the i-th role is dropped, the databases in done treated. */
  ghost predicate Midway(sc: Schedule, s: Cluster, i: nat, done: set<string>) {
    && Standing(sc, s.databases, i, done)
    && CleanTo(sc, s, sc.default, if sc.default in done then i + 1 else i)
    && OthersClean(sc, s)
    && s.objects.Keys <= sc.owners.Keys
  }

  lemma {:induction false} AlterRuns(self: string, sc: Schedule, s: Cluster, i: nat, done: set<string>, d: string) returns (u: Cluster)
    requires IsSchedule(sc) && sc.fallback in s.roles && d in sc.owners
    requires Standing(sc, s.databases, i, done)
    ensures Runs(self, s, if sc.Rank(sc.owners[d]) == i then [Query(sc.default, AlterDatabaseOwner(d, sc.fallback))] else [], u)
    ensures u.roles == s.roles && u.objects == s.objects && Standing(sc, u.databases, i, done + {d})
  {
    AlterStands(sc, s.databases, i, done, d);
    u := s;
    if sc.Rank(sc.owners[d]) == i {
      var alter := Query(sc.default, AlterDatabaseOwner(d, sc.fallback));
      RunsOne(self, s, alter);
      u := Step(self, s, alter);
    } else {
      RunsNone(self, s);
    }
  }

  lemma {:induction false} DefaultReassignRuns(self: string, sc: Schedule, s: Cluster, i: nat, done: set<string>, to: string) returns (t: Cluster)
    requires IsSchedule(sc) && i < |sc.drops| && sc.Rank(to) > i && to in s.roles && sc.drops[i] in s.roles
    requires sc.default in done && Standing(sc, s.databases, i, done) && CleanTo(sc, s, sc.default, i) && OthersClean(sc, s)
    requires s.objects.Keys <= sc.owners.Keys
    ensures Runs(self, s, [Query(sc.default, ReassignOwned(sc.drops[i], to))], t)
    ensures t.roles == s.roles && Midway(sc, t, i, done)
  {
    var q := Query(sc.default, ReassignOwned(sc.drops[i], to));
    RunsOne(self, s, q);
    t := Step(self, s, q);
    StepReassigns(self, s, sc.default, sc.drops[i], to);
    ReassignStands(sc, s.databases, t.databases, i, done, i, to);
    if sc.default in s.objects {
      OwnersRise(sc, s.objects[sc.default], t.objects[sc.default], i, to);
    }
  }

  /** One more database visited. */
  lemma {:induction false} PieceRuns(self: string, sc: Schedule, s: Cluster, i: nat, done: set<string>, d: string, to: string) returns (t: Cluster)
    requires IsSchedule(sc) && i < |sc.drops| && d in sc.owners && d !in done
    requires sc.Rank(to) > i && to in s.roles && sc.drops[i] in s.roles && sc.fallback in s.roles
    requires Midway(sc, s, i, done)
    ensures Runs(self, s, Piece(sc, i, d, to), t)
    ensures t.roles == s.roles && Midway(sc, t, i, done + {d})
  {
    var head := if sc.Rank(sc.owners[d]) == i then [Query(sc.default, AlterDatabaseOwner(d, sc.fallback))] else [];
    var u := AlterRuns(self, sc, s, i, done, d);
    if d == sc.default {
      t := DefaultReassignRuns(self, sc, u, i, done + {d}, to);
      RunsConcat(self, s, head, u, [Query(d, ReassignOwned(sc.drops[i], to))], t);
    } else {
      assert head + [] == head;
      t := u;
    }
  }

  lemma {:induction false} PiecesRun(self: string, sc: Schedule, s: Cluster, i: nat, visited: seq<string>, k: nat, to: string) returns (t: Cluster)
    requires IsSchedule(sc) && i < |sc.drops| && Distinct(visited) && k <= |visited|
    requires forall j :: 0 <= j < |visited| ==> visited[j] in sc.owners
    requires sc.Rank(to) > i && to in s.roles && sc.drops[i] in s.roles && sc.fallback in s.roles
    requires Midway(sc, s, i, {})
    ensures Runs(self, s, Pieces(sc, i, visited, k, to), t)
    ensures t.roles == s.roles && Midway(sc, t, i, Elements(visited[..k]))
  {
    if k == 0 {
      RunsNone(self, s);
      t := s;
      assert Elements(visited[..0]) == {};
    } else {
      var u := PiecesRun(self, sc, s, i, visited, k - 1, to);
      t := PieceRuns(self, sc, u, i, Elements(visited[..k - 1]), visited[k - 1], to);
      RunsConcat(self, s, Pieces(sc, i, visited, k - 1, to), u, Piece(sc, i, visited[k - 1], to), t);
      assert Elements(visited[..k]) == Elements(visited[..k - 1]) + {visited[k - 1]};
    }
  }

  /** With every database visited, the i-th dropped role owns no database and no object. */
  lemma {:induction false} OwnsNothing(sc: Schedule, s: Cluster, i: nat)
    requires IsSchedule(sc) && i < |sc.drops| && Midway(sc, s, i, sc.owners.Keys) && sc.default in sc.owners
    ensures !Owns(s, sc.drops[i])
    ensures Midway(sc, s, i + 1, {})
  {
    var name := sc.drops[i];
    assert RankedAt(sc, i);
    forall d | d in sc.owners
      ensures d in s.databases && s.databases[d] != name && StandsIn(sc, s.databases, i + 1, {}, d)
    {
      assert StandsIn(sc, s.databases, i, sc.owners.Keys, d);
    }
    forall d, o | d in s.objects && o in s.objects[d]
      ensures s.objects[d][o] != name
    {
      assert OwnersFrom(sc, s.objects[d], i + 1);
    }
  }

  /** roles without name, and without memberships in it. */
  function WithoutRole(roles: map<string, PgRole>, name: string): map<string, PgRole> {
    map n | n in roles && n != name :: WithoutParent(roles[n], name)
  }

  lemma {:induction false} EndingRuns(self: string, sc: Schedule, s: Cluster, i: nat) returns (t: Cluster)
    requires IsSchedule(sc) && i < |sc.drops| && sc.drops[i] in s.roles && !Owns(s, sc.drops[i])
    ensures Runs(self, s, Ending(sc, i), t)
    ensures t == s.(roles := WithoutRole(s.roles, sc.drops[i]))
  {
    var name := sc.drops[i];
    var a, b := Query(sc.default, NoLogin(name)), Query(sc.default, DropRole(name));
    var u := Step(self, s, a);
    RunsOne(self, s, a);
    assert u.databases == s.databases && u.objects == s.objects;
    RunsSnoc(self, s, [a], u, b);
    t := Step(self, u, b);
    assert t.roles == WithoutRole(s.roles, name);
    assert [a] + [b] == Ending(sc, i);
  }

  lemma {:induction false} TargetIsPresent(sc: Schedule, s: Cluster, i: nat, to: string)
    requires Present(sc, s, i) && IsTarget(sc, i, to)
    ensures to in s.roles
  {
  }

  lemma {:induction false} StillPresent(sc: Schedule, s: Cluster, t: Cluster, i: nat)
    requires IsSchedule(sc) && i < |sc.drops| && Present(sc, s, i)
    requires t.roles == WithoutRole(s.roles, sc.drops[i])
    ensures Present(sc, t, i + 1)
  {
    assert RankedAt(sc, i);
    forall j | i + 1 <= j < |sc.drops|
      ensures sc.drops[j] in t.roles
    {
      assert RankedAt(sc, j);
    }
  }

  /** The whole i-th drop: every statement is accepted, the DROP ROLE last, and the role is gone. */
  lemma {:induction false} DefaultTurnRuns(self: string, sc: Schedule, s: Cluster, i: nat, dt: DefaultTurn, turn: seq<Query>) returns (t: Cluster)
    requires IsSchedule(sc) && i < |sc.drops| && sc.default in sc.owners && IsDefaultTurn(sc, i, dt, turn)
    requires Present(sc, s, i) && Midway(sc, s, i, {})
    ensures Runs(self, s, turn, t)
    ensures t.roles == WithoutRole(s.roles, sc.drops[i])
    ensures Present(sc, t, i + 1) && Midway(sc, t, i + 1, {})
  {
    hide Standing, IsTrace;
    var n := |dt.visited|;
    TerminateRuns(self, s, dt.head);
    TargetIsPresent(sc, s, i, dt.to);
    var u := PiecesRun(self, sc, s, i, dt.visited, n, dt.to);
    RunsConcat(self, s, dt.head, s, Pieces(sc, i, dt.visited, n, dt.to), u);
    assert dt.visited[..n] == dt.visited && Elements(dt.visited) == sc.owners.Keys;
    OwnsNothing(sc, u, i);
    t := EndingRuns(self, sc, u, i);
    RunsConcat(self, s, dt.head + Pieces(sc, i, dt.visited, n, dt.to), u, Ending(sc, i), t);
    StillPresent(sc, s, t, i);
  }

  ghost predicate AreDefaultTurns(sc: Schedule, dts: seq<DefaultTurn>, turns: seq<seq<Query>>) {
    |turns| == |dts| == |sc.drops| && forall i: nat :: i < |turns| ==> DefaultTurnAt(sc, dts, turns, i)
  }

  ghost predicate DefaultTurnAt(sc: Schedule, dts: seq<DefaultTurn>, turns: seq<seq<Query>>, i: nat)
    requires i < |turns| == |dts| == |sc.drops|
  {
    IsDefaultTurn(sc, i, dts[i], turns[i])
  }

  function Trimmed(r: PgRole, gone: seq<string>): PgRole {
    r.(parents := set m | m in r.parents && m.name !in gone)
  }

  /** A role survives unless it is gone, and loses only its memberships in roles that are. */
  ghost predicate LeftOver(before: map<string, PgRole>, after: map<string, PgRole>, gone: seq<string>) {
    forall n :: LeftRow(before, after, gone, n)
  }

  ghost predicate LeftRow(before: map<string, PgRole>, after: map<string, PgRole>, gone: seq<string>, n: string) {
    && (n in after <==> n in before && n !in gone)
    && (n in after ==> after[n] == Trimmed(before[n], gone))
  }

  lemma {:induction false} NothingGone(roles: map<string, PgRole>)
    ensures LeftOver(roles, roles, [])
  {
    forall n
      ensures LeftRow(roles, roles, [], n)
    {
      if n in roles { assert Trimmed(roles[n], []).parents == roles[n].parents; }
    }
  }

  lemma {:induction false} OneMoreGone(a: map<string, PgRole>, b: map<string, PgRole>, gone: seq<string>, name: string)
    requires LeftOver(a, b, gone)
    ensures LeftOver(a, WithoutRole(b, name), gone + [name])
  {
    var c := WithoutRole(b, name);
    forall n
      ensures LeftRow(a, c, gone + [name], n)
    {
      assert LeftRow(a, b, gone, n);
      if n in c { assert c[n].parents == Trimmed(a[n], gone + [name]).parents; }
    }
  }

  lemma {:induction false} NextIsGone(a: map<string, PgRole>, b: map<string, PgRole>, drops: seq<string>, i: nat)
    requires i < |drops| && LeftOver(a, b, drops[..i])
    ensures LeftOver(a, WithoutRole(b, drops[i]), drops[..i + 1])
  {
    OneMoreGone(a, b, drops[..i], drops[i]);
    assert drops[..i + 1] == drops[..i] + [drops[i]];
  }

  ghost predicate AfterDefault(self: string, sc: Schedule, s: Cluster, turns: seq<seq<Query>>, i: nat, t: Cluster)
    requires i <= |turns| == |sc.drops|
  {
    && Runs(self, s, Flat(turns, i), t)
    && LeftOver(s.roles, t.roles, sc.drops[..i]) && Present(sc, t, i) && Midway(sc, t, i, {})
  }

  lemma {:induction false} DefaultTurnsStep(self: string, sc: Schedule, s: Cluster, dts: seq<DefaultTurn>, turns: seq<seq<Query>>, i: nat, u: Cluster) returns (t: Cluster)
    requires IsSchedule(sc) && sc.default in sc.owners && i < |turns| == |dts| == |sc.drops|
    requires DefaultTurnAt(sc, dts, turns, i) && AfterDefault(self, sc, s, turns, i, u)
    ensures AfterDefault(self, sc, s, turns, i + 1, t)
  {
    t := DefaultTurnRuns(self, sc, u, i, dts[i], turns[i]);
    RunsConcat(self, s, Flat(turns, i), u, turns[i], t);
    NextIsGone(s.roles, u.roles, sc.drops, i);
  }

  lemma {:induction false} DefaultTurns(self: string, sc: Schedule, s: Cluster, dts: seq<DefaultTurn>, turns: seq<seq<Query>>) returns (t: Cluster)
    requires IsSchedule(sc) && sc.default in sc.owners && AreDefaultTurns(sc, dts, turns)
    requires Present(sc, s, 0) && Midway(sc, s, 0, {})
    ensures AfterDefault(self, sc, s, turns, |turns|, t)
  {
    RunsNone(self, s);
    NothingGone(s.roles);
    t := s;
    for i := 0 to |turns|
      invariant AfterDefault(self, sc, s, turns, i, t)
    {
      t := DefaultTurnsStep(self, sc, s, dts, turns, i, t);
    }
  }
}
