/** What each database receives of the drops, once the statements are regrouped. */
module DropRun {
  import opened Roles
  import opened RoleGraph
  import opened Postgres
  import opened RoleDiff
  import opened Regroup
  import opened Collections
  import opened DropSafety

  /** What database receives of some statements. */
  ghost function Share(order: seq<string>, default: string, qs: seq<Query>, database: string): seq<Query> {
    Of(ResolveAll(qs, order, default), database)
  }

  ghost function ShareOne(order: seq<string>, default: string, q: Query, database: string): seq<Query> {
    var r := Resolve(q, order, default);
    if r.database == database then [r] else []
  }

  /** deal hands out statements one by one and in order, as Share does. */
  ghost predicate Deals(order: seq<string>, default: string, database: string, deal: seq<Query> -> seq<Query>) {
    && deal([]) == []
    && (forall q :: deal([q]) == ShareOne(order, default, q, database))
    && (forall a, b {:trigger deal(a + b)} :: deal(a + b) == deal(a) + deal(b))
  }

  lemma {:induction false} ShareNone(order: seq<string>, default: string, database: string)
    ensures Share(order, default, [], database) == []
  {
  }

  lemma {:induction false} ShareSingle(order: seq<string>, default: string, q: Query, database: string)
    ensures Share(order, default, [q], database) == ShareOne(order, default, q, database)
  {
    var r := Resolve(q, order, default);
    assert [q][..0] == [] && [r][..0] == [];
    assert ResolveAll([q], order, default) == ResolveAll([], order, default) + [r] == [r];
    assert Of([r], database) == if r.database == database then Of([], database) + [r] else Of([], database);
  }

  lemma {:induction false} ShareDeals(order: seq<string>, default: string, database: string) returns (deal: seq<Query> -> seq<Query>)
    ensures Deals(order, default, database, deal)
    ensures forall qs :: deal(qs) == Share(order, default, qs, database)
  {
    hide Of, ResolveAll, ShareOne;
    deal := qs => Share(order, default, qs, database);
    ShareNone(order, default, database);
    forall q ensures deal([q]) == ShareOne(order, default, q, database) { ShareSingle(order, default, q, database); }
    forall a, b
      ensures deal(a + b) == deal(a) + deal(b)
    {
      ResolveConcat(a, b, order, default);
      OfConcat(ResolveAll(a, order, default), ResolveAll(b, order, default), database);
    }
  }

  /** A role being dropped: the owners Drop finds, and the order it visits them in. */
  datatype Visit = Visit(name: string, login: bool, fallback: string, owners: map<string, string>, visited: seq<string>)

  ghost predicate IsVisit(v: Visit) {
    Visits(v.visited, v.owners.Keys) && "" !in v.owners && "<first>" !in v.owners
  }

  ghost function ReassignStmt(v: Visit, d: string): Query
    requires d in v.owners
  {
    Query(d, ReassignOwned(v.name, NewOwner(v.owners, d, v.name, v.fallback)))
  }

  /** What database receives of what Drop sends for database d. */
  ghost function VisitPiece(v: Visit, default: string, d: string, database: string): seq<Query>
    requires d in v.owners
  {
    (if database == default && v.owners[d] == v.name then [Query(default, AlterDatabaseOwner(d, v.fallback))] else [])
    + (if database == d then [ReassignStmt(v, d)] else [])
  }

  lemma {:induction false} SharePiece(v: Visit, order: seq<string>, default: string, d: string, database: string, deal: seq<Query> -> seq<Query>)
    requires IsVisit(v) && d in v.owners && Deals(order, default, database, deal)
    ensures deal(DropFrom(v.name, v.fallback, v.owners, d)) == VisitPiece(v, default, d, database)
  {
    var a, b := Query("", AlterDatabaseOwner(d, v.fallback)), ReassignStmt(v, d);
    assert deal([a]) == ShareOne(order, default, a, database) && deal([b]) == ShareOne(order, default, b, database);
    if v.owners[d] == v.name {
      assert DropFrom(v.name, v.fallback, v.owners, d) == [a] + [b];
    }
  }

  /** What database receives of what Drop sends for the first k databases it visits. */
  ghost function VisitPieces(v: Visit, default: string, k: nat, database: string): seq<Query>
    requires IsVisit(v) && k <= |v.visited|
  {
    if k == 0 then []
    else
      assert v.visited[k - 1] in v.visited;
      VisitPieces(v, default, k - 1, database) + VisitPiece(v, default, v.visited[k - 1], database)
  }

  lemma {:induction false} SharePieces(v: Visit, order: seq<string>, default: string, k: nat, database: string, deal: seq<Query> -> seq<Query>)
    requires IsVisit(v) && k <= |v.visited| && Deals(order, default, database, deal)
    ensures deal(DropFromFirst(v.name, v.fallback, v.owners, v.visited, k)) == VisitPieces(v, default, k, database)
  {
    hide ShareOne, VisitPiece;
    if k > 0 {
      assert v.visited[k - 1] in v.visited;
      SharePieces(v, order, default, k - 1, database, deal);
      SharePiece(v, order, default, v.visited[k - 1], database, deal);
    }
  }

  lemma {:induction false} NoVisitPieces(v: Visit, default: string, database: string)
    requires IsVisit(v)
    ensures VisitPieces(v, default, 0, database) == []
  {
    hide IsVisit, VisitPiece;
  }

  lemma {:induction false} NextPiece(v: Visit, default: string, k: nat, database: string, before: seq<Query>, piece: seq<Query>)
    requires IsVisit(v) && k < |v.visited| && v.visited[k] in v.visited
    requires before == VisitPieces(v, default, k, database) && piece == VisitPiece(v, default, v.visited[k], database)
    ensures VisitPieces(v, default, k + 1, database) == before + piece
  {
    hide IsVisit, VisitPiece;
  }

  lemma {:induction false} PiecesTo(v: Visit, default: string, k: nat, database: string, j: nat)
    requires IsVisit(v) && k <= |v.visited| && j < |v.visited| && v.visited[j] == database
    requires database in v.owners && database != default
    ensures VisitPieces(v, default, k, database) == if j < k then [ReassignStmt(v, database)] else []
  {
    hide VisitPieces, VisitPiece, ReassignStmt;
    if k == 0 {
      NoVisitPieces(v, default, database);
    } else {
      var d := v.visited[k - 1];
      assert d in v.visited && (d == database <==> j == k - 1);
      PiecesTo(v, default, k - 1, database, j);
      PieceElsewhere(v, default, d, database);
      NextPiece(v, default, k - 1, database, if j < k - 1 then [ReassignStmt(v, database)] else [], if d == database then [ReassignStmt(v, database)] else []);
    }
  }

  /** Outside the default database, a drop is one reassignment. */
  lemma {:induction false} PiecesElsewhere(v: Visit, default: string, database: string)
    requires IsVisit(v) && database in v.owners && database != default
    ensures VisitPieces(v, default, |v.visited|, database) == [ReassignStmt(v, database)]
  {
    hide VisitPieces, ReassignStmt;
    assert database in v.visited;
    var j: nat :| j < |v.visited| && v.visited[j] == database;
    PiecesTo(v, default, |v.visited|, database, j);
  }

  lemma {:induction false} PieceElsewhere(v: Visit, default: string, d: string, database: string)
    requires d in v.owners && database in v.owners && database != default
    ensures VisitPiece(v, default, d, database) == if d == database then [ReassignStmt(v, database)] else []
  {
  }

  ghost function TerminateStmt(v: Visit, order: seq<string>, database: string): seq<Query> {
    if v.login && order != [] && order[0] == database then [Query(database, Terminate(v.name))] else []
  }

  ghost function VisitEnding(v: Visit, default: string, database: string): seq<Query> {
    if database == default then [Query(database, NoLogin(v.name)), Query(database, DropRole(v.name))] else []
  }

  lemma {:induction false} ShareEnds(v: Visit, order: seq<string>, default: string, database: string, deal: seq<Query> -> seq<Query>)
    requires order != [] && Deals(order, default, database, deal)
    ensures deal(if v.login then [Query("<first>", Terminate(v.name))] else []) == TerminateStmt(v, order, database)
    ensures deal([Query("", NoLogin(v.name)), Query("", DropRole(v.name))]) == VisitEnding(v, default, database)
  {
    var t, a, b := Query("<first>", Terminate(v.name)), Query("", NoLogin(v.name)), Query("", DropRole(v.name));
    assert deal([t]) == ShareOne(order, default, t, database);
    assert deal([a]) == ShareOne(order, default, a, database) && deal([b]) == ShareOne(order, default, b, database);
    assert [a, b] == [a] + [b];
  }

  /** What database receives for one dropped role. */
  lemma {:induction false} ShareScript(v: Visit, order: seq<string>, default: string, r: Role, database: string, deal: seq<Query> -> seq<Query>)
    requires IsVisit(v) && order != [] && Deals(order, default, database, deal)
    requires r.name == v.name && r.options.canLogin == v.login
    ensures deal(DropScript(r, v.fallback, v.owners, v.visited))
         == TerminateStmt(v, order, database) + VisitPieces(v, default, |v.visited|, database) + VisitEnding(v, default, database)
  {
    var head := if v.login then [Query("<first>", Terminate(v.name))] else [];
    var body := DropFromFirst(v.name, v.fallback, v.owners, v.visited, |v.visited|);
    var tail := [Query("", NoLogin(v.name)), Query("", DropRole(v.name))];
    SharePieces(v, order, default, |v.visited|, database, deal);
    ShareEnds(v, order, default, database, deal);
    ThreeDeals(order, default, database, deal, head, body, tail);
  }

  lemma {:induction false} ThreeDeals(order: seq<string>, default: string, database: string, deal: seq<Query> -> seq<Query>, a: seq<Query>, b: seq<Query>, c: seq<Query>)
    requires Deals(order, default, database, deal)
    ensures deal(a + b + c) == deal(a) + deal(b) + deal(c)
  {
  }

  // All drops

  /** The drops of a run: for each role, the order in which its databases are visited;
      and the order in which databases are treated. */
  datatype Teardown = Teardown(all: RoleMap, orders: seq<seq<string>>, order: seq<string>, sc: Schedule)

  ghost predicate IsTeardown(td: Teardown) {
    && IsSchedule(td.sc)
    && |td.orders| == |td.sc.drops|
    && (forall i: nat :: i < |td.sc.drops| ==> Known(td, i))
    && td.order != []
    && "" !in td.sc.owners && "<first>" !in td.sc.owners
  }

  /** The i-th dropped role was inspected, and its drop visits each database once. */
  ghost predicate Known(td: Teardown, i: nat)
    requires i < |td.sc.drops| == |td.orders|
  {
    var name := td.sc.drops[i];
    name in td.all && td.all[name].name == name && Visits(td.orders[i], td.sc.owners.Keys)
  }

  lemma {:induction false} AllKnown(td: Teardown)
    requires IsTeardown(td)
    ensures forall i :: 0 <= i < |td.sc.drops| ==> td.sc.drops[i] in td.all
    ensures forall i :: 0 <= i < |td.sc.drops| ==> Visits(td.orders[i], td.sc.owners.Keys)
  {
    forall i: nat | i < |td.sc.drops|
      ensures td.sc.drops[i] in td.all && Visits(td.orders[i], td.sc.owners.Keys)
    {
      assert Known(td, i);
    }
  }

  /** The owners Drop expects when the first i roles have been dropped. */
  ghost function Owners(sc: Schedule, i: nat): (owners: map<string, string>)
    requires i <= |sc.drops|
    ensures owners.Keys == sc.owners.Keys
  {
    OwnersAfter(sc.owners, sc.fallback, sc.drops, i)
  }

  /** An owner is the inspected one as long as that role is not dropped, then the fallback owner. */
  lemma {:induction false} OwnerExpected(sc: Schedule, i: nat, d: string)
    requires IsSchedule(sc) && i <= |sc.drops| && d in sc.owners
    ensures Owners(sc, i)[d] == if sc.Rank(sc.owners[d]) < i then sc.fallback else sc.owners[d]
  {
    if i > 0 {
      OwnerExpected(sc, i - 1, d);
      assert RankedAt(sc, i - 1);
      if sc.owners[d] in sc.ranks { assert IsRanked(sc, sc.owners[d]); }
    }
  }

  /** Whoever receives the i-th dropped role's objects is still there. */
  lemma {:induction false} OwnerIsTarget(sc: Schedule, i: nat, d: string)
    requires IsSchedule(sc) && i < |sc.drops| && d in sc.owners
    ensures NewOwner(Owners(sc, i), d, sc.drops[i], sc.fallback) == Owners(sc, i + 1)[d]
    ensures IsTarget(sc, i, Owners(sc, i + 1)[d])
    ensures Owners(sc, i)[d] == sc.drops[i] <==> sc.Rank(sc.owners[d]) == i
  {
    OwnerExpected(sc, i, d);
    OwnerExpected(sc, i + 1, d);
    assert RankedAt(sc, i);
    if sc.owners[d] in sc.ranks { assert IsRanked(sc, sc.owners[d]); }
  }

  ghost function VisitOf(td: Teardown, i: nat): (v: Visit)
    requires IsTeardown(td) && i < |td.sc.drops|
    ensures IsVisit(v)
  {
    assert Known(td, i);
    Visit(td.sc.drops[i], td.all[td.sc.drops[i]].options.canLogin, td.sc.fallback, Owners(td.sc, i), td.orders[i])
  }

  /** What database receives for the i-th dropped role. */
  ghost function Turn(td: Teardown, i: nat, database: string): seq<Query>
    requires IsTeardown(td) && i < |td.sc.drops|
  {
    var v := VisitOf(td, i);
    TerminateStmt(v, td.order, database) + VisitPieces(v, td.sc.default, |v.visited|, database) + VisitEnding(v, td.sc.default, database)
  }

  lemma {:induction false} OtherTurnShape(td: Teardown, i: nat, database: string)
    requires IsTeardown(td) && i < |td.sc.drops| && database in td.sc.owners && database != td.sc.default
    ensures IsOtherTurn(td.sc, database, i, Turn(td, i, database))
  {
    var v, turn := VisitOf(td, i), Turn(td, i, database);
    PiecesElsewhere(v, td.sc.default, database);
    assert v.visited[..|v.visited|] == v.visited;
    OwnerIsTarget(td.sc, i, database);
    var head, q := TerminateStmt(v, td.order, database), ReassignStmt(v, database);
    assert turn == head + [q] && turn[..|head|] == head;
  }

  /** Whether the visited role is the i-th to be dropped, and to will receive its objects. */
  ghost predicate Fits(sc: Schedule, i: nat, v: Visit, to: string) {
    && IsSchedule(sc) && i < |sc.drops| && IsVisit(v) && v.owners.Keys == sc.owners.Keys && sc.default in sc.owners
    && v.name == sc.drops[i] && v.fallback == sc.fallback && ReassignStmt(v, sc.default) == Query(sc.default, ReassignOwned(v.name, to))
    && forall d :: d in v.owners ==> OwnsAt(sc, i, v, d)
  }

  ghost predicate OwnsAt(sc: Schedule, i: nat, v: Visit, d: string)
    requires d in sc.owners && d in v.owners
  {
    v.owners[d] == v.name <==> sc.Rank(sc.owners[d]) == i
  }

  lemma {:induction false} DefaultPieces(sc: Schedule, i: nat, v: Visit, k: nat, to: string)
    requires Fits(sc, i, v, to) && k <= |v.visited|
    ensures VisitPieces(v, sc.default, k, sc.default) == Pieces(sc, i, v.visited, k, to)
  {
    if k > 0 {
      DefaultPieces(sc, i, v, k - 1, to);
      var d := v.visited[k - 1];
      assert d in v.visited;
      assert OwnsAt(sc, i, v, d);
    }
  }

  lemma {:induction false} VisitFits(td: Teardown, i: nat)
    requires IsTeardown(td) && i < |td.sc.drops| && td.sc.default in td.sc.owners
    ensures Fits(td.sc, i, VisitOf(td, i), Owners(td.sc, i + 1)[td.sc.default])
  {
    var v := VisitOf(td, i);
    OwnerIsTarget(td.sc, i, td.sc.default);
    forall d | d in v.owners
      ensures OwnsAt(td.sc, i, v, d)
    {
      OwnerIsTarget(td.sc, i, d);
    }
  }

  ghost function DefaultTurnOf(td: Teardown, i: nat): DefaultTurn
    requires IsTeardown(td) && i < |td.sc.drops| && td.sc.default in td.sc.owners
  {
    DefaultTurn(TerminateStmt(VisitOf(td, i), td.order, td.sc.default), VisitOf(td, i).visited, Owners(td.sc, i + 1)[td.sc.default])
  }

  lemma {:induction false} DefaultTurnShape(td: Teardown, i: nat)
    requires IsTeardown(td) && i < |td.sc.drops| && td.sc.default in td.sc.owners
    ensures IsDefaultTurn(td.sc, i, DefaultTurnOf(td, i), Turn(td, i, td.sc.default))
  {
    hide OwnersAfter, Distinct;
    var v, dt := VisitOf(td, i), DefaultTurnOf(td, i);
    VisitFits(td, i);
    forall j | 0 <= j < |v.visited| ensures v.visited[j] in td.sc.owners { assert v.visited[j] in v.visited; }
    DefaultPieces(td.sc, i, v, |v.visited|, dt.to);
    OwnerIsTarget(td.sc, i, td.sc.default);
  }

  /** The statements of the first k drops, as they are sent. */
  ghost function Drops(td: Teardown, k: nat): seq<Query>
    requires IsTeardown(td) && k <= |td.sc.drops|
  {
    AllKnown(td);
    DropScripts(td.all, td.sc.fallback, td.sc.owners, td.sc.drops, td.orders, k)
  }

  lemma {:induction false} DropsShare(td: Teardown, i: nat, database: string)
    requires IsTeardown(td) && i < |td.sc.drops|
    ensures Share(td.order, td.sc.default, Drops(td, i + 1), database)
         == Share(td.order, td.sc.default, Drops(td, i), database) + Turn(td, i, database)
  {
    assert Known(td, i);
    var name := td.sc.drops[i];
    var deal := ShareDeals(td.order, td.sc.default, database);
    ShareScript(VisitOf(td, i), td.order, td.sc.default, td.all[name], database, deal);
    var script := DropScript(td.all[name], td.sc.fallback, Owners(td.sc, i), td.orders[i]);
    AllKnown(td);
    assert Drops(td, i + 1) == Drops(td, i) + script;
    assert deal(Drops(td, i) + script) == deal(Drops(td, i)) + deal(script);
  }

  /** What the database has received after each drop, as one share more per turn. */
  ghost predicate Accumulates(shares: seq<seq<Query>>, turns: seq<seq<Query>>) {
    && |shares| == |turns| + 1 && shares[0] == []
    && forall i: nat :: i < |turns| ==> Adds(shares, turns, i)
  }

  ghost predicate Adds(shares: seq<seq<Query>>, turns: seq<seq<Query>>, i: nat)
    requires i < |turns| < |shares|
  {
    shares[i + 1] == shares[i] + turns[i]
  }

  lemma {:induction false} SharesAreFlat(shares: seq<seq<Query>>, turns: seq<seq<Query>>, i: nat)
    requires Accumulates(shares, turns) && i <= |turns|
    ensures shares[i] == Flat(turns, i)
  {
    if i > 0 {
      SharesAreFlat(shares, turns, i - 1);
      assert Adds(shares, turns, i - 1);
    }
  }

  /** turns are what database receives, one dropped role after the other. */
  ghost predicate AreTurns(td: Teardown, database: string, turns: seq<seq<Query>>)
    requires IsTeardown(td)
  {
    |turns| == |td.sc.drops| && forall i: nat :: i < |turns| ==> IsTurn(td, database, i, turns[i])
  }

  ghost predicate IsTurn(td: Teardown, database: string, i: nat, turn: seq<Query>)
    requires IsTeardown(td) && i < |td.sc.drops|
  {
    turn == Turn(td, i, database)
  }

  lemma {:induction false} TurnsOf(td: Teardown, database: string) returns (turns: seq<seq<Query>>)
    requires IsTeardown(td)
    ensures AreTurns(td, database, turns)
    ensures Share(td.order, td.sc.default, Drops(td, |td.sc.drops|), database) == Flat(turns, |turns|)
  {
    hide OwnersAfter, IsTeardown, IsSchedule, Visits, DropScript, Flat;
    var n := |td.sc.drops|;
    turns := seq(n, i requires 0 <= i < n => Turn(td, i, database));
    assert AreTurns(td, database, turns);
    var shares := seq(n + 1, i requires 0 <= i < n + 1 => Share(td.order, td.sc.default, Drops(td, i), database));
    forall i: nat | i < n
      ensures Adds(shares, turns, i)
    {
      DropsShare(td, i, database);
    }
    SharesAreFlat(shares, turns, n);
  }

  /** A database other than the default one receives harmless turns only. */
  lemma {:induction false} OtherShape(td: Teardown, database: string) returns (turns: seq<seq<Query>>)
    requires IsTeardown(td) && database in td.sc.owners && database != td.sc.default
    ensures AreOtherTurns(td.sc, database, turns)
    ensures Share(td.order, td.sc.default, Drops(td, |td.sc.drops|), database) == Flat(turns, |turns|)
  {
    turns := TurnsOf(td, database);
    forall i: nat | i < |turns|
      ensures IsOtherTurn(td.sc, database, i, turns[i])
    {
      assert IsTurn(td, database, i, turns[i]);
      OtherTurnShape(td, i, database);
    }
  }

  lemma {:induction false} DefaultShape(td: Teardown) returns (dts: seq<DefaultTurn>, turns: seq<seq<Query>>)
    requires IsTeardown(td) && td.sc.default in td.sc.owners
    ensures AreDefaultTurns(td.sc, dts, turns)
    ensures Share(td.order, td.sc.default, Drops(td, |td.sc.drops|), td.sc.default) == Flat(turns, |turns|)
  {
    turns := TurnsOf(td, td.sc.default);
    dts := seq(|td.sc.drops|, i requires 0 <= i < |td.sc.drops| => DefaultTurnOf(td, i));
    forall i: nat | i < |turns|
      ensures DefaultTurnAt(td.sc, dts, turns, i)
    {
      assert IsTurn(td, td.sc.default, i, turns[i]);
      DefaultTurnShape(td, i);
    }
  }
}
