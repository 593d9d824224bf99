/** The cluster a run acts on: its roles with their memberships, and the owners of
    the managed databases and of the objects inside them. Statements are steps on
    it (the SQL of internal/role/role.go, sent by internal/postgres/apply.go). */
module Postgres {
  import opened Roles

  /** A row of pg_roles: memberships keep the role that granted them. */
  datatype PgRole = PgRole(options: Options, parents: set<Membership>, comment: string, config: map<string, string>)

  datatype Cluster = Cluster(
    roles: map<string, PgRole>,
    databases: map<string, string>,            // owner by database
    objects: map<string, map<string, string>>) // owner by object, by database

  datatype Stmt =
    | Hook(sql: string)
    | NewRole(name: string, options: seq<Assignment>, parents: seq<string>)
    | AlterOptions(name: string, options: seq<Assignment>)
    | GrantParents(parents: seq<string>, name: string)
    | RevokeParent(parent: string, name: string, grantor: string)
    | CommentOn(name: string, comment: string)
    | SetConfig(name: string, key: string, value: string)
    | ResetConfig(name: string, key: string)
    | Terminate(name: string)
    | AlterDatabaseOwner(database: string, owner: string)
    | ReassignOwned(name: string, owner: string) // REASSIGN OWNED BY name TO owner; DROP OWNED BY name
    | NoLogin(name: string)
    | DropRole(name: string)

  /** SyncQuery: "" stands for the default database, "<first>" for the first of the sync order. */
  datatype Query = Query(database: string, stmt: Stmt)

  /** What CREATE ROLE gives to the options it is not told about. */
  const DEFAULTS := Options(false, false, false, true, false, false, false, -1)

  function NamesOf(parents: set<Membership>): set<string> {
    set m | m in parents :: m.name
  }

  /** A walk along current memberships, from member to parent. */
  ghost predicate Climbs(s: Cluster, path: seq<string>) {
    path != [] && forall i :: 0 < i < |path| ==> IsMember(s, path[i - 1], path[i])
  }

  ghost predicate IsMember(s: Cluster, child: string, parent: string) {
    child in s.roles && parent in NamesOf(s.roles[child].parents)
  }

  ghost predicate ClimbsTo(s: Cluster, path: seq<string>, from: string, to: string) {
    Climbs(s, path) && path[0] == from && path[|path| - 1] == to
  }

  /** from is to, or a member of it through any number of memberships. */
  ghost predicate Reaches(s: Cluster, from: string, to: string) {
    exists path :: ClimbsTo(s, path, from, to)
  }

  ghost predicate Owns(s: Cluster, name: string) {
    || (exists d :: d in s.databases && s.databases[d] == name)
    || (exists d, o :: d in s.objects && o in s.objects[d] && s.objects[d][o] == name)
  }

  /** Postgres accepts the statement; otherwise it raises an error. A new membership
      must not close a loop; a role that still owns something is not dropped. */
  ghost predicate Accepts(s: Cluster, q: Query) {
    match q.stmt
    case Hook(_) => true
    case NewRole(name, _, parents) => name !in s.roles && forall p :: p in parents ==> p in s.roles
    case AlterOptions(name, _) => name in s.roles
    case GrantParents(parents, name) => name in s.roles && forall p :: p in parents ==> p in s.roles && !Reaches(s, p, name)
    case RevokeParent(parent, name, _) => name in s.roles && parent in s.roles
    case CommentOn(name, _) => name in s.roles
    case SetConfig(name, _, _) => name in s.roles
    case ResetConfig(name, _) => name in s.roles
    case Terminate(_) => true
    case AlterDatabaseOwner(database, owner) => database in s.databases && owner in s.roles
    case ReassignOwned(name, owner) => name in s.roles && owner in s.roles
    case NoLogin(name) => name in s.roles
    case DropRole(name) => name in s.roles && !Owns(s, name)
  }

  /** self is the connected user, recorded as grantor of new memberships.
      REASSIGN OWNED changes the objects of the connected database and the shared
      objects, here the databases themselves. */
  function Step(self: string, s: Cluster, q: Query): Cluster {
    match q.stmt
    case Hook(_) => s
    case NewRole(name, options, parents) =>
      Put(s, name, PgRole(Assign(DEFAULTS, options), set p | p in parents :: Membership(self, p), "", map[]))
    case AlterOptions(name, options) => if name !in s.roles then s else
      Put(s, name, s.roles[name].(options := Assign(s.roles[name].options, options)))
    case GrantParents(parents, name) => if name !in s.roles then s else
      Put(s, name, s.roles[name].(parents := s.roles[name].parents + set p | p in parents :: Membership(self, p)))
    case RevokeParent(parent, name, grantor) => if name !in s.roles then s else
      Put(s, name, s.roles[name].(parents := s.roles[name].parents - {Membership(grantor, parent)}))
    case CommentOn(name, comment) => if name !in s.roles then s else
      Put(s, name, s.roles[name].(comment := comment))
    case SetConfig(name, key, value) => if name !in s.roles then s else
      Put(s, name, s.roles[name].(config := s.roles[name].config[key := value]))
    case ResetConfig(name, key) => if name !in s.roles then s else
      Put(s, name, s.roles[name].(config := s.roles[name].config - {key}))
    case Terminate(_) => s
    case AlterDatabaseOwner(database, owner) => s.(databases := s.databases[database := owner])
    case ReassignOwned(name, owner) => s.(
      databases := Reassign(s.databases, name, owner),
      objects := if q.database in s.objects then s.objects[q.database := Reassign(s.objects[q.database], name, owner)] else s.objects)
    case NoLogin(name) => if name !in s.roles then s else
      Put(s, name, s.roles[name].(options := s.roles[name].options.(canLogin := false)))
    case DropRole(name) => s.(roles := map n | n in s.roles && n != name :: WithoutParent(s.roles[n], name))
  }

  function Put(s: Cluster, name: string, r: PgRole): Cluster {
    s.(roles := s.roles[name := r])
  }

  function Reassign(owners: map<string, string>, name: string, owner: string): map<string, string> {
    map o | o in owners :: if owners[o] == name then owner else owners[o]
  }

  function WithoutParent(r: PgRole, name: string): PgRole {
    r.(parents := set m | m in r.parents && m.name != name)
  }

  /** The first k scripts, one after the other. */
  function Flat(scripts: seq<seq<Query>>, k: nat): seq<Query>
    requires k <= |scripts|
  {
    if k == 0 then [] else Flat(scripts, k - 1) + scripts[k - 1]
  }

  /** The i-th statement is accepted in the i-th cluster and leads to the next one. */
  ghost predicate StepAt(self: string, trace: seq<Cluster>, qs: seq<Query>, i: nat)
    requires |trace| == |qs| + 1 && i < |qs|
  {
    Accepts(trace[i], qs[i]) && trace[i + 1] == Step(self, trace[i], qs[i])
  }

  ghost predicate IsTrace(self: string, trace: seq<Cluster>, qs: seq<Query>, s: Cluster, t: Cluster) {
    && |trace| == |qs| + 1 && trace[0] == s && trace[|qs|] == t
    && forall i: nat :: i < |qs| ==> StepAt(self, trace, qs, i)
  }

  /** Running qs from s succeeds, statement by statement, and ends in t. */
  ghost predicate Runs(self: string, s: Cluster, qs: seq<Query>, t: Cluster) {
    exists trace :: IsTrace(self, trace, qs, s, t)
  }

  lemma {:induction false} RunsNone(self: string, s: Cluster)
    ensures Runs(self, s, [], s)
  {
    assert IsTrace(self, [s], [], s, s);
  }

  lemma {:induction false} RunsOne(self: string, s: Cluster, q: Query)
    requires Accepts(s, q)
    ensures Runs(self, s, [q], Step(self, s, q))
  {
    var trace := [s, Step(self, s, q)];
    assert StepAt(self, trace, [q], 0);
    assert IsTrace(self, trace, [q], s, Step(self, s, q));
  }

  lemma {:induction false} RunsConcat(self: string, s: Cluster, a: seq<Query>, t: Cluster, b: seq<Query>, u: Cluster)
    requires Runs(self, s, a, t) && Runs(self, t, b, u)
    ensures Runs(self, s, a + b, u)
  {
    var x :| IsTrace(self, x, a, s, t);
    var y :| IsTrace(self, y, b, t, u);
    var z := x + y[1..];
    forall i: nat | i < |a + b|
      ensures StepAt(self, z, a + b, i)
    {
      if i < |a| {
        assert StepAt(self, x, a, i);
      } else {
        assert StepAt(self, y, b, i - |a|);
        assert z[i] == y[i - |a|] && z[i + 1] == y[i + 1 - |a|];
      }
    }
    assert IsTrace(self, z, a + b, s, u);
  }

  lemma {:induction false} RunsSnoc(self: string, s: Cluster, a: seq<Query>, t: Cluster, q: Query)
    requires Runs(self, s, a, t) && Accepts(t, q)
    ensures Runs(self, s, a + [q], Step(self, t, q))
  {
    RunsOne(self, t, q);
    RunsConcat(self, s, a, t, [q], Step(self, t, q));
  }

  /** A run stops on the way where its first part ends. */
  lemma {:induction false} RunsSplit(self: string, s: Cluster, a: seq<Query>, b: seq<Query>, t: Cluster) returns (u: Cluster)
    requires Runs(self, s, a + b, t)
    ensures Runs(self, s, a, u) && Runs(self, u, b, t)
  {
    var trace :| IsTrace(self, trace, a + b, s, t);
    u := trace[|a|];
    var x, y := trace[..|a| + 1], trace[|a|..];
    forall i: nat | i < |a| ensures StepAt(self, x, a, i) { assert StepAt(self, trace, a + b, i); }
    forall i: nat | i < |b| ensures StepAt(self, y, b, i) { assert StepAt(self, trace, a + b, |a| + i); }
    assert IsTrace(self, x, a, s, u) && IsTrace(self, y, b, u, t);
  }

  lemma {:induction false} SameTraces(self: string, x: seq<Cluster>, y: seq<Cluster>, qs: seq<Query>, k: nat)
    requires |x| == |y| == |qs| + 1 && k <= |qs| && x[0] == y[0]
    requires forall i: nat :: i < |qs| ==> StepAt(self, x, qs, i) && StepAt(self, y, qs, i)
    ensures x[k] == y[k]
  {
    if k > 0 {
      SameTraces(self, x, y, qs, k - 1);
      assert StepAt(self, x, qs, k - 1) && StepAt(self, y, qs, k - 1);
    }
  }

  /** Statements lead to one cluster only. */
  lemma {:induction false} RunsUnique(self: string, s: Cluster, qs: seq<Query>, t: Cluster, u: Cluster)
    requires Runs(self, s, qs, t) && Runs(self, s, qs, u)
    ensures t == u
  {
    var x :| IsTrace(self, x, qs, s, t);
    var y :| IsTrace(self, y, qs, s, u);
    SameTraces(self, x, y, qs, |qs|);
  }
}
