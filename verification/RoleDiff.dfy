/** The statements of a role run (internal/role/role.go: Alter, Create, Drop; diff.go: Diff). */
module RoleDiff {
  import opened Roles
  import opened RoleGraph
  import opened Postgres
  import opened Collections
  import TopoSort

  /** r is what inspection reads of pg_roles row p: options only where enabled. */
  ghost predicate Shows(enabled: set<Column>, r: Role, p: PgRole) {
    && r.options.Agrees(p.options, enabled)
    && (forall m :: m in r.parents <==> m in p.parents)
    && r.comment == p.comment
    && r.config == Some(p.config)
  }

  /** The pg_roles row is as wanted, as far as the run manages it. */
  ghost predicate Meets(enabled: set<Column>, p: PgRole, wanted: Role) {
    && p.options.Agrees(wanted.options, enabled)
    && NamesOf(p.parents) == ParentNames(wanted.parents)
    && p.comment == wanted.comment
    && (wanted.config.Some? ==> p.config == wanted.config.value)
  }

  // Role configuration

  predicate IsConfig(q: Query, name: string) {
    && q.database == ""
    && ((q.stmt.SetConfig? && q.stmt.name == name) || (q.stmt.ResetConfig? && q.stmt.name == name))
  }

  function Get(config: map<string, string>, key: string): Option<string> {
    if key in config then Some(config[key]) else None
  }

  /** The setting of one key after configuration statements. */
  function Setting(config: map<string, string>, qs: seq<Query>, key: string): Option<string> {
    if qs == [] then Get(config, key)
    else
      match qs[|qs| - 1].stmt
      case SetConfig(_, k, value) => if k == key then Some(value) else Setting(config, qs[..|qs| - 1], key)
      case ResetConfig(_, k) => if k == key then None else Setting(config, qs[..|qs| - 1], key)
      case _ => Setting(config, qs[..|qs| - 1], key)
  }

  lemma {:induction false} SettingSnoc(config: map<string, string>, qs: seq<Query>, q: Query)
    requires q.stmt.SetConfig? || q.stmt.ResetConfig?
    ensures forall key :: Setting(config, qs + [q], key) ==
                          if key != q.stmt.key then Setting(config, qs, key)
                          else if q.stmt.SetConfig? then Some(q.stmt.value) else None
  {
    assert (qs + [q])[..|qs|] == qs;
  }

  function KeyOf(q: Query): string {
    match q.stmt
    case SetConfig(_, key, _) => key
    case ResetConfig(_, key) => key
    case _ => ""
  }

  /** A setting is set to another value, or reset because it is no longer wanted. */
  ghost predicate IsDue(q: Query, from: map<string, string>, to: map<string, string>) {
    match q.stmt
    case SetConfig(_, key, value) => Get(to, key) == Some(value) && Get(from, key) != Some(value)
    case ResetConfig(_, key) => key in from && key !in to
    case _ => false
  }

  /** Configuration statements of one role, each due and for another key. */
  ghost predicate AreSettings(name: string, from: map<string, string>, to: map<string, string>, qs: seq<Query>) {
    && (forall i :: 0 <= i < |qs| ==> IsConfig(qs[i], name) && IsDue(qs[i], from, to))
    && forall i, j :: 0 <= i < j < |qs| ==> KeyOf(qs[i]) != KeyOf(qs[j])
  }

  /** Configuration statements that lead from one setting map to another: only what differs,
      each key once. */
  ghost predicate ConfigScript(name: string, from: map<string, string>, to: map<string, string>, qs: seq<Query>) {
    && AreSettings(name, from, to, qs)
    && forall key :: Setting(from, qs, key) == Get(to, key)
  }

  lemma {:induction false} OneMoreSetting(name: string, from: map<string, string>, to: map<string, string>, qs: seq<Query>, q: Query)
    requires AreSettings(name, from, to, qs) && IsConfig(q, name) && IsDue(q, from, to)
    requires forall i :: 0 <= i < |qs| ==> KeyOf(qs[i]) != KeyOf(q)
    ensures AreSettings(name, from, to, qs + [q])
  {
  }

  /** No statement is needed exactly when the settings are the same. */
  lemma {:induction false} NoSettingsIff(name: string, from: map<string, string>, to: map<string, string>, qs: seq<Query>)
    requires ConfigScript(name, from, to, qs)
    ensures qs == [] <==> from == to
  {
    if qs == [] {
      SameSettings(to, from);
    } else {
      assert IsDue(qs[0], from, to);
    }
  }

  /** The settings part of Role.Alter: keys of the current settings first, then the missing ones. */
  method AlterConfig(name: string, current: map<string, string>, wanted: map<string, string>) returns (out: seq<Query>)
    ensures ConfigScript(name, current, wanted, out)
  {
    hide SetUpTo, ConfigScript;
    out := [];
    ghost var done := {};
    NoSettingsYet(name, current, wanted);
    var keys := AnyOrder(current.Keys);
    var missing := wanted.Keys;
    for i := 0 to |keys|
      invariant SetUpTo(name, current, wanted, out, done) && forall k :: k in done <==> k in keys[..i]
      invariant forall k :: k in missing <==> k in wanted && k !in keys[..i]
    {
      var k := keys[i];
      assert k in Elements(keys) && keys[..i + 1] == keys[..i] + [k] && k !in keys[..i];
      if k !in wanted {
        out := SetNext(name, current, wanted, out, done, Query("", ResetConfig(name, k)));
      } else {
        missing := missing - {k};
        if wanted[k] != current[k] {
          out := SetNext(name, current, wanted, out, done, Query("", SetConfig(name, k, wanted[k])));
        } else {
          SkipNext(name, current, wanted, out, done, k);
        }
      }
      done := done + {k};
    }
    assert keys[..|keys|] == keys && done == current.Keys;
    out := SetMissing(name, current, wanted, missing, out);
  }

  /** The statements are due, and set the keys in done as wanted. */
  ghost predicate SetUpTo(name: string, from: map<string, string>, to: map<string, string>, qs: seq<Query>, done: set<string>) {
    && AreSettings(name, from, to, qs) && (forall j :: 0 <= j < |qs| ==> KeyOf(qs[j]) in done)
    && forall key :: Setting(from, qs, key) == if key in done then Get(to, key) else Get(from, key)
  }

  lemma {:induction false} NoSettingsYet(name: string, from: map<string, string>, to: map<string, string>)
    ensures SetUpTo(name, from, to, [], {})
  {
  }

  lemma {:induction false} SkipNext(name: string, from: map<string, string>, to: map<string, string>, qs: seq<Query>, done: set<string>, key: string)
    requires SetUpTo(name, from, to, qs, done) && Get(from, key) == Get(to, key)
    ensures SetUpTo(name, from, to, qs, done + {key})
  {
    hide Setting, AreSettings;
  }

  function SetNext(name: string, from: map<string, string>, to: map<string, string>, qs: seq<Query>, ghost done: set<string>, q: Query): (out: seq<Query>)
    requires SetUpTo(name, from, to, qs, done) && IsConfig(q, name) && IsDue(q, from, to) && KeyOf(q) !in done
    ensures SetUpTo(name, from, to, out, done + {KeyOf(q)}) && out == qs + [q]
  {
    OneMoreSetting(name, from, to, qs, q);
    SettingSnoc(from, qs, q);
    qs + [q]
  }

  method SetMissing(name: string, current: map<string, string>, wanted: map<string, string>, missing: set<string>, before: seq<Query>) returns (out: seq<Query>)
    requires missing == wanted.Keys - current.Keys && SetUpTo(name, current, wanted, before, current.Keys)
    ensures ConfigScript(name, current, wanted, out)
  {
    hide SetUpTo, ConfigScript;
    out := before;
    ghost var done := current.Keys;
    var keys := AnyOrder(missing);
    for i := 0 to |keys|
      invariant SetUpTo(name, current, wanted, out, done) && forall k :: k in done <==> k in current || k in keys[..i]
    {
      var k := keys[i];
      assert k in Elements(keys) && keys[..i + 1] == keys[..i] + [k] && k !in keys[..i];
      out := SetNext(name, current, wanted, out, done, Query("", SetConfig(name, k, wanted[k])));
      done := done + {k};
    }
    assert keys[..|keys|] == keys;
    AllAreSet(name, current, wanted, out, done);
  }

  lemma {:induction false} AllAreSet(name: string, from: map<string, string>, to: map<string, string>, qs: seq<Query>, done: set<string>)
    requires SetUpTo(name, from, to, qs, done) && from.Keys + to.Keys <= done
    ensures ConfigScript(name, from, to, qs)
  {
    hide Setting, AreSettings;
  }

  lemma {:induction false} SameSettings(a: map<string, string>, b: map<string, string>)
    requires forall key :: Get(a, key) == Setting(b, [], key)
    ensures a == b
  {
    forall key: string
      ensures key in a <==> key in b
      ensures key in a ==> a[key] == b[key]
    {
      assert Get(a, key) == Setting(b, [], key);
    }
  }

  // Role.Alter

  function Revokes(name: string, spurious: seq<Membership>): seq<Query> {
    if spurious == [] then []
    else
      var last := |spurious| - 1;
      Revokes(name, spurious[..last]) + [Query("", RevokeParent(spurious[last].name, name, spurious[last].grantor))]
  }

  function OptionsPart(enabled: set<Column>, r: Role, wanted: Role): seq<Query> {
    var changes := Differences(enabled, r.options, wanted.options, |COLUMNS|);
    if changes == [] then [] else [Query("", AlterOptions(r.name, changes))]
  }

  function GrantPart(r: Role, wanted: Role): seq<Query> {
    var missing := Missing(r.parents, wanted.parents);
    if missing == [] then [] else [Query("", GrantParents(Names(missing), r.name))]
  }

  function CommentPart(r: Role, wanted: Role): seq<Query> {
    if wanted.comment == r.comment then [] else [Query("", CommentOn(r.name, wanted.comment))]
  }

  /** Everything but the settings, in order. */
  function AlterHead(enabled: set<Column>, r: Role, wanted: Role): seq<Query> {
    OptionsPart(enabled, r, wanted) + GrantPart(r, wanted)
    + Revokes(r.name, Missing(wanted.parents, r.parents)) + CommentPart(r, wanted)
  }

  function Settings(r: Role): map<string, string> {
    if r.config.Some? then r.config.value else map[]
  }

  /** A possible output of Role.Alter: settings may be visited in any order. */
  ghost predicate IsAlter(enabled: set<Column>, r: Role, wanted: Role, out: seq<Query>) {
    var head := AlterHead(enabled, r, wanted);
    && |head| <= |out| && out[..|head|] == head
    && if wanted.config.None? then out == head
       else ConfigScript(r.name, Settings(r), wanted.config.value, out[|head|..])
  }

  /** Role.Alter. */
  method Alter(enabled: set<Column>, r: Role, wanted: Role) returns (out: seq<Query>)
    ensures IsAlter(enabled, r, wanted, out)
  {
    out := AlterAttributes(enabled, r, wanted);
    ghost var head := out;
    if wanted.config.Some? {
      var settings := AlterConfig(r.name, Settings(r), wanted.config.value);
      out := out + settings;
      assert out[|head|..] == settings;
    }
    assert out[..|head|] == head;
  }

  method AlterAttributes(enabled: set<Column>, r: Role, wanted: Role) returns (out: seq<Query>)
    ensures out == AlterHead(enabled, r, wanted)
  {
    out := [];
    var changes := OptionsDiff(enabled, r.options, wanted.options);
    if changes != [] {
      out := out + [Query("", AlterOptions(r.name, changes))];
    }
    assert out == OptionsPart(enabled, r, wanted);
    var missing := MissingParents(r.parents, wanted.parents);
    if missing != [] {
      out := out + [Query("", GrantParents(Names(missing), r.name))];
    }
    assert out == OptionsPart(enabled, r, wanted) + GrantPart(r, wanted);
    var spurious := MissingParents(wanted.parents, r.parents);
    var revokes := RevokeEach(r.name, spurious);
    out := out + revokes;
    if wanted.comment != r.comment {
      out := out + [Query("", CommentOn(r.name, wanted.comment))];
    }
  }

  method RevokeEach(name: string, spurious: seq<Membership>) returns (out: seq<Query>)
    ensures out == Revokes(name, spurious)
  {
    out := [];
    for i := 0 to |spurious|
      invariant out == Revokes(name, spurious[..i])
    {
      assert spurious[..i + 1][..i] == spurious[..i];
      out := out + [Query("", RevokeParent(spurious[i].name, name, spurious[i].grantor))];
    }
    assert spurious[..|spurious|] == spurious;
  }

  // Role.Create

  function HookPart(sql: string): seq<Query> {
    if sql == "" then [] else [Query("", Hook(sql))]
  }

  /** A possible output of Role.Create. */
  ghost predicate IsCreate(enabled: set<Column>, r: Role, out: seq<Query>) {
    exists settings :: ConfigScript(r.name, map[], Settings(r), settings) && out == CreateWith(enabled, r, settings)
  }

  ghost function CreateWith(enabled: set<Column>, r: Role, settings: seq<Query>): seq<Query> {
    HookPart(r.beforeCreate)
    + [Query("", NewRole(r.name, Listing(enabled, r.options, |COLUMNS|), Names(r.parents))),
       Query("", CommentOn(r.name, r.comment))]
    + settings + HookPart(r.afterCreate)
  }

  /** Role.Create. */
  method Create(enabled: set<Column>, r: Role) returns (out: seq<Query>)
    ensures IsCreate(enabled, r, out)
  {
    hide Listing, AreSettings, Setting;
    out := [];
    NoSettingsYet(r.name, map[], Settings(r));
    if r.beforeCreate != "" {
      out := out + [Query("", Hook(r.beforeCreate))];
    }
    out := out + [Query("", NewRole(r.name, Listing(enabled, r.options, |COLUMNS|), Names(r.parents)))];
    out := out + [Query("", CommentOn(r.name, r.comment))];
    var settings := [];
    assert r.config.None? ==> ConfigScript(r.name, map[], Settings(r), settings);
    if r.config.Some? {
      settings := SetMissing(r.name, map[], r.config.value, r.config.value.Keys, []);
      out := out + settings;
    }
    if r.afterCreate != "" {
      out := out + [Query("", Hook(r.afterCreate))];
    }
    assert out == CreateWith(enabled, r, settings);
  }

  // Role.Drop

  /** postgres.Databases, the global map that Drop updates: owner by managed database. */
  class Registry {
    var owners: map<string, string>

    constructor (owners: map<string, string>)
      ensures this.owners == owners
    {
      this.owners := owners;
    }
  }

  /** The databases in some order, each once. */
  ghost predicate Visits(order: seq<string>, databases: set<string>) {
    Distinct(order) && forall d :: d in order <==> d in databases
  }

  /** What Drop sends for one database; the objects go to the database's owner,
      or to the fallback owner when that is the role being dropped. */
  function DropFrom(name: string, fallback: string, owners: map<string, string>, database: string): seq<Query>
    requires database in owners
  {
    if owners[database] == name then
      [Query("", AlterDatabaseOwner(database, fallback)), Query(database, ReassignOwned(name, fallback))]
    else [Query(database, ReassignOwned(name, owners[database]))]
  }

  ghost function DropFromFirst(name: string, fallback: string, owners: map<string, string>, order: seq<string>, k: nat): seq<Query>
    requires k <= |order| && Visits(order, owners.Keys)
  {
    if k == 0 then []
    else DropFromFirst(name, fallback, owners, order, k - 1) + DropFrom(name, fallback, owners, order[k - 1])
  }

  ghost function DropScript(r: Role, fallback: string, owners: map<string, string>, order: seq<string>): seq<Query>
    requires Visits(order, owners.Keys)
  {
    (if r.options.canLogin then [Query("<first>", Terminate(r.name))] else [])
    + DropFromFirst(r.name, fallback, owners, order, |order|)
    + [Query("", NoLogin(r.name)), Query("", DropRole(r.name))]
  }

  /** Role.Drop. */
  method Drop(r: Role, fallback: string, databases: Registry) returns (out: seq<Query>, ghost order: seq<string>)
    modifies databases
    ensures Visits(order, old(databases.owners.Keys))
    ensures out == DropScript(r, fallback, old(databases.owners), order)
    ensures databases.owners == Reassign(old(databases.owners), r.name, fallback)
  {
    out := [];
    if r.options.canLogin {
      out := out + [Query("<first>", Terminate(r.name))];
    }
    var keys := AnyOrder(databases.owners.Keys);
    order := keys;
    var reassigns := ReassignEverywhere(r.name, fallback, databases, keys);
    out := out + reassigns;
    out := out + [Query("", NoLogin(r.name)), Query("", DropRole(r.name))];
  }

  method ReassignEverywhere(name: string, fallback: string, databases: Registry, keys: seq<string>) returns (out: seq<Query>)
    requires Visits(keys, databases.owners.Keys)
    modifies databases
    ensures out == DropFromFirst(name, fallback, old(databases.owners), keys, |keys|)
    ensures databases.owners == Reassign(old(databases.owners), name, fallback)
  {
    hide Visits, DropFrom, DropFromFirst;
    out := [];
    ghost var owners := databases.owners;
    VisitsEach(keys, owners.Keys);
    NoneYet(name, fallback, owners, keys);
    for i := 0 to |keys|
      invariant databases.owners.Keys == owners.Keys
      invariant forall j :: 0 <= j < i ==> databases.owners[keys[j]] == NewOwner(owners, keys[j], name, fallback)
      invariant forall j :: i <= j < |keys| ==> databases.owners[keys[j]] == owners[keys[j]]
      invariant out == DropFromFirst(name, fallback, owners, keys, i)
    {
      var d := keys[i];
      var piece := [];
      if databases.owners[d] == name {
        piece := [Query("", AlterDatabaseOwner(d, fallback))];
        databases.owners := databases.owners[d := fallback];
      }
      piece := piece + [Query(d, ReassignOwned(name, databases.owners[d]))];
      PieceIs(name, fallback, owners, d, piece);
      NextVisit(name, fallback, owners, keys, i, out, piece);
      out := out + piece;
    }
  }

  lemma {:induction false} NoneYet(name: string, fallback: string, owners: map<string, string>, keys: seq<string>)
    requires Visits(keys, owners.Keys)
    ensures DropFromFirst(name, fallback, owners, keys, 0) == []
  {
  }

  lemma {:induction false} NextVisit(name: string, fallback: string, owners: map<string, string>, keys: seq<string>, i: nat, out: seq<Query>, piece: seq<Query>)
    requires Visits(keys, owners.Keys) && i < |keys| && keys[i] in owners
    requires out == DropFromFirst(name, fallback, owners, keys, i) && piece == DropFrom(name, fallback, owners, keys[i])
    ensures DropFromFirst(name, fallback, owners, keys, i + 1) == out + piece
  {
    hide Visits, DropFrom;
  }

  lemma {:induction false} VisitsEach(keys: seq<string>, databases: set<string>)
    requires Visits(keys, databases)
    ensures (forall i :: 0 <= i < |keys| ==> keys[i] in databases) && (forall i, j :: 0 <= i < j < |keys| ==> keys[i] != keys[j])
    ensures forall d :: d in databases ==> d in keys
  {
    forall i | 0 <= i < |keys| ensures keys[i] in databases { assert keys[i] in Elements(keys); }
    forall d | d in databases ensures d in keys { assert d in Elements(keys); }
  }

  lemma {:induction false} PieceIs(name: string, fallback: string, owners: map<string, string>, d: string, piece: seq<Query>)
    requires d in owners
    requires piece == (if owners[d] == name then [Query("", AlterDatabaseOwner(d, fallback))] else []) + [Query(d, ReassignOwned(name, NewOwner(owners, d, name, fallback)))]
    ensures piece == DropFrom(name, fallback, owners, d)
  {
  }

  function NewOwner(owners: map<string, string>, database: string, name: string, fallback: string): string
    requires database in owners
  {
    if owners[database] == name then fallback else owners[database]
  }

  // Diff

  /** The choices a run makes: the order of wanted roles, the statements sent for each,
      the order of dropped roles and, for each, the order of databases. */
  datatype Plan = Plan(names: seq<string>, scripts: seq<seq<Query>>, drops: seq<string>, orders: seq<seq<string>>)

  /** An existing role is altered, even when unmanaged; a missing one is created. */
  ghost predicate RoleScript(enabled: set<Column>, all: RoleMap, wanted: Role, script: seq<Query>) {
    if wanted.name in all then IsAlter(enabled, all[wanted.name], wanted, script)
    else IsCreate(enabled, wanted, script)
  }

  /** The roles a run drops: managed, existing, not wanted, and not public. */
  function Doomed(all: RoleMap, managed: set<string>, wanted: RoleMap): set<string> {
    set n | n in managed && n !in wanted && n != "public" && n in all
  }

  /** The owners the program expects after the first k drops. */
  function OwnersAfter(owners: map<string, string>, fallback: string, drops: seq<string>, k: nat): (after: map<string, string>)
    requires k <= |drops|
    ensures after.Keys == owners.Keys
  {
    if k == 0 then owners else Reassign(OwnersAfter(owners, fallback, drops, k - 1), drops[k - 1], fallback)
  }

  ghost predicate IsDrops(all: RoleMap, managed: set<string>, wanted: RoleMap, owners: map<string, string>, drops: seq<string>, orders: seq<seq<string>>) {
    && Distinct(drops) && (forall n :: n in drops <==> n in Doomed(all, managed, wanted))
    && (forall i :: 0 <= i < |drops| ==> drops[i] in all)
    && |orders| == |drops|
    && forall i :: 0 <= i < |orders| ==> Visits(orders[i], owners.Keys)
  }

  ghost predicate IsPlan(enabled: set<Column>, all: RoleMap, managed: set<string>, wanted: RoleMap, owners: map<string, string>, plan: Plan) {
    && IsFlattening(wanted, plan.names)
    && |plan.scripts| == |plan.names|
    && (forall i :: 0 <= i < |plan.names| ==> RoleScript(enabled, all, wanted[plan.names[i]], plan.scripts[i]))
    && IsDrops(all, managed, wanted, owners, plan.drops, plan.orders)
  }

  ghost function DropScripts(all: RoleMap, fallback: string, owners: map<string, string>, drops: seq<string>, orders: seq<seq<string>>, k: nat): seq<Query>
    requires k <= |drops| && k <= |orders|
    requires forall i :: 0 <= i < k ==> drops[i] in all
    requires forall i :: 0 <= i < k ==> Visits(orders[i], owners.Keys)
  {
    if k == 0 then []
    else DropScripts(all, fallback, owners, drops, orders, k - 1)
         + DropScript(all[drops[k - 1]], fallback, OwnersAfter(owners, fallback, drops, k - 1), orders[k - 1])
  }

  /** The statements of a plan, in the order they are sent. */
  ghost function PlanQueries(all: RoleMap, managed: set<string>, wanted: RoleMap, owners: map<string, string>, fallback: string, plan: Plan): seq<Query>
    requires |plan.scripts| == |plan.names|
    requires IsDrops(all, managed, wanted, owners, plan.drops, plan.orders)
  {
    Flat(plan.scripts, |plan.scripts|) + DropScripts(all, fallback, owners, plan.drops, plan.orders, |plan.drops|)
  }

  /** Diff: create and alter in flattened order, then drop in any order. */
  method Diff(enabled: set<Column>, all: RoleMap, managed: set<string>, wanted: RoleMap, fallback: string, databases: Registry)
    returns (out: seq<Query>, ghost plan: Plan)
    requires WellKeyed(wanted) && WellKeyed(all)
    requires TopoSort.Acyclic(GraphOf(wanted))
    modifies databases
    ensures IsPlan(enabled, all, managed, wanted, old(databases.owners), plan)
    ensures out == PlanQueries(all, managed, wanted, old(databases.owners), fallback, plan)
    ensures databases.owners == OwnersAfter(old(databases.owners), fallback, plan.drops, |plan.drops|)
  {
    var names := Flatten(wanted);
    ghost var owners := databases.owners;
    ghost var scripts;
    out, scripts := SyncWanted(enabled, all, wanted, names);
    ghost var drops, orders;
    var tail;
    tail, drops, orders := DropSpurious(all, managed, wanted, fallback, databases);
    plan := Plan(names, scripts, drops, orders);
    out := out + tail;
  }

  method SyncWanted(enabled: set<Column>, all: RoleMap, wanted: RoleMap, names: seq<string>)
    returns (out: seq<Query>, ghost scripts: seq<seq<Query>>)
    requires WellKeyed(wanted) && WellKeyed(all)
    requires forall i :: 0 <= i < |names| ==> names[i] in wanted
    ensures |scripts| == |names| && out == Flat(scripts, |scripts|)
    ensures forall i :: 0 <= i < |names| ==> RoleScript(enabled, all, wanted[names[i]], scripts[i])
  {
    hide IsAlter, IsCreate, AlterHead, ConfigScript;
    out, scripts := [], [];
    for i := 0 to |names|
      invariant |scripts| == i && out == Flat(scripts, i)
      invariant forall j :: 0 <= j < i ==> RoleScript(enabled, all, wanted[names[j]], scripts[j])
    {
      var role := wanted[names[i]];
      var script;
      if names[i] in all {
        script := Alter(enabled, all[names[i]], role);
      } else {
        script := Create(enabled, role);
      }
      FlatPrefix(scripts, script, i);
      scripts := scripts + [script];
      out := out + script;
    }
  }

  lemma {:induction false} FlatPrefix(scripts: seq<seq<Query>>, script: seq<Query>, k: nat)
    requires k <= |scripts|
    ensures Flat(scripts + [script], k) == Flat(scripts, k)
  {
    if k > 0 {
      FlatPrefix(scripts, script, k - 1);
    }
  }

  method DropSpurious(all: RoleMap, managed: set<string>, wanted: RoleMap, fallback: string, databases: Registry)
    returns (out: seq<Query>, ghost drops: seq<string>, ghost orders: seq<seq<string>>)
    requires WellKeyed(all)
    modifies databases
    ensures IsDrops(all, managed, wanted, old(databases.owners), drops, orders)
    ensures out == DropScripts(all, fallback, old(databases.owners), drops, orders, |drops|)
    ensures databases.owners == OwnersAfter(old(databases.owners), fallback, drops, |drops|)
  {
    var names := SelectDoomed(all, managed, wanted);
    drops := names;
    out, orders := DropEach(all, names, fallback, databases);
  }

  /** The names Drop is called for, in the order the managed roles are visited. */
  method SelectDoomed(all: RoleMap, managed: set<string>, wanted: RoleMap) returns (drops: seq<string>)
    ensures Distinct(drops)
    ensures forall n :: n in drops <==> n in Doomed(all, managed, wanted)
    ensures forall i :: 0 <= i < |drops| ==> drops[i] in all
  {
    drops := [];
    var names := AnyOrder(managed);
    for i := 0 to |names|
      invariant Distinct(drops)
      invariant forall n :: n in drops <==> n in names[..i] && n in Doomed(all, managed, wanted)
    {
      var name := names[i];
      assert name in Elements(names) && name !in names[..i] && names[..i + 1] == names[..i] + [name];
      if name !in wanted && name != "public" && name in all {
        drops := drops + [name];
      }
    }
    assert names[..|names|] == names;
    forall i | 0 <= i < |drops| ensures drops[i] in all { assert drops[i] in drops; }
  }

  method DropEach(all: RoleMap, drops: seq<string>, fallback: string, databases: Registry)
    returns (out: seq<Query>, ghost orders: seq<seq<string>>)
    requires WellKeyed(all) && forall i :: 0 <= i < |drops| ==> drops[i] in all
    modifies databases
    ensures |orders| == |drops| && forall i :: 0 <= i < |orders| ==> Visits(orders[i], old(databases.owners.Keys))
    ensures out == DropScripts(all, fallback, old(databases.owners), drops, orders, |drops|)
    ensures databases.owners == OwnersAfter(old(databases.owners), fallback, drops, |drops|)
  {
    hide Visits, Distinct, DropScript, Reassign;
    out, orders := [], [];
    ghost var owners := databases.owners;
    for i := 0 to |drops|
      invariant |orders| == i
      invariant forall j :: 0 <= j < i ==> Visits(orders[j], owners.Keys)
      invariant databases.owners == OwnersAfter(owners, fallback, drops, i)
      invariant out == DropScripts(all, fallback, owners, drops, orders, i)
    {
      var script;
      ghost var order;
      script, order := Drop(all[drops[i]], fallback, databases);
      DropScriptsPrefix(all, fallback, owners, drops, orders, order, i);
      orders := orders + [order];
      out := out + script;
    }
  }

  lemma {:induction false} DropScriptsPrefix(all: RoleMap, fallback: string, owners: map<string, string>, drops: seq<string>, orders: seq<seq<string>>, order: seq<string>, k: nat)
    requires k <= |drops| && k <= |orders|
    requires forall i :: 0 <= i < k ==> drops[i] in all
    requires forall i :: 0 <= i < k ==> Visits(orders[i], owners.Keys)
    ensures DropScripts(all, fallback, owners, drops, orders + [order], k) == DropScripts(all, fallback, owners, drops, orders, k)
  {
    if k > 0 {
      DropScriptsPrefix(all, fallback, owners, drops, orders, order, k - 1);
    }
  }
}
