/** Expansion of grants (Expand; internal/privileges/grant.go) over the passes of a run
    (internal/cmd/ldap2pg.go). */
module Expansion {
  import opened Grants
  import opened Collections
  import Regroup
  import Sorting

  /** Schemas with the roles that create objects in them. */
  datatype Database = Database(name: string, schemas: map<string, seq<string>>)

  /** postgres.Databases, and the ACLs whose scope is the instance. */
  datatype World = World(databases: map<string, Database>, instanceWide: set<string>)

  const ALL := "__all__"
  const AUTO := "__auto__"

  // Database

  /** The databases g is about, in the pass of one database. */
  ghost predicate OnDatabase(w: World, database: string, g: Grant, d: string) {
    if g.database == ALL then d in w.databases && (d == database || g.acl in w.instanceWide)
    else d == g.database && (d == database || g.acl in w.instanceWide)
  }

  /** ExpandDatabase: None is the panic, when g is for all databases and none is found. */
  method ExpandDatabase(w: World, database: string, g: Grant) returns (out: Option<seq<Grant>>)
    ensures out.None? <==> g.database == ALL && !exists d :: OnDatabase(w, database, g, d)
    ensures out.Some? ==> forall h :: h in out.value <==> OnDatabase(w, database, g, h.database) && h == g.(database := h.database)
  {
    var instanceWide := g.acl in w.instanceWide;
    var found: seq<Grant> := [];
    if g.database == ALL {
      var names := AnyOrder(w.databases.Keys);
      for i := 0 to |names|
        invariant forall h :: h in found <==> h.database in names[..i] && OnDatabase(w, database, g, h.database) && h == g.(database := h.database)
      {
        assert names[i] in names && names[..i + 1] == names[..i] + [names[i]];
        if names[i] != database && !instanceWide { continue; }
        found := found + [g.(database := names[i])];
      }
      assert names[..|names|] == names;
      if found == [] {
        forall d | OnDatabase(w, database, g, d) ensures g.(database := d) in found { }
        return None;
      }
      assert found[0] in found;
      return Some(found);
    }
    if instanceWide || g.database == database {
      found := found + [g];
      assert OnDatabase(w, database, g, g.database) && g == g.(database := g.database);
    }
    out := Some(found);
  }

  // Schemas

  ghost predicate InSchema(db: Database, g: Grant, s: string) {
    if g.schema == ALL then s in db.schemas else s == g.schema
  }

  /** g in each of the schemas, in their order. */
  function InEach(g: Grant, schemas: seq<string>): seq<Grant> {
    seq(|schemas|, i requires 0 <= i < |schemas| => g.(schema := schemas[i]))
  }

  /** ExpandSchemas: one grant for each schema, in order. */
  method ExpandSchemas(schemas: seq<string>, g: Grant) returns (out: seq<Grant>)
    ensures g.schema != ALL ==> out == [g]
    ensures g.schema == ALL ==> out == InEach(g, schemas)
  {
    out := [];
    if g.schema != ALL {
      out := out + [g];
      return;
    }
    for i := 0 to |schemas|
      invariant |out| == i && forall j :: 0 <= j < i ==> out[j] == g.(schema := schemas[j])
    {
      out := out + [g.(schema := schemas[i])];
    }
  }

  lemma {:induction false} InEachHolds(g: Grant, schemas: seq<string>, h: Grant)
    ensures h in InEach(g, schemas) <==> h.schema in schemas && h == g.(schema := h.schema)
  {
    if h.schema in schemas && h == g.(schema := h.schema) {
      var i :| 0 <= i < |schemas| && schemas[i] == h.schema;
      assert InEach(g, schemas)[i] == h;
    }
  }

  // Owners

  function CreatorsIn(db: Database, s: string): seq<string> {
    if s in db.schemas then db.schemas[s] else []
  }

  /** Whoever creates objects in the schema, or in any schema. */
  ghost predicate Creates(db: Database, schema: string, role: string) {
    if schema == "" then exists s :: s in db.schemas && role in db.schemas[s] else role in CreatorsIn(db, schema)
  }

  ghost predicate OwnedBy(db: Database, g: Grant, o: string) {
    if g.owner != AUTO then o == g.owner else db.name == g.database && Creates(db, g.schema, o)
  }

  /** g by each of the owners, in their order. */
  function ByEach(g: Grant, owners: seq<string>): seq<Grant> {
    seq(|owners|, i requires 0 <= i < |owners| => g.(owner := owners[i]))
  }

  /** The creators, each once, sorted. */
  ghost predicate AreCreators(db: Database, schema: string, owners: seq<string>) {
    Distinct(owners) && Sorting.SortStrings(owners) == owners && forall o :: o in owners <==> Creates(db, schema, o)
  }

  /** ExpandOwners: one grant for each creator, in order. */
  method ExpandOwners(db: Database, g: Grant) returns (out: seq<Grant>)
    ensures g.owner != AUTO ==> out == [g]
    ensures g.owner == AUTO && db.name != g.database ==> out == []
    ensures g.owner == AUTO && db.name == g.database ==> exists owners :: AreCreators(db, g.schema, owners) && out == ByEach(g, owners)
    ensures forall h :: h in out <==> OwnedBy(db, g, h.owner) && h == g.(owner := h.owner)
  {
    hide Distinct, CreatorsIn;
    out := [];
    if g.owner != AUTO {
      out := out + [g];
      assert OwnedBy(db, g, g.owner) && g == g.(owner := g.owner);
      return;
    }
    if db.name != g.database { return; }
    var creators := Creators(db, g.schema);
    var any := AnyOrder(creators);
    var list := Sorting.SortStrings(any);
    SortedOnce(any);
    for i := 0 to |list|
      invariant |out| == i && forall j :: 0 <= j < i ==> out[j] == g.(owner := list[j])
    {
      out := out + [g.(owner := list[i])];
    }
    assert AreCreators(db, g.schema, list) && out == ByEach(g, list);
    forall h ensures h in out <==> OwnedBy(db, g, h.owner) && h == g.(owner := h.owner) { ByEachHolds(g, list, h); }
  }

  lemma {:induction false} ByEachHolds(g: Grant, owners: seq<string>, h: Grant)
    ensures h in ByEach(g, owners) <==> h.owner in owners && h == g.(owner := h.owner)
  {
    if h.owner in owners && h == g.(owner := h.owner) {
      var i :| 0 <= i < |owners| && owners[i] == h.owner;
      assert ByEach(g, owners)[i] == h;
    }
  }

  lemma {:induction false} SortedOnce(any: seq<string>)
    requires Distinct(any)
    ensures var list := Sorting.SortStrings(any);
      Distinct(list) && Sorting.SortStrings(list) == list && forall o :: o in list <==> o in any
  {
    var list := Sorting.SortStrings(any);
    OnceEach(any);
    DistinctIfOnce(list);
    Sorting.SortTwice(any);
    forall o ensures o in list <==> o in any { assert o in multiset(list) <==> o in multiset(any); }
  }

  method Creators(db: Database, schema: string) returns (creators: set<string>)
    ensures forall role :: role in creators <==> Creates(db, schema, role)
  {
    var schemas;
    if schema == "" { schemas := AnyOrder(db.schemas.Keys); } else { schemas := [schema]; }
    creators := {};
    for i := 0 to |schemas|
      invariant forall role :: role in creators <==> exists s :: s in schemas[..i] && role in CreatorsIn(db, s)
    {
      assert schemas[..i + 1] == schemas[..i] + [schemas[i]];
      creators := creators + set role | role in CreatorsIn(db, schemas[i]);
    }
    assert schemas[..|schemas|] == schemas;
  }

  // All three

  /** h is g with its placeholders replaced: database, then schema, then owner. */
  ghost predicate Expands(w: World, db: Database, g: Grant, h: Grant) {
    && OnDatabase(w, db.name, g, h.database)
    && InSchema(db, g, h.schema)
    && OwnedBy(db, g.(database := h.database, schema := h.schema), h.owner)
    && h == g.(database := h.database, schema := h.schema, owner := h.owner)
  }

  ghost predicate ExpandsDatabase(w: World, db: Database, g: Grant, h: Grant) {
    OnDatabase(w, db.name, g, h.database) && h == g.(database := h.database)
  }

  ghost predicate ExpandsSchema(w: World, db: Database, g: Grant, h: Grant) {
    && OnDatabase(w, db.name, g, h.database) && InSchema(db, g, h.schema)
    && h == g.(database := h.database, schema := h.schema)
  }

  ghost predicate FindsNone(w: World, database: string, g: Grant) {
    g.database == ALL && !exists d :: OnDatabase(w, database, g, d)
  }

  /** Expand. */
  method Expand(w: World, db: Database, grants: seq<Grant>) returns (out: Option<seq<Grant>>)
    ensures out.None? <==> exists g :: g in grants && FindsNone(w, db.name, g)
    ensures out.Some? ==> forall h :: h in out.value <==> exists g :: g in grants && Expands(w, db, g, h)
  {
    var onDatabases := ExpandDatabases(w, db, grants);
    if onDatabases.None? { return None; }
    var inSchemas := ExpandAllSchemas(w, db, grants, onDatabases.value);
    var owned := ExpandAllOwners(w, db, grants, inSchemas);
    out := Some(owned);
  }

  method ExpandDatabases(w: World, db: Database, grants: seq<Grant>) returns (out: Option<seq<Grant>>)
    ensures out.None? <==> exists g :: g in grants && FindsNone(w, db.name, g)
    ensures out.Some? ==> forall h :: h in out.value <==> exists g :: g in grants && ExpandsDatabase(w, db, g, h)
  {
    var found := [];
    for i := 0 to |grants|
      invariant forall g :: g in grants[..i] ==> !FindsNone(w, db.name, g)
      invariant forall h :: h in found <==> exists g :: g in grants[..i] && ExpandsDatabase(w, db, g, h)
    {
      var more := ExpandDatabase(w, db.name, grants[i]);
      assert grants[..i + 1] == grants[..i] + [grants[i]];
      if more.None? {
        assert FindsNone(w, db.name, grants[i]);
        return None;
      }
      assert forall h :: h in more.value <==> ExpandsDatabase(w, db, grants[i], h);
      found := found + more.value;
    }
    assert grants[..|grants|] == grants;
    out := Some(found);
  }

  method ExpandAllSchemas(w: World, db: Database, ghost grants: seq<Grant>, input: seq<Grant>) returns (out: seq<Grant>)
    requires forall h :: h in input <==> exists g :: g in grants && ExpandsDatabase(w, db, g, h)
    ensures forall h :: h in out <==> exists g :: g in grants && ExpandsSchema(w, db, g, h)
  {
    out := [];
    var schemas := AnyOrder(db.schemas.Keys);
    for i := 0 to |input|
      invariant forall h :: h in out <==> exists m :: m in input[..i] && InSchema(db, m, h.schema) && h == m.(schema := h.schema)
    {
      var more := ExpandSchemas(schemas, input[i]);
      assert input[..i + 1] == input[..i] + [input[i]];
      forall h ensures h in more <==> InSchema(db, input[i], h.schema) && h == input[i].(schema := h.schema) {
        InEachHolds(input[i], schemas, h);
        assert input[i] == input[i].(schema := input[i].schema);
      }
      out := out + more;
    }
    assert input[..|input|] == input;
    forall h
      ensures h in out <==> exists g :: g in grants && ExpandsSchema(w, db, g, h)
    {
      SchemaAfterDatabase(w, db, grants, input, h);
    }
  }

  lemma {:induction false} SchemaAfterDatabase(w: World, db: Database, grants: seq<Grant>, input: seq<Grant>, h: Grant)
    requires forall m :: m in input <==> exists g :: g in grants && ExpandsDatabase(w, db, g, m)
    ensures (exists m :: m in input && InSchema(db, m, h.schema) && h == m.(schema := h.schema))
       <==> exists g :: g in grants && ExpandsSchema(w, db, g, h)
  {
    if m :| m in input && InSchema(db, m, h.schema) && h == m.(schema := h.schema) {
      var g :| g in grants && ExpandsDatabase(w, db, g, m);
      assert ExpandsSchema(w, db, g, h);
    }
    if g :| g in grants && ExpandsSchema(w, db, g, h) {
      var m := g.(database := h.database);
      assert ExpandsDatabase(w, db, g, m);
      assert m in input && InSchema(db, m, h.schema) && h == m.(schema := h.schema);
    }
  }

  method ExpandAllOwners(w: World, db: Database, ghost grants: seq<Grant>, input: seq<Grant>) returns (out: seq<Grant>)
    requires forall h :: h in input <==> exists g :: g in grants && ExpandsSchema(w, db, g, h)
    ensures forall h :: h in out <==> exists g :: g in grants && Expands(w, db, g, h)
  {
    out := [];
    for i := 0 to |input|
      invariant forall h :: h in out <==> exists m :: m in input[..i] && OwnedBy(db, m, h.owner) && h == m.(owner := h.owner)
    {
      var more := ExpandOwners(db, input[i]);
      assert input[..i + 1] == input[..i] + [input[i]];
      out := out + more;
    }
    assert input[..|input|] == input;
    forall h
      ensures h in out <==> exists g :: g in grants && Expands(w, db, g, h)
    {
      OwnerAfterSchema(w, db, grants, input, h);
    }
  }

  lemma {:induction false} OwnerAfterSchema(w: World, db: Database, grants: seq<Grant>, input: seq<Grant>, h: Grant)
    requires forall m :: m in input <==> exists g :: g in grants && ExpandsSchema(w, db, g, m)
    ensures (exists m :: m in input && OwnedBy(db, m, h.owner) && h == m.(owner := h.owner))
       <==> exists g :: g in grants && Expands(w, db, g, h)
  {
    if m :| m in input && OwnedBy(db, m, h.owner) && h == m.(owner := h.owner) {
      var g :| g in grants && ExpandsSchema(w, db, g, m);
      assert m == g.(database := h.database, schema := h.schema);
      assert Expands(w, db, g, h);
    }
    if g :| g in grants && Expands(w, db, g, h) {
      var m := g.(database := h.database, schema := h.schema);
      assert ExpandsSchema(w, db, g, m);
      assert m in input && OwnedBy(db, m, h.owner) && h == m.(owner := h.owner);
    }
  }

  // Over the passes

  /** Nothing is named like a placeholder. */
  ghost predicate IsPlain(w: World, db: Database) {
    ALL !in w.databases && ALL !in db.schemas && forall s :: s in db.schemas ==> AUTO !in db.schemas[s]
  }

  /** No placeholder is left. */
  lemma {:induction false} NoPlaceholderLeft(w: World, db: Database, g: Grant, h: Grant)
    requires IsPlain(w, db) && Expands(w, db, g, h)
    ensures h.database != ALL && h.schema != ALL && h.owner != AUTO
  {
    if g.owner == AUTO && g.schema == "" {
      var s :| s in db.schemas && h.owner in db.schemas[s];
    }
  }

  /** The databases are keyed by name, and visited in their sync order, the default first. */
  ghost predicate ArePasses(w: World, default: string, order: seq<string>) {
    && (forall d :: d in w.databases ==> w.databases[d].name == d)
    && Regroup.IsSyncOrder(order, w.databases.Keys, default, true)
  }

  /** h is g substituted over all databases, each with its own schemas and creators. */
  ghost predicate Substitutes(w: World, g: Grant, h: Grant) {
    && h.database in w.databases && (g.database == ALL || g.database == h.database)
    && InSchema(w.databases[h.database], g, h.schema)
    && OwnedBy(w.databases[h.database], g.(database := h.database, schema := h.schema), h.owner)
    && h == g.(database := h.database, schema := h.schema, owner := h.owner)
  }

  /** For an ACL of database scope, an expansion belongs to one pass, that of its database,
      and the passes together give the substitution over all databases. */
  lemma {:induction false} PassesPartition(w: World, default: string, order: seq<string>, g: Grant, h: Grant)
    requires ArePasses(w, default, order) && g.acl !in w.instanceWide
    ensures forall i :: 0 <= i < |order| ==> order[i] in w.databases
    ensures forall i :: 0 <= i < |order| && Expands(w, w.databases[order[i]], g, h) ==> h.database == order[i]
    ensures forall i, j :: 0 <= i < j < |order| && Expands(w, w.databases[order[i]], g, h) ==> !Expands(w, w.databases[order[j]], g, h)
    ensures (exists i :: 0 <= i < |order| && Expands(w, w.databases[order[i]], g, h)) <==> Substitutes(w, g, h)
  {
    forall i | 0 <= i < |order| ensures order[i] in w.databases { assert order[i] in Elements(order); }
    if Substitutes(w, g, h) {
      assert h.database in Elements(order);
      var i :| 0 <= i < |order| && order[i] == h.database;
      assert Expands(w, w.databases[order[i]], g, h);
    }
  }

  /** For an ACL of instance scope, the pass of the default database alone gives the grants
      of every database. */
  lemma {:induction false} DefaultPassIsInstanceWide(w: World, default: string, g: Grant, h: Grant)
    requires default in w.databases && w.databases[default].name == default && g.acl in w.instanceWide && g.owner != AUTO && g.schema != ALL
    ensures Expands(w, w.databases[default], g, h) <==>
            (if g.database == ALL then h.database in w.databases else h.database == g.database) && h == g.(database := h.database)
  {
  }

  /** A pass over a managed database finds a database for every grant. */
  lemma {:induction false} ManagedPassDoesNotPanic(w: World, d: string, g: Grant)
    requires d in w.databases
    ensures !FindsNone(w, d, g)
  {
    assert g.database == ALL ==> OnDatabase(w, d, g, d);
  }
}
