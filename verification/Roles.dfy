/** Roles, memberships and options (internal/role/role.go, membership.go, options.go). */
module Roles {
  import opened Collections

  datatype Membership = Membership(grantor: string, name: string)

  /** The pg_roles columns an option is read from and written to. */
  datatype Column = Super | CreateDB | CreateRole | Inherit | CanLogin | Replication | BypassRLS | ConnLimit

  /** The fields of Options in declaration order. */
  const COLUMNS: seq<Column> := [Super, CreateDB, CreateRole, Inherit, CanLogin, Replication, BypassRLS, ConnLimit]

  function Position(c: Column): (i: nat)
    ensures i < |COLUMNS| && COLUMNS[i] == c
  {
    match c
    case Super => 0
    case CreateDB => 1
    case CreateRole => 2
    case Inherit => 3
    case CanLogin => 4
    case Replication => 5
    case BypassRLS => 6
    case ConnLimit => 7
  }

  datatype Options = Options(
    super: bool, createDB: bool, createRole: bool, inherit: bool,
    canLogin: bool, replication: bool, bypassRLS: bool, connLimit: int)
  {
    function Get(c: Column): int {
      match c
      case Super => Flag(super)
      case CreateDB => Flag(createDB)
      case CreateRole => Flag(createRole)
      case Inherit => Flag(inherit)
      case CanLogin => Flag(canLogin)
      case Replication => Flag(replication)
      case BypassRLS => Flag(bypassRLS)
      case ConnLimit => connLimit
    }

    function Set(c: Column, v: int): Options {
      match c
      case Super => this.(super := v != 0)
      case CreateDB => this.(createDB := v != 0)
      case CreateRole => this.(createRole := v != 0)
      case Inherit => this.(inherit := v != 0)
      case CanLogin => this.(canLogin := v != 0)
      case Replication => this.(replication := v != 0)
      case BypassRLS => this.(bypassRLS := v != 0)
      case ConnLimit => this.(connLimit := v)
    }

    /** Equal on the columns the instance makes available. */
    ghost predicate Agrees(other: Options, enabled: set<Column>) {
      forall c :: c in enabled ==> Get(c) == other.Get(c)
    }
  }

  function Flag(b: bool): int {
    if b then 1 else 0
  }

  datatype Assignment = Assignment(column: Column, value: int)

  /** What "ALTER ROLE ... WITH" and "CREATE ROLE ... WITH" do with an option list. */
  function Assign(o: Options, changes: seq<Assignment>): Options
    decreases |changes|
  {
    if changes == [] then o
    else Assign(o.Set(changes[0].column, changes[0].value), changes[1..])
  }

  datatype Role = Role(
    name: string,
    comment: string,
    parents: seq<Membership>,
    options: Options,
    config: Option<map<string, string>>,
    beforeCreate: string,
    afterCreate: string)

  function ParentNames(parents: seq<Membership>): set<string> {
    set m | m in parents :: m.name
  }

  /** Options.Diff: the enabled columns whose wanted value differs, in order. */
  method OptionsDiff(enabled: set<Column>, current: Options, wanted: Options) returns (changes: seq<Assignment>)
    ensures changes == Differences(enabled, current, wanted, |COLUMNS|)
  {
    changes := [];
    for i := 0 to |COLUMNS|
      invariant changes == Differences(enabled, current, wanted, i)
    {
      var c := COLUMNS[i];
      if c in enabled && current.Get(c) != wanted.Get(c) {
        changes := changes + [Assignment(c, wanted.Get(c))];
      }
    }
  }

  /** The differences in the first k columns. */
  function Differences(enabled: set<Column>, current: Options, wanted: Options, k: nat): seq<Assignment>
    requires k <= |COLUMNS|
  {
    if k == 0 then []
    else
      var before, c := Differences(enabled, current, wanted, k - 1), COLUMNS[k - 1];
      if c in enabled && current.Get(c) != wanted.Get(c) then before + [Assignment(c, wanted.Get(c))] else before
  }

  /** Options.String: every enabled column with its value, in order. */
  function Listing(enabled: set<Column>, o: Options, k: nat): seq<Assignment>
    requires k <= |COLUMNS|
  {
    if k == 0 then []
    else
      var before, c := Listing(enabled, o, k - 1), COLUMNS[k - 1];
      if c in enabled then before + [Assignment(c, o.Get(c))] else before
  }

  /** Altering by the difference reaches the wanted options on every enabled
      column and leaves the other columns alone, and the difference is empty
      exactly when there is nothing to reach. */
  lemma {:induction false} AlterOptionsReachesWanted(enabled: set<Column>, current: Options, wanted: Options)
    ensures var changes := Differences(enabled, current, wanted, |COLUMNS|);
            var result := Assign(current, changes);
            && result.Agrees(wanted, enabled)
            && (forall c :: c !in enabled ==> result.Get(c) == current.Get(c))
            && (changes == [] <==> current.Agrees(wanted, enabled))
  {
    var changes := Differences(enabled, current, wanted, |COLUMNS|);
    forall c: Column
      ensures Assign(current, changes).Get(c) == if c in enabled then wanted.Get(c) else current.Get(c)
    {
      AssignDifferences(enabled, current, wanted, |COLUMNS|, c);
    }
    if changes != [] {
      var d := DifferenceHasCause(enabled, current, wanted, |COLUMNS|);
    }
  }

  lemma {:induction false} AssignSnoc(o: Options, changes: seq<Assignment>, a: Assignment)
    ensures Assign(o, changes + [a]) == Assign(o, changes).Set(a.column, a.value)
    decreases |changes|
  {
    if changes != [] {
      AssignSnoc(o.Set(changes[0].column, changes[0].value), changes[1..], a);
      assert (changes + [a])[1..] == changes[1..] + [a];
    }
  }

  lemma {:induction false} AssignDifferences(enabled: set<Column>, current: Options, wanted: Options, k: nat, c: Column)
    requires k <= |COLUMNS|
    ensures Assign(current, Differences(enabled, current, wanted, k)).Get(c)
         == if c in enabled && Position(c) < k then wanted.Get(c) else current.Get(c)
  {
    hide Options.Get, Options.Set, Assign, Position;
    if k > 0 {
      var before, d := Differences(enabled, current, wanted, k - 1), COLUMNS[k - 1];
      AssignDifferences(enabled, current, wanted, k - 1, c);
      if d in enabled && current.Get(d) != wanted.Get(d) { AssignOne(current, before, d, wanted, c); }
      PositionOfColumn(k - 1);
    } else {
      AssignNone(current);
    }
  }

  lemma {:induction false} SetGet(o: Options, d: Column, wanted: Options, c: Column)
    ensures o.Set(d, wanted.Get(d)).Get(c) == if c == d then wanted.Get(c) else o.Get(c)
  {
  }

  lemma {:induction false} DifferenceHasCause(enabled: set<Column>, current: Options, wanted: Options, k: nat) returns (c: Column)
    requires k <= |COLUMNS|
    requires Differences(enabled, current, wanted, k) != []
    ensures c in enabled && current.Get(c) != wanted.Get(c)
  {
    c := COLUMNS[k - 1];
    if !(c in enabled && current.Get(c) != wanted.Get(c)) {
      c := DifferenceHasCause(enabled, current, wanted, k - 1);
    }
  }

  /** A new role created with the listing has the wanted value in every enabled column. */
  lemma {:induction false} CreateOptionsReachesWanted(enabled: set<Column>, initial: Options, wanted: Options)
    ensures Assign(initial, Listing(enabled, wanted, |COLUMNS|)).Agrees(wanted, enabled)
  {
    forall c | c in enabled
      ensures Assign(initial, Listing(enabled, wanted, |COLUMNS|)).Get(c) == wanted.Get(c)
    {
      AssignListing(enabled, initial, wanted, |COLUMNS|, c);
    }
  }

  lemma {:induction false} AssignListing(enabled: set<Column>, o: Options, wanted: Options, k: nat, c: Column)
    requires k <= |COLUMNS|
    ensures Assign(o, Listing(enabled, wanted, k)).Get(c)
         == if c in enabled && Position(c) < k then wanted.Get(c) else o.Get(c)
  {
    hide Options.Get, Options.Set, Assign, Position;
    if k > 0 {
      var before, d := Listing(enabled, wanted, k - 1), COLUMNS[k - 1];
      AssignListing(enabled, o, wanted, k - 1, c);
      if d in enabled { AssignOne(o, before, d, wanted, c); }
      PositionOfColumn(k - 1);
    } else {
      AssignNone(o);
    }
  }

  lemma {:induction false} AssignNone(o: Options)
    ensures Assign(o, []) == o
  {
  }

  lemma {:induction false} AssignOne(o: Options, before: seq<Assignment>, d: Column, wanted: Options, c: Column)
    ensures Assign(o, before + [Assignment(d, wanted.Get(d))]).Get(c) == if c == d then wanted.Get(c) else Assign(o, before).Get(c)
  {
    AssignSnoc(o, before, Assignment(d, wanted.Get(d)));
    SetGet(Assign(o, before), d, wanted, c);
  }

  lemma {:induction false} PositionOfColumn(k: nat)
    requires k < |COLUMNS|
    ensures Position(COLUMNS[k]) == k
  {
  }

  /** Role.MissingParents: the memberships of others whose parent r does not have. */
  method MissingParents(r: seq<Membership>, others: seq<Membership>) returns (out: seq<Membership>)
    ensures out == Missing(r, others)
  {
    out := [];
    for i := 0 to |others|
      invariant out == Missing(r, others[..i])
    {
      var found := MemberOf(r, others[i].name);
      assert others[..i + 1][..i] == others[..i];
      if !found {
        out := out + [others[i]];
      }
    }
    assert others[..|others|] == others;
  }

  /** Role.MemberOf. */
  method MemberOf(r: seq<Membership>, parent: string) returns (found: bool)
    ensures found <==> parent in ParentNames(r)
  {
    for i := 0 to |r|
      invariant forall j :: 0 <= j < i ==> r[j].name != parent
    {
      if r[i].name == parent {
        assert r[i] in r;
        return true;
      }
    }
    return false;
  }

  function Missing(r: seq<Membership>, others: seq<Membership>): (out: seq<Membership>)
    ensures forall m :: m in out <==> m in others && m.name !in ParentNames(r)
  {
    if others == [] then []
    else
      var last := |others| - 1;
      Missing(r, others[..last]) + (if others[last].name !in ParentNames(r) then [others[last]] else [])
  }
}
