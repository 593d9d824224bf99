/** What the statements of Role.Alter and Role.Create do to a cluster. */
module RoleScripts {
  import opened Roles
  import opened RoleGraph
  import opened Postgres
  import opened RoleDiff
  import opened Collections

  function Joined(self: string, names: seq<string>): set<Membership> {
    set p | p in names :: Membership(self, p)
  }

  /** The row of an altered role. */
  ghost function Altered(self: string, enabled: set<Column>, r: Role, wanted: Role, p: PgRole): PgRole {
    PgRole(
      Assign(p.options, Differences(enabled, r.options, wanted.options, |COLUMNS|)),
      p.parents + Joined(self, Names(Missing(r.parents, wanted.parents))) - Elements(Missing(wanted.parents, r.parents)),
      wanted.comment,
      if wanted.config.Some? then wanted.config.value else p.config)
  }

  /** The row of a created role. */
  ghost function Created(self: string, enabled: set<Column>, wanted: Role): PgRole {
    PgRole(
      Assign(DEFAULTS, Listing(enabled, wanted.options, |COLUMNS|)),
      Joined(self, Names(wanted.parents)),
      wanted.comment,
      Settings(wanted))
  }

  lemma {:induction false} DifferencesAgree(enabled: set<Column>, a: Options, b: Options, wanted: Options, k: nat)
    requires k <= |COLUMNS| && a.Agrees(b, enabled)
    ensures Differences(enabled, a, wanted, k) == Differences(enabled, b, wanted, k)
  {
    if k > 0 {
      DifferencesAgree(enabled, a, b, wanted, k - 1);
    }
  }

  lemma {:induction false} NamesHolds(parents: seq<Membership>)
    ensures forall p :: p in Names(parents) <==> p in ParentNames(parents)
  {
    forall p | p in ParentNames(parents)
      ensures p in Names(parents)
    {
      var i :| 0 <= i < |parents| && parents[i].name == p;
      assert Names(parents)[i] == p;
    }
  }

  /** Whatever the role was, altering it gives what is wanted, and leaves the
      disabled options and, when no settings are wanted, the settings alone. */
  lemma {:induction false} AlteredMeets(self: string, enabled: set<Column>, r: Role, wanted: Role, p: PgRole)
    requires Shows(enabled, r, p)
    ensures Meets(enabled, Altered(self, enabled, r, wanted, p), wanted)
    ensures forall c :: c !in enabled ==> Altered(self, enabled, r, wanted, p).options.Get(c) == p.options.Get(c)
    ensures wanted.config.None? ==> Altered(self, enabled, r, wanted, p).config == p.config
  {
    DifferencesAgree(enabled, r.options, p.options, wanted.options, |COLUMNS|);
    AlterOptionsReachesWanted(enabled, p.options, wanted.options);
    AlteredParents(self, enabled, r, wanted, p);
  }

  lemma {:induction false} AlteredParents(self: string, enabled: set<Column>, r: Role, wanted: Role, p: PgRole)
    requires forall m :: m in r.parents <==> m in p.parents
    ensures NamesOf(Altered(self, enabled, r, wanted, p).parents) == ParentNames(wanted.parents)
  {
    var missing, spurious := Missing(r.parents, wanted.parents), Missing(wanted.parents, r.parents);
    var after := Altered(self, enabled, r, wanted, p).parents;
    NamesHolds(missing);
    forall n | n in ParentNames(wanted.parents)
      ensures n in NamesOf(after)
    {
      if n in ParentNames(r.parents) {
        var m :| m in r.parents && m.name == n;
        assert m in after;
      } else {
        var m :| m in wanted.parents && m.name == n;
        assert m in missing;
        assert n in ParentNames(missing);
        assert Membership(self, n) in after;
      }
    }
    forall n | n in NamesOf(after)
      ensures n in ParentNames(wanted.parents)
    {
      var m :| m in after && m.name == n;
      if m in p.parents {
        assert m in r.parents && m !in spurious;
      } else {
        assert m.name in ParentNames(missing);
      }
    }
  }

  lemma {:induction false} CreatedMeets(self: string, enabled: set<Column>, wanted: Role)
    ensures Meets(enabled, Created(self, enabled, wanted), wanted)
  {
    CreateOptionsReachesWanted(enabled, DEFAULTS, wanted.options);
    NamesHolds(wanted.parents);
    var after := Created(self, enabled, wanted).parents;
    forall n | n in ParentNames(wanted.parents)
      ensures n in NamesOf(after)
    {
      assert n in Names(wanted.parents);
      assert Membership(self, n) in after;
    }
  }

  /** Alter sends nothing exactly when the role is already as wanted. */
  lemma {:induction false} AlterIsIdle(enabled: set<Column>, r: Role, wanted: Role, p: PgRole, out: seq<Query>)
    requires Shows(enabled, r, p) && IsAlter(enabled, r, wanted, out)
    ensures out == [] <==> Meets(enabled, p, wanted)
  {
    DifferencesAgree(enabled, r.options, p.options, wanted.options, |COLUMNS|);
    AlterOptionsReachesWanted(enabled, p.options, wanted.options);
    assert NamesOf(p.parents) == ParentNames(r.parents) by {
      forall n | n in NamesOf(p.parents) ensures n in ParentNames(r.parents) { var m :| m in p.parents && m.name == n; assert m in r.parents; }
      forall n | n in ParentNames(r.parents) ensures n in NamesOf(p.parents) { var m :| m in r.parents && m.name == n; assert m in p.parents; }
    }
    HeadIsIdle(enabled, r, wanted);
    var head := AlterHead(enabled, r, wanted);
    assert out == head + out[|head|..];
    if wanted.config.Some? { NoSettingsIff(r.name, Settings(r), wanted.config.value, out[|head|..]); }
  }

  lemma {:induction false} HeadIsIdle(enabled: set<Column>, r: Role, wanted: Role)
    ensures AlterHead(enabled, r, wanted) == [] <==>
            && Differences(enabled, r.options, wanted.options, |COLUMNS|) == []
            && ParentNames(r.parents) == ParentNames(wanted.parents)
            && wanted.comment == r.comment
  {
    var missing, spurious := Missing(r.parents, wanted.parents), Missing(wanted.parents, r.parents);
    assert Revokes(r.name, spurious) == [] <==> spurious == [];
    NoneMissing(r.parents, wanted.parents);
    NoneMissing(wanted.parents, r.parents);
  }

  lemma {:induction false} NoneMissing(r: seq<Membership>, others: seq<Membership>)
    ensures Missing(r, others) == [] <==> ParentNames(others) <= ParentNames(r)
  {
    var missing := Missing(r, others);
    if missing != [] {
      assert missing[0] in missing;
      assert missing[0].name in ParentNames(others);
    } else {
      forall n | n in ParentNames(others)
        ensures n in ParentNames(r)
      {
        var m :| m in others && m.name == n;
        assert m !in missing;
      }
    }
  }

  // The statements are accepted and have that effect

  lemma {:induction false} PutSame(s: Cluster, name: string)
    requires name in s.roles
    ensures Put(s, name, s.roles[name]) == s
  {
    assert s.roles[name := s.roles[name]] == s.roles;
  }

  lemma {:induction false} PutTwice(s: Cluster, name: string, a: PgRole, b: PgRole)
    ensures Put(Put(s, name, a), name, b) == Put(s, name, b)
  {
    assert s.roles[name := a][name := b] == s.roles[name := b];
  }

  /** Settings statements change the settings and nothing else. */
  lemma {:induction false} ConfigRuns(self: string, s: Cluster, name: string, from: map<string, string>, to: map<string, string>, qs: seq<Query>)
    requires name in s.roles && s.roles[name].config == from && ConfigScript(name, from, to, qs)
    ensures Runs(self, s, qs, Put(s, name, s.roles[name].(config := to)))
  {
    var after := SettingsRun(self, s, name, qs);
    forall key: string
      ensures key in after <==> key in to
      ensures key in to ==> after[key] == to[key]
    {
      assert Get(after, key) == Setting(from, qs, key) == Get(to, key);
    }
    assert after == to;
  }

  lemma {:induction false} SettingsRun(self: string, s: Cluster, name: string, qs: seq<Query>) returns (after: map<string, string>)
    requires name in s.roles && forall i :: 0 <= i < |qs| ==> IsConfig(qs[i], name)
    ensures Runs(self, s, qs, Put(s, name, s.roles[name].(config := after)))
    ensures forall key :: Get(after, key) == Setting(s.roles[name].config, qs, key)
  {
    var p := s.roles[name];
    if qs == [] {
      PutSame(s, name);
      RunsNone(self, s);
      after := p.config;
    } else {
      var front, q := qs[..|qs| - 1], qs[|qs| - 1];
      var config := SettingsRun(self, s, name, front);
      assert IsConfig(q, name);
      after := if q.stmt.SetConfig? then config[q.stmt.key := q.stmt.value] else config - {q.stmt.key};
      RunsSnoc(self, s, front, Put(s, name, p.(config := config)), q);
      PutTwice(s, name, p.(config := config), p.(config := after));
      assert front + [q] == qs;
    }
  }

  lemma {:induction false} RevokesRun(self: string, s: Cluster, name: string, spurious: seq<Membership>)
    requires name in s.roles && forall m :: m in spurious ==> m.name in s.roles
    ensures Runs(self, s, Revokes(name, spurious), Put(s, name, s.roles[name].(parents := s.roles[name].parents - Elements(spurious))))
  {
    var p := s.roles[name];
    if spurious == [] {
      assert p.parents - Elements(spurious) == p.parents;
      PutSame(s, name);
      RunsNone(self, s);
    } else {
      var front, m := spurious[..|spurious| - 1], spurious[|spurious| - 1];
      RevokesRun(self, s, name, front);
      var t := Put(s, name, p.(parents := p.parents - Elements(front)));
      var q := Query("", RevokeParent(m.name, name, m.grantor));
      RunsSnoc(self, s, Revokes(name, front), t, q);
      assert p.parents - Elements(front) - {m} == p.parents - Elements(spurious);
      assert m in spurious;
      PutTwice(s, name, t.roles[name], p.(parents := p.parents - Elements(spurious)));
    }
  }

  /** The missing parents exist, and none of them is above its new member. */
  ghost predicate CanJoin(s: Cluster, parents: seq<string>, name: string) {
    forall p :: p in parents ==> p in s.roles && !Reaches(s, p, name)
  }

  /** Changing anything but memberships changes no walk. */
  lemma {:induction false} SameWalks(s: Cluster, name: string, r: PgRole, from: string, to: string)
    requires name in s.roles && r.parents == s.roles[name].parents
    requires Reaches(Put(s, name, r), from, to)
    ensures Reaches(s, from, to)
  {
    var t := Put(s, name, r);
    var path :| ClimbsTo(t, path, from, to);
    forall i | 0 < i < |path|
      ensures IsMember(s, path[i - 1], path[i])
    {
      assert IsMember(t, path[i - 1], path[i]);
    }
    assert ClimbsTo(s, path, from, to);
  }

  lemma {:induction false} OptionsRun(self: string, s: Cluster, enabled: set<Column>, r: Role, wanted: Role)
    requires r.name in s.roles
    ensures var p := s.roles[r.name];
            Runs(self, s, OptionsPart(enabled, r, wanted),
                 Put(s, r.name, p.(options := Assign(p.options, Differences(enabled, r.options, wanted.options, |COLUMNS|)))))
  {
    var changes := Differences(enabled, r.options, wanted.options, |COLUMNS|);
    if changes == [] {
      PutSame(s, r.name);
      RunsNone(self, s);
    } else {
      RunsOne(self, s, Query("", AlterOptions(r.name, changes)));
    }
  }

  lemma {:induction false} GrantRun(self: string, s: Cluster, r: Role, wanted: Role)
    requires r.name in s.roles && CanJoin(s, Names(Missing(r.parents, wanted.parents)), r.name)
    ensures var p := s.roles[r.name];
            Runs(self, s, GrantPart(r, wanted),
                 Put(s, r.name, p.(parents := p.parents + Joined(self, Names(Missing(r.parents, wanted.parents))))))
  {
    var p, missing := s.roles[r.name], Missing(r.parents, wanted.parents);
    if missing == [] {
      assert p.parents + Joined(self, Names(missing)) == p.parents;
      PutSame(s, r.name);
      RunsNone(self, s);
    } else {
      RunsOne(self, s, Query("", GrantParents(Names(missing), r.name)));
    }
  }

  lemma {:induction false} CommentRun(self: string, s: Cluster, r: Role, wanted: Role)
    requires r.name in s.roles && s.roles[r.name].comment == r.comment
    ensures Runs(self, s, CommentPart(r, wanted), Put(s, r.name, s.roles[r.name].(comment := wanted.comment)))
  {
    if wanted.comment == r.comment {
      PutSame(s, r.name);
      RunsNone(self, s);
    } else {
      RunsOne(self, s, Query("", CommentOn(r.name, wanted.comment)));
    }
  }

  /** Alter: every statement is accepted and only the role's own row changes. */
  lemma {:induction false} AlterRuns(self: string, s: Cluster, enabled: set<Column>, r: Role, wanted: Role, out: seq<Query>)
    requires r.name in s.roles && Shows(enabled, r, s.roles[r.name]) && IsAlter(enabled, r, wanted, out)
    requires NamesOf(s.roles[r.name].parents) <= s.roles.Keys
    requires CanJoin(s, Names(Missing(r.parents, wanted.parents)), r.name)
    ensures Runs(self, s, out, Put(s, r.name, Altered(self, enabled, r, wanted, s.roles[r.name])))
  {
    var n, p, head := r.name, s.roles[r.name], AlterHead(enabled, r, wanted);
    HeadRuns(self, s, enabled, r, wanted);
    var p4 := Altered(self, enabled, r, wanted, p).(config := p.config);
    var s4 := Put(s, n, p4);
    if wanted.config.Some? {
      ConfigRuns(self, s4, n, p.config, wanted.config.value, out[|head|..]);
      PutTwice(s, n, p4, Altered(self, enabled, r, wanted, p));
      RunsConcat(self, s, head, s4, out[|head|..], Put(s4, n, p4.(config := wanted.config.value)));
      assert head + out[|head|..] == out;
    }
  }

  lemma {:induction false} HeadRuns(self: string, s: Cluster, enabled: set<Column>, r: Role, wanted: Role)
    requires r.name in s.roles && Shows(enabled, r, s.roles[r.name])
    requires NamesOf(s.roles[r.name].parents) <= s.roles.Keys
    requires CanJoin(s, Names(Missing(r.parents, wanted.parents)), r.name)
    ensures var p := s.roles[r.name];
            Runs(self, s, AlterHead(enabled, r, wanted), Put(s, r.name, Altered(self, enabled, r, wanted, p).(config := p.config)))
  {
    hide Missing, Assign;
    var n, p := r.name, s.roles[r.name];
    var missing, spurious := Names(Missing(r.parents, wanted.parents)), Missing(wanted.parents, r.parents);
    JoinRuns(self, s, enabled, r, wanted);
    var p2 := p.(options := Assign(p.options, Differences(enabled, r.options, wanted.options, |COLUMNS|)),
                 parents := p.parents + Joined(self, missing));
    var p4 := p2.(parents := p2.parents - Elements(spurious), comment := wanted.comment);
    var tail := Revokes(n, spurious) + CommentPart(r, wanted);
    TailRuns(self, Put(s, n, p2), r, wanted);
    PutTwice(s, n, p2, p4);
    RunsConcat(self, s, OptionsPart(enabled, r, wanted) + GrantPart(r, wanted), Put(s, n, p2), tail, Put(s, n, p4));
    assert OptionsPart(enabled, r, wanted) + GrantPart(r, wanted) + tail == AlterHead(enabled, r, wanted);
  }

  lemma {:induction false} JoinRuns(self: string, s: Cluster, enabled: set<Column>, r: Role, wanted: Role)
    requires r.name in s.roles && CanJoin(s, Names(Missing(r.parents, wanted.parents)), r.name)
    ensures var p := s.roles[r.name];
            Runs(self, s, OptionsPart(enabled, r, wanted) + GrantPart(r, wanted),
                 Put(s, r.name, p.(options := Assign(p.options, Differences(enabled, r.options, wanted.options, |COLUMNS|)),
                                   parents := p.parents + Joined(self, Names(Missing(r.parents, wanted.parents))))))
  {
    var n, p, missing := r.name, s.roles[r.name], Names(Missing(r.parents, wanted.parents));
    var p1 := p.(options := Assign(p.options, Differences(enabled, r.options, wanted.options, |COLUMNS|)));
    var s1, p2 := Put(s, n, p1), p1.(parents := p.parents + Joined(self, missing));
    OptionsRun(self, s, enabled, r, wanted);
    forall q | q in missing
      ensures q in s1.roles && !Reaches(s1, q, n)
    {
      if Reaches(s1, q, n) { SameWalks(s, n, p1, q, n); }
    }
    GrantRun(self, s1, r, wanted);
    PutTwice(s, n, p1, p2);
    RunsConcat(self, s, OptionsPart(enabled, r, wanted), s1, GrantPart(r, wanted), Put(s, n, p2));
  }

  lemma {:induction false} TailRuns(self: string, s: Cluster, r: Role, wanted: Role)
    requires r.name in s.roles && s.roles[r.name].comment == r.comment
    requires ParentNames(r.parents) <= s.roles.Keys
    ensures var p, spurious := s.roles[r.name], Missing(wanted.parents, r.parents);
            Runs(self, s, Revokes(r.name, spurious) + CommentPart(r, wanted),
                 Put(s, r.name, p.(parents := p.parents - Elements(spurious), comment := wanted.comment)))
  {
    var n, p, spurious := r.name, s.roles[r.name], Missing(wanted.parents, r.parents);
    forall m | m in spurious
      ensures m.name in s.roles
    {
      assert m.name in ParentNames(r.parents);
    }
    RevokesRun(self, s, n, spurious);
    var p1 := p.(parents := p.parents - Elements(spurious));
    CommentRun(self, Put(s, n, p1), r, wanted);
    PutTwice(s, n, p1, p1.(comment := wanted.comment));
    RunsConcat(self, s, Revokes(n, spurious), Put(s, n, p1), CommentPart(r, wanted), Put(s, n, p1.(comment := wanted.comment)));
  }

  lemma {:induction false} HookRuns(self: string, s: Cluster, sql: string)
    ensures Runs(self, s, HookPart(sql), s)
  {
    if sql != "" { RunsOne(self, s, Query("", Hook(sql))); } else { RunsNone(self, s); }
  }

  function NewRoleQuery(enabled: set<Column>, wanted: Role): Query {
    Query("", NewRole(wanted.name, Listing(enabled, wanted.options, |COLUMNS|), Names(wanted.parents)))
  }

  lemma {:induction false} BareCreateRuns(self: string, s: Cluster, enabled: set<Column>, wanted: Role)
    requires wanted.name !in s.roles && ParentNames(wanted.parents) <= s.roles.Keys
    ensures Runs(self, s, HookPart(wanted.beforeCreate) + [NewRoleQuery(enabled, wanted), Query("", CommentOn(wanted.name, wanted.comment))],
                 Put(s, wanted.name, Created(self, enabled, wanted).(config := map[])))
  {
    var n, before := wanted.name, HookPart(wanted.beforeCreate);
    var create, comment := NewRoleQuery(enabled, wanted), Query("", CommentOn(n, wanted.comment));
    HookRuns(self, s, wanted.beforeCreate);
    NamesHolds(wanted.parents);
    var p2 := Created(self, enabled, wanted).(config := map[]);
    var p1 := p2.(comment := "");
    RunsSnoc(self, s, before, s, create);
    RunsSnoc(self, s, before + [create], Put(s, n, p1), comment);
    PutTwice(s, n, p1, p2);
    assert before + [create] + [comment] == before + [create, comment];
  }

  /** Create: every statement is accepted and only the new row is added. */
  lemma {:induction false} CreateRuns(self: string, s: Cluster, enabled: set<Column>, wanted: Role, out: seq<Query>)
    requires wanted.name !in s.roles && IsCreate(enabled, wanted, out)
    requires ParentNames(wanted.parents) <= s.roles.Keys
    ensures Runs(self, s, out, Put(s, wanted.name, Created(self, enabled, wanted)))
  {
    var settings :| ConfigScript(wanted.name, map[], Settings(wanted), settings) && out == CreateWith(enabled, wanted, settings);
    var n, after := wanted.name, Created(self, enabled, wanted);
    var p2 := after.(config := map[]);
    var head := HookPart(wanted.beforeCreate) + [NewRoleQuery(enabled, wanted), Query("", CommentOn(n, wanted.comment))];
    BareCreateRuns(self, s, enabled, wanted);
    ConfigRuns(self, Put(s, n, p2), n, map[], Settings(wanted), settings);
    PutTwice(s, n, p2, after);
    RunsConcat(self, s, head, Put(s, n, p2), settings, Put(s, n, after));
    HookRuns(self, Put(s, n, after), wanted.afterCreate);
    RunsConcat(self, s, head + settings, Put(s, n, after), HookPart(wanted.afterCreate), Put(s, n, after));
    assert head + settings + HookPart(wanted.afterCreate) == out;
  }
}
