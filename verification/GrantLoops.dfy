/** Exactly when a run goes through: each membership it grants must close no loop. */
module GrantLoops {
  import opened Roles
  import opened RoleGraph
  import opened Postgres
  import opened RoleDiff
  import opened RoleScripts
  import opened Regroup
  import opened Collections
  import opened RoleRun
  import opened Convergence
  import TopoSort

  // A run that goes through has closed no loop

  lemma {:induction false} OneRan(self: string, s: Cluster, q: Query, t: Cluster)
    requires Runs(self, s, [q], t)
    ensures Accepts(s, q)
  {
    var trace :| IsTrace(self, trace, [q], s, t);
    assert StepAt(self, trace, [q], 0);
  }

  /** Role.Alter went through: whoever it granted was not below the role. */
  lemma {:induction false} AlterRan(self: string, s: Cluster, enabled: set<Column>, r: Role, wanted: Role, out: seq<Query>, t: Cluster)
    requires r.name in s.roles && IsAlter(enabled, r, wanted, out) && Runs(self, s, out, t)
    ensures CanJoin(s, Names(Missing(r.parents, wanted.parents)), r.name)
  {
    var missing := Missing(r.parents, wanted.parents);
    if missing != [] {
      var options, grant := OptionsPart(enabled, r, wanted), Query("", GrantParents(Names(missing), r.name));
      var rest := out[|options| + 1..];
      GrantIsNext(enabled, r, wanted, out, options, grant);
      var u := RunsSplit(self, s, options, [grant] + rest, t);
      var v := RunsSplit(self, u, [grant], rest, t);
      OneRan(self, u, grant, v);
      OptionsRun(self, s, enabled, r, wanted);
      var p := s.roles[r.name];
      var p1 := p.(options := Assign(p.options, Differences(enabled, r.options, wanted.options, |COLUMNS|)));
      RunsUnique(self, s, options, u, Put(s, r.name, p1));
      CouldJoin(s, r.name, p1, Names(missing));
    }
  }

  lemma {:induction false} GrantIsNext(enabled: set<Column>, r: Role, wanted: Role, out: seq<Query>, options: seq<Query>, grant: Query)
    requires IsAlter(enabled, r, wanted, out) && Missing(r.parents, wanted.parents) != []
    requires options == OptionsPart(enabled, r, wanted)
    requires grant == Query("", GrantParents(Names(Missing(r.parents, wanted.parents)), r.name))
    ensures |options| < |out| && out == options + ([grant] + out[|options| + 1..])
  {
    hide Missing, Setting, OptionsPart, CommentPart;
    var head := AlterHead(enabled, r, wanted);
    assert GrantPart(r, wanted) == [grant];
    assert head[..|options|] == options && head[|options|] == grant;
    assert out[..|options|] == out[..|head|][..|options|] && out[|options|] == out[..|head|][|options|];
  }

  lemma {:induction false} CouldJoin(s: Cluster, name: string, r: PgRole, parents: seq<string>)
    requires name in s.roles && r.parents == s.roles[name].parents && CanJoin(Put(s, name, r), parents, name)
    ensures CanJoin(s, parents, name)
  {
    forall p | p in parents ensures p in s.roles && !Reaches(s, p, name) {
      if Reaches(s, p, name) {
        PutSame(s, name);
        PutTwice(s, name, r, s.roles[name]);
        SameWalks(Put(s, name, r), name, s.roles[name], p, name);
      }
    }
  }

  lemma {:induction false} TurnRan(run: Session, s: Cluster, k: nat, t: Cluster)
    requires IsRun(run) && s.roles == run.start.roles && k < |run.plan.names|
    requires forall i :: 0 <= i < |run.plan.names| ==> run.plan.names[i] in run.wanted
    requires Runs(run.self, AfterFirst(run, s, k), run.plan.scripts[k], t)
    ensures TurnIsSafe(run, run.plan.names, k)
  {
    var n := run.plan.names[k];
    if n in run.all {
      var r, wanted := run.all[n], run.wanted[n];
      UntouchedYet(run, s, k);
      assert RoleScript(run.enabled, run.all, wanted, run.plan.scripts[k]);
      AlterRan(run.self, AfterFirst(run, s, k), run.enabled, r, wanted, run.plan.scripts[k], t);
      NamesHolds(Missing(r.parents, wanted.parents));
      forall p | IsGranted(run, n, p) ensures !ReachesWith(run, Elements(run.plan.names[..k]), p, n) {
        var m :| m in wanted.parents && m.name == p;
        assert m in Missing(r.parents, wanted.parents);
        WalksAfter(run, s, k, p, n);
      }
    }
  }

  lemma {:induction false} FlatRan(self: string, s: Cluster, scripts: seq<seq<Query>>, k: nat, t: Cluster) returns (u: Cluster)
    requires k <= |scripts| && Runs(self, s, Flat(scripts, |scripts|), t)
    ensures Runs(self, s, Flat(scripts, k), u)
    decreases |scripts| - k
  {
    if k == |scripts| {
      u := t;
    } else {
      var v := FlatRan(self, s, scripts, k + 1, t);
      u := RunsSplit(self, s, Flat(scripts, k), scripts[k], v);
    }
  }

  lemma {:induction false} TurnsRan(run: Session, s: Cluster, t: Cluster, k: nat)
    requires IsRun(run) && s.roles == run.start.roles && k <= |run.plan.names|
    requires forall i :: 0 <= i < |run.plan.names| ==> run.plan.names[i] in run.wanted
    requires Runs(run.self, s, Flat(run.plan.scripts, |run.plan.scripts|), t)
    ensures SafeTo(run, run.plan.names, k)
  {
    hide IsRun;
    if k > 0 {
      TurnsRan(run, s, t, k - 1);
      NextTurnRan(run, s, t, k - 1);
      OneMoreIsSafe(run, run.plan.names, k - 1);
    }
  }

  ghost predicate SafeTo(run: Session, names: seq<string>, k: nat)
    requires k <= |names|
  {
    forall i: nat :: i < k ==> TurnIsSafe(run, names, i)
  }

  lemma {:induction false} OneMoreIsSafe(run: Session, names: seq<string>, k: nat)
    requires k < |names| && SafeTo(run, names, k) && TurnIsSafe(run, names, k)
    ensures SafeTo(run, names, k + 1)
  {
  }

  lemma {:induction false} NextTurnRan(run: Session, s: Cluster, t: Cluster, k: nat)
    requires IsRun(run) && s.roles == run.start.roles && k < |run.plan.names|
    requires forall i :: 0 <= i < |run.plan.names| ==> run.plan.names[i] in run.wanted
    requires Runs(run.self, s, Flat(run.plan.scripts, |run.plan.scripts|), t)
    requires SafeTo(run, run.plan.names, k)
    ensures TurnIsSafe(run, run.plan.names, k)
  {
    hide Inspected, WantedIsPossible, IsTrace, Elements, RoleScript;
    forall i: nat | i < k ensures TurnRuns(run, s, i) { SafeTurnRuns(run, s, i); }
    TurnsRun(run, s, k);
    var v := FlatRan(run.self, s, run.plan.scripts, k + 1, t);
    var u := RunsSplit(run.self, s, Flat(run.plan.scripts, k), run.plan.scripts[k], v);
    RunsUnique(run.self, s, Flat(run.plan.scripts, k), u, AfterFirst(run, s, k));
    TurnRan(run, s, k, v);
  }

  lemma {:induction false} RunIsSafe(run: Session, t: Cluster)
    requires IsRun(run) && Runs(run.self, run.start, run.Executed(), t)
    ensures OrderIsSafe(run, run.plan.names)
  {
    var others := Grouped(run.order, |run.order| - 1, Resolved(run));
    DefaultIsLast(run.order, run.start.databases.Keys, run.default);
    var s := OthersRun(run);
    var u := RunsSplit(run.self, run.start, others, Of(Resolved(run), run.default), t);
    RunsUnique(run.self, run.start, others, u, s);
    var head, dts, turns := DefaultShare(run);
    var v := RunsSplit(run.self, s, head, Flat(turns, |turns|), t);
    SameStmtsBack(Flat(run.plan.scripts, |run.plan.scripts|), head);
    SameRuns(run.self, s, head, Flat(run.plan.scripts, |run.plan.scripts|), v);
    NamesAreWanted(run.wanted, run.plan.names);
    TurnsRan(run, s, v, |run.plan.names|);
  }

  lemma {:induction false} SameStmtsBack(a: seq<Query>, b: seq<Query>)
    requires SameStmts(a, b)
    ensures SameStmts(b, a)
  {
    forall i: nat | i < |b| ensures SameStmt(b[i], a[i]) { assert SameStmt(a[i], b[i]); }
  }

  /** A run goes through exactly when its order is safe; and then the cluster has converged. */
  lemma {:induction false} RunsThroughIff(run: Session)
    requires IsRun(run)
    ensures (exists t :: Runs(run.self, run.start, run.Executed(), t)) <==> OrderIsSafe(run, run.plan.names)
    ensures forall t :: Runs(run.self, run.start, run.Executed(), t) ==> Converged(run, t)
  {
    if OrderIsSafe(run, run.plan.names) { var t := SafeRunConverges(run); }
    forall t | Runs(run.self, run.start, run.Executed(), t) ensures OrderIsSafe(run, run.plan.names) && Converged(run, t) {
      RunIsSafe(run, t);
      var u := SafeRunConverges(run);
      RunsUnique(run.self, run.start, run.Executed(), t, u);
    }
  }

  // Every order that ComesNext speaks of is one that Flatten can give

  lemma {:induction false} Listed(names: set<string>) returns (list: seq<string>)
    ensures Distinct(list) && Elements(list) == names
  {
    if names == {} {
      list := [];
    } else {
      var n :| n in names;
      var rest := Listed(names - {n});
      list := [n] + rest;
      assert Elements(list) == {n} + Elements(rest);
    }
  }

  /** No walk leaves a set of names that holds their known parents. */
  lemma {:induction false} StaysIn(g: TopoSort.Graph, inside: set<string>, path: seq<string>)
    requires TopoSort.IsPath(g, path) && path[0] in inside && path[|path| - 1] in g
    requires forall a, b :: a in inside && a in g && b in g[a] && b in g ==> b in inside
    ensures path[|path| - 1] in inside
    decreases |path|
  {
    if |path| > 1 {
      assert TopoSort.Edge(g, path[1 - 1], path[1]);
      var rest := path[1..];
      forall i | 0 < i < |rest| ensures TopoSort.Edge(g, rest[i - 1], rest[i]) { assert TopoSort.Edge(g, path[i + 1 - 1], path[i + 1]); }
      if |rest| > 1 { assert TopoSort.Edge(g, rest[1 - 1], rest[1]); }
      StaysIn(g, inside, rest);
    }
  }

  lemma {:induction false} VisitsInside(g: TopoSort.Graph, names: seq<string>, k: nat, bound: nat, inside: set<string>)
    requires TopoSort.Acyclic(g) && TopoSort.Bounded(g, names, bound) && k <= |names|
    requires forall i :: 0 <= i < k ==> names[i] in inside
    requires forall a, b :: a in inside && a in g && b in g[a] && b in g ==> b in inside
    ensures forall n :: n in TopoSort.VisitFirst(g, names, k, {}, bound) ==> n in inside
  {
    var order := TopoSort.VisitFirst(g, names, k, {}, bound);
    TopoSort.VisitFirstSound(g, names, k, {}, bound);
    forall n | n in order ensures n in inside {
      var j: nat :| j < |order| && order[j] == n;
      assert TopoSort.ReadyAt(g, order, j, {});
      var i := TopoSort.VisitFirstFrom(g, names, k, {}, bound, n);
      var path :| TopoSort.Leads(g, path, names[i], n);
      StaysIn(g, inside, path);
    }
  }

  lemma {:induction false} VisitGrows(g: TopoSort.Graph, names: seq<string>, j: nat, k: nat, bound: nat)
    requires TopoSort.Acyclic(g) && TopoSort.Bounded(g, names, bound) && j <= k <= |names|
    ensures TopoSort.VisitFirst(g, names, j, {}, bound) <= TopoSort.VisitFirst(g, names, k, {}, bound)
  {
    if j < k { VisitGrows(g, names, j, k - 1, bound); }
  }

  lemma {:induction false} VisitsNoSeen(g: TopoSort.Graph, names: seq<string>, k: nat, seen: set<string>, bound: nat)
    requires TopoSort.Acyclic(g) && TopoSort.Bounded(g, names, bound) && k <= |names|
    requires forall i :: 0 <= i < k && names[i] in g ==> names[i] in seen
    ensures TopoSort.VisitFirst(g, names, k, seen, bound) == []
  {
    if k > 0 { VisitsNoSeen(g, names, k - 1, seen, bound); }
  }

  /** The names Flatten gives when the map yields done first, then n. */
  lemma {:induction false} FlattensNext(run: Session, done: set<string>, n: string) returns (names: seq<string>)
    requires WellKeyed(run.wanted) && TopoSort.Acyclic(GraphOf(run.wanted)) && ComesNext(run, done, n)
    ensures IsFlattening(run.wanted, names) && |done| < |names| && names[|done|] == n && Elements(names[..|done|]) == done
  {
    hide IsFlattening, ComesNext, TopoSort.VisitFirst, TopoSort.Bounded, TopoSort.Acyclic, GraphOf;
    var g := GraphOf(run.wanted);
    GraphKeys(run, done, n);
    var first, keys := KeysInOrder(g.Keys, done, n);
    TopoSort.AllBounded(g, keys);
    names := TopoSort.VisitFirst(g, keys, |keys|, {}, |g.Keys|);
    TopoSort.TraversalIsTopological(g, keys);
    ReadinessOfParents(run.wanted, names);
    ClosedInGraph(run, done, n);
    var before := FirstVisits(g, keys, first, n, done);
    VisitGrows(g, keys, |first| + 1, |keys|, |g.Keys|);
    PrefixIs(before, n, names);
  }

  lemma {:induction false} GraphKeys(run: Session, done: set<string>, n: string)
    requires ComesNext(run, done, n)
    ensures GraphOf(run.wanted).Keys == run.wanted.Keys && done <= run.wanted.Keys && n in run.wanted && n !in done
  {
  }

  lemma {:induction false} KeysInOrder(all: set<string>, done: set<string>, n: string) returns (first: seq<string>, keys: seq<string>)
    requires done <= all && n in all && n !in done
    ensures Elements(first) == done && Elements(keys) == all
    ensures |first| < |keys| && keys[..|first|] == first && keys[|first|] == n
  {
    first := Listed(done);
    var rest := Listed(all - done - {n});
    keys := first + [n] + rest;
    assert Elements(keys) == Elements(first) + {n} + Elements(rest);
  }

  lemma {:induction false} PrefixIs(before: seq<string>, n: string, names: seq<string>)
    requires before + [n] <= names
    ensures |before| < |names| && names[|before|] == n && names[..|before|] == before
  {
  }

  lemma {:induction false} ClosedInGraph(run: Session, done: set<string>, n: string)
    requires ComesNext(run, done, n)
    ensures var g := GraphOf(run.wanted);
      forall a, b :: a in done + {n} && a in g && b in g[a] && b in g ==> b in done
  {
    var g := GraphOf(run.wanted);
    forall a, b | a in done + {n} && a in g && b in g[a] && b in g ensures b in done {
      NamesHolds(run.wanted[a].parents);
    }
  }

  lemma {:induction false} FirstVisits(g: TopoSort.Graph, keys: seq<string>, first: seq<string>, n: string, done: set<string>)
    returns (before: seq<string>)
    requires TopoSort.Acyclic(g) && TopoSort.Bounded(g, keys, |g.Keys|)
    requires |first| < |keys| && keys[..|first|] == first && keys[|first|] == n && n in g && n !in done
    requires Elements(first) == done <= g.Keys
    requires forall a, b :: a in done + {n} && a in g && b in g[a] && b in g ==> b in done
    ensures Elements(before) == done && |before| == |done|
    ensures TopoSort.VisitFirst(g, keys, |first| + 1, {}, |g.Keys|) == before + [n]
  {
    before := TopoSort.VisitFirst(g, keys, |first|, {}, |g.Keys|);
    forall i | 0 <= i < |first| ensures keys[i] in done { assert keys[i] == first[i] && first[i] in Elements(first); }
    VisitsInside(g, keys, |first|, |g.Keys|, done);
    TopoSort.VisitFirstSound(g, keys, |first|, {}, |g.Keys|);
    forall x | x in done ensures x in before {
      var i :| 0 <= i < |first| && first[i] == x;
      assert keys[i] == x;
    }
    DistinctCount(before);
    TopoSort.ParentsBounded(g, n);
    VisitsNoSeen(g, g[n], |g[n]|, {} + Elements(before), TopoSort.Height(g, n));
  }

  lemma {:induction false} DistinctCount(s: seq<string>)
    requires Distinct(s)
    ensures |Elements(s)| == |s|
  {
    if s != [] {
      var front, x := s[..|s| - 1], s[|s| - 1];
      DistinctCount(front);
      assert Elements(s) == Elements(front) + {x} && x !in Elements(front);
    }
  }

  /** The condition is exact: it holds if and only if every order of the wanted roles, parents
      first, is safe. */
  lemma {:induction false} ClosesNoLoopIff(run: Session)
    requires WellKeyed(run.wanted) && TopoSort.Acyclic(GraphOf(run.wanted))
    ensures ClosesNoLoop(run) <==> forall names :: IsFlattening(run.wanted, names) ==> OrderIsSafe(run, names)
  {
    if ClosesNoLoop(run) {
      forall names | IsFlattening(run.wanted, names) ensures OrderIsSafe(run, names) { EveryOrderIsSafe(run, names); }
    } else {
      var n, p, done :| IsGranted(run, n, p) && ComesNext(run, done, n) && ReachesWith(run, done, p, n);
      var names := FlattensNext(run, done, n);
      assert !TurnIsSafe(run, names, |done|);
    }
  }
}
