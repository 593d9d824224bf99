/** The role stage of a run (internal/cmd/ldap2pg.go): check, compare, regroup. */
module RoleSync {
  import opened Roles
  import opened RoleGraph
  import opened Postgres
  import opened RoleDiff
  import opened Regroup
  import opened Collections
  import opened RoleRun
  import opened Convergence
  import TopoSort

  /** What a run starts from; the plan and the order of databases are still to be made. */
  ghost predicate CanStart(run: Session) {
    && Consistent(run.start)
    && Inspected(run.enabled, run.blacklist, run.start, run.all)
    && WantedIsPossible(run)
    && run.default in run.start.databases
    && "" !in run.start.databases && "<first>" !in run.start.databases
  }

  /** The statements to execute, or the loop found: wanted roles without loops are compared
      with the inspected ones, and the statements regrouped by database. Executed on the cluster
      the run starts from, they are all accepted and make it converge, unless a grant closes a
      loop there. */
  method SyncRoles(ghost input: Session, enabled: set<Column>, all: RoleMap, managed: set<string>, wanted: RoleMap,
    fallback: string, default: string, databases: Registry)
    returns (err: Option<seq<string>>, out: seq<Query>, ghost run: Session)
    requires WellKeyed(wanted) && WellKeyed(all)
    requires input.enabled == enabled && input.all == all && input.managed == managed && input.wanted == wanted
    requires input.fallback == fallback && input.default == default && input.start.databases == databases.owners
    modifies databases
    ensures err.Some? <==> !TopoSort.Acyclic(GraphOf(wanted))
    ensures err.None? ==> run == input.(plan := run.plan, order := run.order)
    ensures err.None? && CanStart(input) ==> Achieves(input, run, out)
  {
    hide CanStart, Achieves, IsPlan, PlanQueries, ResolveAll, Grouped, IsSyncOrder;
    run, out := input, [];
    err := Check(wanted);
    if err.Some? { return; }
    var sent;
    ghost var plan;
    sent, plan := Diff(enabled, all, managed, wanted, fallback, databases);
    var grouped, order := GroupByDatabase(databases.owners.Keys, default, sent);
    run := input.(plan := plan, order := order);
    if grouped.Some? { out := grouped.value; }
    if CanStart(input) {
      HasDatabases(input);
      Achieved(input, run, sent, out);
    }
  }

  /** out is what the run executes; and it is all accepted and the cluster converges, if no
      grant can close a loop. */
  ghost predicate Achieves(input: Session, run: Session, out: seq<Query>) {
    && IsRun(run) && out == run.Executed()
    && (ClosesNoLoop(input) ==> exists t :: Runs(input.self, input.start, out, t) && Converged(run, t))
  }

  lemma {:induction false} HasDatabases(input: Session)
    requires CanStart(input)
    ensures input.default in input.start.databases
  {
  }

  lemma {:induction false} Achieved(input: Session, run: Session, sent: seq<Query>, out: seq<Query>)
    requires CanStart(input) && run == input.(plan := run.plan, order := run.order)
    requires IsPlan(run.enabled, run.all, run.managed, run.wanted, run.start.databases, run.plan)
    requires sent == run.Sent() && IsSyncOrder(run.order, run.start.databases.Keys, run.default, false)
    requires out == Grouped(run.order, |run.order|, ResolveAll(sent, run.order, run.default))
    ensures Achieves(input, run, out)
  {
    SamePossibility(input, run);
    if ClosesNoLoop(input) {
      SameCondition(input, run);
      var t := RunConverges(run);
    }
  }

  lemma {:induction false} SamePossibility(a: Session, b: Session)
    requires b == a.(plan := b.plan, order := b.order) && WantedIsPossible(a)
    ensures WantedIsPossible(b)
  {
    forall n, p | n in b.wanted && p in ParentNames(b.wanted[n].parents) ensures ParentStands(b, p) {
      assert ParentStands(a, p);
    }
  }

  /** The condition on grants does not depend on the plan. */
  lemma {:induction false} SameCondition(a: Session, b: Session)
    requires b == a.(plan := b.plan, order := b.order) && ClosesNoLoop(a)
    ensures ClosesNoLoop(b)
  {
    forall n, p, done | IsGranted(b, n, p) && ComesNext(b, done, n) ensures !ReachesWith(b, done, p, n) {
      assert IsGranted(a, n, p) && ComesNext(a, done, n);
      if ReachesWith(b, done, p, n) {
        var path :| LeadsWith(b, done, path, p, n);
        forall i: nat | 0 < i < |path| ensures IsMemberWith(a, done, path[i - 1], path[i]) {
          assert IsMemberWith(b, done, path[i - 1], path[i]);
        }
        assert LeadsWith(a, done, path, p, n);
      }
    }
  }
}
