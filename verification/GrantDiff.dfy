/** Privilege synchronisation (diff; internal/privileges/sync.go), on the rows that
    inspection finds. */
module GrantDiff {
  import opened Grants
  import opened Collections

  datatype Stmt = Revoke(grant: Grant) | Give(grant: Grant)

  /** GRANT completes a partial grant; REVOKE removes it, complete or not. */
  function Step(rows: set<Grant>, stmt: Stmt): set<Grant> {
    var g := stmt.grant.Complete();
    match stmt
    case Revoke(_) => rows - {g, g.(partial := true)}
    case Give(_) => rows - {g.(partial := true)} + {g}
  }

  function Run(rows: set<Grant>, stmts: seq<Stmt>, k: nat): set<Grant>
    requires k <= |stmts|
  {
    if k == 0 then rows else Step(Run(rows, stmts, k - 1), stmts[k - 1])
  }

  // What is revoked and what is granted

  ghost predicate IsSpurious(wanted: seq<Grant>, g: Grant) {
    g.Complete() !in wanted && g.kind != ""
  }

  ghost predicate IsMissing(current: seq<Grant>, g: Grant) {
    g !in current && g.Irrelevant() !in current
  }

  ghost function Revokes(current: seq<Grant>, wanted: seq<Grant>, k: nat): seq<Stmt>
    requires k <= |current|
  {
    if k == 0 then []
    else Revokes(current, wanted, k - 1) + if IsSpurious(wanted, current[k - 1]) then [Revoke(current[k - 1])] else []
  }

  ghost function Gives(current: seq<Grant>, wanted: seq<Grant>, k: nat): seq<Stmt>
    requires k <= |wanted|
  {
    if k == 0 then []
    else Gives(current, wanted, k - 1) + if IsMissing(current, wanted[k - 1]) then [Give(wanted[k - 1])] else []
  }

  /** diff: first every spurious grant is revoked, then every missing one granted. */
  method Diff(current: seq<Grant>, wanted: seq<Grant>) returns (out: seq<Stmt>)
    ensures out == Revokes(current, wanted, |current|) + Gives(current, wanted, |wanted|)
  {
    out := [];
    var wantedSet := set g | g in wanted;
    for i := 0 to |current|
      invariant out == Revokes(current, wanted, i)
    {
      var wantedGrant := current[i].(partial := false);
      if !(wantedGrant in wantedSet || current[i].kind == "") {
        out := out + [Revoke(current[i])];
      }
    }
    var currentSet := set g | g in current;
    ghost var revokes := out;
    for i := 0 to |wanted|
      invariant out == revokes + Gives(current, wanted, i)
    {
      if wanted[i] in currentSet { continue; }
      var wildcardGrant := wanted[i].(grantee := "public", kind := "");
      if wildcardGrant in currentSet { continue; }
      out := out + [Give(wanted[i])];
    }
  }

  // What the statements do

  /** The first k rows, as complete grants. */
  function Completed(rows: seq<Grant>, k: nat): set<Grant>
    requires k <= |rows|
  {
    if k == 0 then {} else Completed(rows, k - 1) + {rows[k - 1].Complete()}
  }

  lemma {:induction false} CompletedHas(rows: seq<Grant>, k: nat, i: nat)
    requires i < k <= |rows|
    ensures rows[i].Complete() in Completed(rows, k)
  {
    if i < k - 1 { CompletedHas(rows, k - 1, i); }
  }

  lemma {:induction false} RevokesRun(current: seq<Grant>, wanted: seq<Grant>, rows: set<Grant>, k: nat, g: Grant)
    requires k <= |current|
    ensures var stmts := Revokes(current, wanted, k);
            g in Run(rows, stmts, |stmts|) <==> g in rows && !(IsSpurious(wanted, g) && g.Complete() in Completed(current, k))
  {
    if k > 0 {
      RevokesRun(current, wanted, rows, k - 1, g);
      var before, r := Revokes(current, wanted, k - 1), current[k - 1];
      assert before + [] == before;
      if IsSpurious(wanted, r) {
        RunOne(rows, before, Revoke(r));
        assert g == g.Complete() || g == g.Complete().(partial := true);
      }
      assert r.Complete() == g.Complete() ==> r.kind == g.kind by { assert r.Complete().kind == r.kind && g.Complete().kind == g.kind; }
    }
  }

  /** Wanted grants are complete. */
  ghost predicate AreComplete(wanted: seq<Grant>) {
    forall g :: g in wanted ==> !g.partial && g.kind != ""
  }

  lemma {:induction false} GivesRun(current: seq<Grant>, wanted: seq<Grant>, rows: set<Grant>, k: nat, g: Grant)
    requires AreComplete(wanted) && k <= |wanted|
    ensures var stmts, given := Gives(current, wanted, k), IsMissing(current, g.Complete()) && g.Complete() in wanted[..k];
            g in Run(rows, stmts, |stmts|) <==> if g.partial then g in rows && !given else g in rows || given
  {
    if k > 0 {
      GivesRun(current, wanted, rows, k - 1, g);
      var before, w, c := Gives(current, wanted, k - 1), wanted[k - 1], g.Complete();
      assert w in wanted && wanted[..k] == wanted[..k - 1] + [w] && before + [] == before;
      if IsMissing(current, w) {
        RunOne(rows, before, Give(w));
        assert w.Complete() == w;
        assert g == c || g == c.(partial := true);
      }
    }
  }

  lemma {:induction false} RunOne(rows: set<Grant>, stmts: seq<Stmt>, stmt: Stmt)
    ensures Run(rows, stmts + [stmt], |stmts| + 1) == Step(Run(rows, stmts, |stmts|), stmt)
  {
    RunPrefix(rows, stmts, [stmt], |stmts|);
  }

  lemma {:induction false} RunPrefix(rows: set<Grant>, a: seq<Stmt>, b: seq<Stmt>, k: nat)
    requires k <= |a|
    ensures Run(rows, a + b, k) == Run(rows, a, k)
  {
    if k > 0 { RunPrefix(rows, a, b, k - 1); }
  }

  lemma {:induction false} RunConcat(rows: set<Grant>, a: seq<Stmt>, b: seq<Stmt>, k: nat)
    requires k <= |b|
    ensures Run(rows, a + b, |a| + k) == Run(Run(rows, a, |a|), b, k)
  {
    if k == 0 { RunPrefix(rows, a, b, |a|); } else { RunConcat(rows, a, b, k - 1); }
  }

  ghost function Final(current: seq<Grant>, wanted: seq<Grant>): set<Grant> {
    var stmts := Revokes(current, wanted, |current|) + Gives(current, wanted, |wanted|);
    Run(Elements(current), stmts, |stmts|)
  }

  lemma {:induction false} FinalIs(current: seq<Grant>, wanted: seq<Grant>, g: Grant)
    requires AreComplete(wanted)
    ensures var kept, given := g in current && !IsSpurious(wanted, g), g.Complete() in wanted && IsMissing(current, g.Complete());
            g in Final(current, wanted) <==> if g.partial then kept && !given else kept || given
  {
    var a, b, rows := Revokes(current, wanted, |current|), Gives(current, wanted, |wanted|), Elements(current);
    RunConcat(rows, a, b, |b|);
    RevokesRun(current, wanted, rows, |current|, g);
    GivesRun(current, wanted, Run(rows, a, |a|), |wanted|, g);
    assert wanted[..|wanted|] == wanted;
    if g in current {
      var i :| 0 <= i < |current| && current[i] == g;
      CompletedHas(current, |current|, i);
    }
  }

  /** The rows afterwards, for any rows before: a complete grant is there exactly when it
      is wanted and was there or is relevant; a partial one is left only when its complete
      form is wanted and was not granted; irrelevance rows stay. */
  lemma {:induction false} DiffConverges(current: seq<Grant>, wanted: seq<Grant>, g: Grant)
    requires AreComplete(wanted)
    ensures g in Final(current, wanted) <==>
            if g.kind == "" then g in current
            else if !g.partial then g in wanted && (g in current || g.Irrelevant() !in current)
            else g in current && g.Complete() in wanted && !IsMissing(current, g.Complete())
  {
    FinalIs(current, wanted, g);
    assert !g.partial ==> g.Complete() == g;
    assert g.Complete().kind == g.kind;
  }

  /** Nothing wanted is revoked, even in part; only wanted grants are granted. */
  lemma {:induction false} StatementsAreDue(current: seq<Grant>, wanted: seq<Grant>, stmt: Stmt)
    ensures stmt in Revokes(current, wanted, |current|) <==> stmt.Revoke? && stmt.grant in current && IsSpurious(wanted, stmt.grant)
    ensures stmt in Gives(current, wanted, |wanted|) <==> stmt.Give? && stmt.grant in wanted && IsMissing(current, stmt.grant)
  {
    RevokesHold(current, wanted, |current|, stmt);
    GivesHold(current, wanted, |wanted|, stmt);
    assert current[..|current|] == current && wanted[..|wanted|] == wanted;
  }

  lemma {:induction false} RevokesHold(current: seq<Grant>, wanted: seq<Grant>, k: nat, stmt: Stmt)
    requires k <= |current|
    ensures stmt in Revokes(current, wanted, k) <==> stmt.Revoke? && stmt.grant in current[..k] && IsSpurious(wanted, stmt.grant)
  {
    if k > 0 {
      RevokesHold(current, wanted, k - 1, stmt);
      assert current[..k] == current[..k - 1] + [current[k - 1]];
    }
  }

  lemma {:induction false} GivesHold(current: seq<Grant>, wanted: seq<Grant>, k: nat, stmt: Stmt)
    requires k <= |wanted|
    ensures stmt in Gives(current, wanted, k) <==> stmt.Give? && stmt.grant in wanted[..k] && IsMissing(current, stmt.grant)
  {
    if k > 0 {
      GivesHold(current, wanted, k - 1, stmt);
      assert wanted[..k] == wanted[..k - 1] + [wanted[k - 1]];
    }
  }

  /** On the resulting rows, listed in any order, a second diff sends nothing. */
  lemma {:induction false} SecondDiffIsIdle(current: seq<Grant>, wanted: seq<Grant>, again: seq<Grant>)
    requires AreComplete(wanted) && Elements(again) == Final(current, wanted)
    ensures Revokes(again, wanted, |again|) + Gives(again, wanted, |wanted|) == []
  {
    forall stmt
      ensures stmt !in Revokes(again, wanted, |again|) && stmt !in Gives(again, wanted, |wanted|)
    {
      var g := stmt.grant;
      StatementsAreDue(again, wanted, stmt);
      DiffConverges(current, wanted, g);
      DiffConverges(current, wanted, g.Irrelevant());
      assert g in again <==> g in Elements(again);
      assert g.Irrelevant() in again <==> g.Irrelevant() in Elements(again);
    }
    FirstIsIn(Revokes(again, wanted, |again|));
    FirstIsIn(Gives(again, wanted, |wanted|));
  }

  lemma {:induction false} FirstIsIn(stmts: seq<Stmt>)
    ensures stmts == [] || stmts[0] in stmts
  {
  }
}
