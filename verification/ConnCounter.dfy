/** The count of outstanding requests, and the StartTLS phase. */
module ConnCounter {
  import opened Collections
  import opened Conn

  /** Counted, and not uncounted since. */
  predicate IsActive(pc: Pc) {
    pc == Begun || pc == Queued || pc == Refused || pc == Ended || pc == EndChecked || pc == Left
  }

  ghost function Active(s: State): set<nat> {
    set c | c in s.clients && IsActive(s.clients[c].pc)
  }

  /** The counter is right, and during StartTLS its request is the only one. */
  ghost predicate CounterOk(s: State) {
    && s.outstanding == |Active(s)|
    && (s.startingTLS ==> exists t :: Active(s) == {t} && s.clients[t].tls)
    && (forall c :: c in Active(s) && s.clients[c].tls ==> s.startingTLS)
  }

  lemma {:induction false} SameIsOk(s: State, t: State)
    requires CounterOk(s) && t.outstanding == s.outstanding && t.startingTLS == s.startingTLS && SamePlaces(s, t)
    ensures CounterOk(t)
  {
    assert Active(t) == Active(s) by {
      forall c ensures c in Active(t) <==> c in Active(s) {
        if c in s.clients { assert t.clients[c].(log := []) == s.clients[c].(log := []); }
      }
    }
    if s.startingTLS {
      var only :| Active(s) == {only} && s.clients[only].tls;
      assert t.clients[only].(log := []) == s.clients[only].(log := []);
      assert Active(t) == {only} && t.clients[only].tls;
    }
  }

  /** One client moves, and is as active as before. */
  lemma {:induction false} MoveIsOk(s: State, t: State, c: nat, x: Client)
    requires CounterOk(s) && t.outstanding == s.outstanding && t.startingTLS == s.startingTLS
    requires t.clients == s.clients[c := x]
    requires IsActive(x.pc) <==> c in Active(s)
    requires c in s.clients ==> x.tls == s.clients[c].tls
    ensures CounterOk(t)
  {
    assert Active(t) == Active(s);
    if s.startingTLS {
      var only :| Active(s) == {only} && s.clients[only].tls;
      assert Active(t) == {only} && t.clients[only].tls;
    }
  }

  lemma {:induction false} CountIsOk(s: State, t: State, c: nat, x: Client)
    requires CounterOk(s) && c in s.clients && c !in Active(s) && t.clients == s.clients[c := x]
    requires IsActive(x.pc) && x.tls == s.clients[c].tls
    requires !s.startingTLS && (x.tls ==> s.outstanding == 0)
    requires t.outstanding == s.outstanding + 1 && t.startingTLS == x.tls
    ensures CounterOk(t)
  {
    assert Active(t) == Active(s) + {c};
    if x.tls {
      assert Active(s) == {};
      assert Active(t) == {c} && t.clients[c].tls;
    }
  }

  lemma {:induction false} OneLess(s: State, t: State, c: nat, x: Client)
    requires t.clients == s.clients[c := x] && !IsActive(x.pc)
    ensures Active(t) == Active(s) - {c}
  {
  }

  /** The count never goes below zero; only the request that started TLS ends that phase. */
  lemma {:induction false} UncountKeeps(s: State, c: nat)
    requires CounterOk(s) && Enabled(s, Uncount(c))
    ensures CounterOk(Do(s, Uncount(c)))
    ensures s.outstanding > 0 && Do(s, Uncount(c)).outstanding == s.outstanding - 1
    ensures s.startingTLS ==> s.clients[c].tls
  {
    var t := Do(s, Uncount(c));
    assert c in Active(s);
    OneLess(s, t, c, t.clients[c]);
    if s.startingTLS {
      var only :| Active(s) == {only} && s.clients[only].tls;
      assert only == c;
    }
  }

  lemma {:induction false} MoveKeeps(s: State, a: Action)
    requires CounterOk(s) && Enabled(s, a) && IsMove(a) && !a.Uncount?
    ensures CounterOk(Do(s, a))
  {
    hide CounterOk;
    MoveIsLocal(s, a);
    var t, x := Do(s, a), Moved(s, a);
    if a.Begin? && x.pc == Begun {
      CountIsOk(s, t, a.c, x);
    } else {
      MoveIsOk(s, t, a.c, x);
    }
  }

  lemma {:induction false} CounterKept(s: State, a: Action)
    requires CounterOk(s) && Enabled(s, a)
    ensures CounterOk(Do(s, a))
  {
    if a.Uncount? {
      UncountKeeps(s, a.c);
    } else if IsMove(a) {
      MoveKeeps(s, a);
    } else {
      if IsAnswer(a) { AnswerMovesNone(s, a); } else { QuietIsQuiet(s, a); }
      SameCount(s, a);
      SameIsOk(s, Do(s, a));
    }
  }

  lemma {:induction false} SameCount(s: State, a: Action)
    requires Enabled(s, a) && !IsMove(a)
    ensures Do(s, a).outstanding == s.outstanding && Do(s, a).startingTLS == s.startingTLS
  {
  }

  /** While the connection is not closing, the active clients are exactly those between
      being counted and being uncounted: none was refused or left early. */
  ghost predicate OpenOk(s: State) {
    !s.IsClosing() ==> forall c :: c in s.clients ==> s.clients[c].pc != Refused && s.clients[c].pc != Left
  }

  lemma {:induction false} OpenKept(s: State, a: Action)
    requires OpenOk(s) && Enabled(s, a)
    ensures OpenOk(Do(s, a))
  {
    CountersGrow(s, a);
    if IsMove(a) {
      MoveIsLocal(s, a);
    } else if IsAnswer(a) {
      AnswerMovesNone(s, a);
      forall c | c in s.clients
        ensures Do(s, a).clients[c].pc == s.clients[c].pc
      {
        assert Do(s, a).clients[c].(log := []) == s.clients[c].(log := []);
      }
    } else {
      QuietIsQuiet(s, a);
    }
  }
}
