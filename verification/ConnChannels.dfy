/** What happens on each responses channel, over every run. */
module ConnChannels {
  import opened Collections
  import opened Conn
  import opened ConnCounter
  import opened ConnQueue

  /** Once sendMessage has queued the request. */
  predicate IsAdmitted(pc: Pc) {
    pc == Queued || pc == Ended || pc == EndChecked || pc == Uncounted || pc == Over || pc == Left
  }

  /** The request has not been written yet. */
  ghost predicate Waits(s: State, c: nat) {
    Request(c) in s.queue
  }

  /** The request was written, and its channel is not closed. */
  ghost predicate IsOpen(s: State, c: nat)
    requires c in s.clients
  {
    s.clients[c].id in s.contexts && s.contexts[s.clients[c].id] == c
  }

  predicate IsClosed(log: seq<Event>) {
    log != [] && log[|log| - 1] == Closed
  }

  /** The channel is closed at most once and is not written to after; it only carries
      packets with the client's own id, in the order they were read. */
  ghost predicate LogOk(log: seq<Event>, id: nat, handled: nat) {
    && (forall i :: 0 <= i < |log| - 1 ==> log[i] != Closed)
    && (forall i :: 0 <= i < |log| && log[i].Packet? ==> log[i].id == id && log[i].n < handled)
    && (forall i, j :: 0 <= i < j < |log| && log[i].Packet? && log[j].Packet? ==> log[i].n < log[j].n)
  }

  ghost predicate ClientOk(s: State, c: nat)
    requires c in s.clients
  {
    var x := s.clients[c];
    && x.id < s.nextId
    && (x.id == 0 ==> x.pc == Asking || x.pc == HasId || x.pc == Rejected)
    && (x.id == 0 && x.pc == HasId ==> s.IsClosing())
    && (x.pc == Asking ==> x.id == 0)
    && (IsAdmitted(x.pc) ==> Waits(s, c) || IsOpen(s, c) || IsClosed(x.log))
    && (Waits(s, c) ==> IsAdmitted(x.pc) && x.log == [] && !IsOpen(s, c))
    && (IsOpen(s, c) ==> IsAdmitted(x.pc) && !IsClosed(x.log))
    && (!IsAdmitted(x.pc) ==> x.log == [])
    && LogOk(x.log, x.id, s.handled)
  }

  ghost predicate ChannelsOk(s: State) {
    && s.nextId > 0
    && (forall c :: c in s.clients ==> ClientOk(s, c))
    && (forall c, d :: c in s.clients && d in s.clients && c != d ==> Apart(s, c, d))
    && (forall i :: 0 <= i < |s.queue| && s.queue[i].Request? ==> s.queue[i].client in s.clients)
    && (forall i, j :: 0 <= i < j < |s.queue| && s.queue[i].Request? ==> s.queue[i] != s.queue[j])
    && (forall id :: id in s.contexts ==> s.contexts[id] in s.clients && s.clients[s.contexts[id]].id == id)
  }

  /** Ids are handed out once. */
  ghost predicate Apart(s: State, c: nat, d: nat)
    requires c in s.clients && d in s.clients
  {
    s.clients[c].id == s.clients[d].id ==> s.clients[c].id == 0
  }

  /** Nothing that concerns c has changed. */
  ghost predicate Same(s: State, t: State, c: nat) {
    && c in s.clients && c in t.clients && t.clients[c] == s.clients[c]
    && (Waits(t, c) <==> Waits(s, c)) && (IsOpen(t, c) <==> IsOpen(s, c))
    && s.nextId <= t.nextId && s.handled <= t.handled && (s.IsClosing() ==> t.IsClosing())
  }

  lemma {:induction false} SameIsOk(s: State, t: State, c: nat)
    requires Same(s, t, c) && ClientOk(s, c)
    ensures ClientOk(t, c)
  {
  }

  // Queue and contexts

  lemma {:induction false} WaitsAfterPost(s: State, t: State, m: Message, c: nat)
    requires t.queue == s.queue + [m]
    ensures Waits(t, c) <==> Waits(s, c) || m == Request(c)
  {
  }

  lemma {:induction false} WaitsAfterHandle(s: State, t: State, c: nat)
    requires ChannelsOk(s) && s.queue != [] && t.queue == s.queue[1..]
    ensures Waits(t, c) <==> Waits(s, c) && s.queue[0] != Request(c)
  {
    if Waits(s, c) {
      var i :| 0 <= i < |s.queue| && s.queue[i] == Request(c);
      if i > 0 { assert t.queue[i - 1] == Request(c); }
    }
    if Waits(t, c) {
      var i :| 0 <= i < |t.queue| && t.queue[i] == Request(c);
      assert s.queue[i + 1] == Request(c);
    }
  }

  // Steps of a client

  /** The client goes to another place of the same kind. */
  lemma {:induction false} PcIsOk(s: State, t: State, c: nat, pc: Pc)
    requires c in s.clients && ClientOk(s, c) && t.clients == s.clients[c := s.clients[c].(pc := pc)]
    requires IsAdmitted(pc) <==> IsAdmitted(s.clients[c].pc)
    requires pc != Asking && (s.clients[c].id == 0 ==> (pc == HasId && t.IsClosing()) || pc == Rejected)
    requires (Waits(t, c) <==> Waits(s, c)) && t.contexts == s.contexts
    requires s.nextId <= t.nextId && s.handled == t.handled
    ensures ClientOk(t, c)
  {
  }

  /** The request is queued. */
  lemma {:induction false} QueuedIsOk(s: State, t: State, c: nat)
    requires c in s.clients && ClientOk(s, c) && s.clients[c].pc == Begun
    requires t.clients == s.clients[c := s.clients[c].(pc := Queued)]
    requires Waits(t, c) && t.contexts == s.contexts && s.nextId <= t.nextId && s.handled == t.handled
    ensures ClientOk(t, c)
  {
  }

  /** A move that queues no request stays on the same side of admission. */
  lemma {:induction false} PlainMovePc(s: State, a: Action)
    requires QuitOk(s) && Enabled(s, a) && IsMove(a) && !a.Arrive? && !a.HandOut? && a.c in s.clients && ClientOk(s, a.c)
    requires Posts(s, a).Some? ==> !Posts(s, a).value.Request?
    ensures var pc, x := MovedTo(s, a), s.clients[a.c];
            && (IsAdmitted(pc) <==> IsAdmitted(x.pc)) && pc != Asking
            && (x.id == 0 ==> (pc == HasId && s.IsClosing()) || pc == Rejected)
  {
  }

  lemma {:induction false} PlainMoveIsOk(s: State, a: Action)
    requires ChannelsOk(s) && QuitOk(s) && Enabled(s, a) && IsMove(a) && !a.Arrive? && !a.HandOut?
    requires Posts(s, a).Some? ==> !Posts(s, a).value.Request?
    ensures a.c in Do(s, a).clients && ClientOk(Do(s, a), a.c)
  {
    var t, c := Do(s, a), a.c;
    MoveIsLocal(s, a);
    QueueAfter(s, a);
    ContextsAfter(s, a);
    CountersGrow(s, a);
    assert ClientOk(s, c);
    if Posts(s, a).Some? { WaitsAfterPost(s, t, Posts(s, a).value, c); }
    PlainMovePc(s, a);
    PcIsOk(s, t, c, MovedTo(s, a));
  }

  lemma {:induction false} MovedIsOk(s: State, a: Action)
    requires ChannelsOk(s) && QuitOk(s) && Enabled(s, a) && IsMove(a)
    ensures a.c in Do(s, a).clients && ClientOk(Do(s, a), a.c)
  {
    if a.Arrive? || a.HandOut? {
      FreshIsOk(s, a);
    } else if a.Submit? && !s.IsClosing() {
      var t, c := Do(s, a), a.c;
      assert ClientOk(s, c);
      WaitsAfterPost(s, t, Request(c), c);
      QueuedIsOk(s, t, c);
    } else {
      PlainMoveIsOk(s, a);
    }
  }

  /** A new client, or one that gets a new id, has no request queued or open. */
  lemma {:induction false} FreshIsOk(s: State, a: Action)
    requires ChannelsOk(s) && Enabled(s, a) && (a.Arrive? || a.HandOut?)
    ensures a.c in Do(s, a).clients && ClientOk(Do(s, a), a.c)
  {
    var t, c := Do(s, a), a.c;
    assert a.HandOut? ==> ClientOk(s, c);
    assert !Waits(s, c);
    assert t.clients[c].id !in s.contexts || s.contexts[t.clients[c].id] != c;
  }

  lemma {:induction false} MoveSparesOthers(s: State, a: Action, d: nat)
    requires ChannelsOk(s) && Enabled(s, a) && IsMove(a) && d in s.clients && d != a.c
    ensures Same(s, Do(s, a), d)
  {
    var t := Do(s, a);
    MoveIsLocal(s, a);
    QueueAfter(s, a);
    ContextsAfter(s, a);
    CountersGrow(s, a);
    if Posts(s, a).Some? { WaitsAfterPost(s, t, Posts(s, a).value, d); }
  }

  lemma {:induction false} QuietSparesAll(s: State, a: Action, d: nat)
    requires ChannelsOk(s) && NumbersOk(s) && Enabled(s, a) && !IsMove(a) && !IsAnswer(a) && d in s.clients
    ensures Same(s, Do(s, a), d)
  {
    var t := Do(s, a);
    QuietIsQuiet(s, a);
    QueueAfter(s, a);
    ContextsAfter(s, a);
    CountersGrow(s, a);
    if Posts(s, a).Some? { WaitsAfterPost(s, t, Posts(s, a).value, d); }
  }

  // Steps that write to channels

  /** What one step may write: a packet that was not handled before, or the end. */
  predicate IsNews(events: seq<Event>, id: nat, handled: nat, after: nat) {
    || events == [Closed]
    || events == [Failure, Closed]
    || (|events| == 1 && events[0].Packet? && events[0].id == id && handled <= events[0].n < after)
  }

  lemma {:induction false} LogGrows(log: seq<Event>, id: nat, handled: nat, events: seq<Event>, after: nat)
    requires LogOk(log, id, handled) && !IsClosed(log) && handled <= after
    requires IsNews(events, id, handled, after)
    ensures LogOk(log + events, id, after)
    ensures IsClosed(log + events) <==> IsClosed(events)
  {
  }

  /** Whose channel, or whose context, an answer is about. */
  ghost function Subject(s: State, a: Action): Option<nat>
    requires Enabled(s, a) && IsAnswer(a)
  {
    match a
    case Drop(id, _) => Some(s.contexts[id])
    case Handle(_, _) =>
      var m := s.queue[0];
      if m.Quit? then None
      else if m.Request? then Some(m.client)
      else if m.id in s.contexts then Some(s.contexts[m.id])
      else None
  }

  /** Written: from waiting to open. */
  lemma {:induction false} OpenedIsOk(s: State, t: State, c: nat)
    requires c in s.clients && ClientOk(s, c) && Waits(s, c) && t.clients == s.clients
    requires !Waits(t, c) && t.contexts == s.contexts[s.clients[c].id := c]
    requires s.nextId == t.nextId && s.handled == t.handled && (s.IsClosing() ==> t.IsClosing())
    ensures ClientOk(t, c)
  {
  }

  /** Told something: still open, or closed for good. */
  lemma {:induction false} ToldIsOk(s: State, t: State, c: nat, events: seq<Event>)
    requires c in s.clients && ClientOk(s, c) && IsAdmitted(s.clients[c].pc) && !IsClosed(s.clients[c].log)
    requires t.clients == s.Log(c, events).clients && !Waits(t, c)
    requires IsNews(events, s.clients[c].id, s.handled, t.handled)
    requires IsOpen(t, c) <==> !IsClosed(events)
    requires s.nextId == t.nextId && s.handled <= t.handled && (s.IsClosing() ==> t.IsClosing())
    ensures ClientOk(t, c)
  {
    LogGrows(s.clients[c].log, s.clients[c].id, s.handled, events, t.handled);
  }

  /** A context that is open belongs to an admitted client whose channel is not closed. */
  lemma {:induction false} ContextIsOpen(s: State, id: nat)
    requires ChannelsOk(s) && id in s.contexts
    ensures var c := s.contexts[id];
            c in s.clients && IsOpen(s, c) && ClientOk(s, c) && IsAdmitted(s.clients[c].pc) && !Waits(s, c) && id > 0
  {
    assert ClientOk(s, s.contexts[id]);
  }

  lemma {:induction false} RequestIsOk(s: State, a: Action)
    requires ChannelsOk(s) && Enabled(s, a) && a.Handle? && s.queue[0].Request?
    ensures ClientOk(Do(s, a), s.queue[0].client)
  {
    hide Apart;
    var t, c := Do(s, a), s.queue[0].client;
    assert ClientOk(s, c) && Waits(s, c);
    WaitsAfterHandle(s, t, c);
    if a.ok { OpenedIsOk(s, t, c); } else { ToldIsOk(s, t, c, Failures(a.told) + [Closed]); }
  }

  lemma {:induction false} DroppedIsOk(s: State, a: Action)
    requires ChannelsOk(s) && Enabled(s, a) && a.Drop?
    ensures ClientOk(Do(s, a), s.contexts[a.id])
  {
    ContextIsOpen(s, a.id);
    ToldIsOk(s, Do(s, a), s.contexts[a.id], Failures(a.told) + [Closed]);
  }

  lemma {:induction false} AnsweredIsOk(s: State, a: Action)
    requires ChannelsOk(s) && NumbersOk(s) && Enabled(s, a) && a.Handle? && !s.queue[0].Quit? && !s.queue[0].Request?
    requires s.queue[0].id in s.contexts
    ensures s.contexts[s.queue[0].id] in s.clients && ClientOk(Do(s, a), s.contexts[s.queue[0].id])
  {
    hide ClientOk;
    var t, m := Do(s, a), s.queue[0];
    var c := s.contexts[m.id];
    ContextIsOpen(s, m.id);
    WaitsAfterHandle(s, t, c);
    assert Numbered(s, m);
    match m {
      case Response(id, n) => if a.ok { ToldIsOk(s, t, c, [Packet(id, n)]); } else { SameIsOk(s, t, c); }
      case Timeout(id) => ToldIsOk(s, t, c, Failures(a.told) + [Closed]);
      case Finish(id) => ToldIsOk(s, t, c, [Closed]);
    }
  }

  lemma {:induction false} AnswerIsOk(s: State, a: Action)
    requires ChannelsOk(s) && NumbersOk(s) && Enabled(s, a) && IsAnswer(a) && Subject(s, a).Some?
    ensures Subject(s, a).value in Do(s, a).clients && ClientOk(Do(s, a), Subject(s, a).value)
  {
    if a.Handle? && s.queue[0].Request? {
      RequestIsOk(s, a);
    } else if a.Handle? {
      AnsweredIsOk(s, a);
    } else {
      DroppedIsOk(s, a);
    }
  }

  /** Contexts change for the subject of the answer only. */
  lemma {:induction false} OtherStaysOpen(s: State, contexts: map<nat, nat>, c: nat, d: nat)
    requires c in s.clients && d in s.clients && c != d && Apart(s, c, d) && s.clients[c].id > 0
    requires contexts == s.contexts[s.clients[c].id := c]
             || (contexts == s.contexts - {s.clients[c].id} && IsOpen(s, c))
    ensures var id := s.clients[d].id;
            (id in contexts && contexts[id] == d) <==> (id in s.contexts && s.contexts[id] == d)
  {
  }

  lemma {:induction false} AnswerContexts(s: State, a: Action, d: nat)
    requires ChannelsOk(s) && Enabled(s, a) && IsAnswer(a) && d in s.clients && Subject(s, a) != Some(d)
    ensures var id := s.clients[d].id;
            (id in Do(s, a).contexts && Do(s, a).contexts[id] == d) <==> (id in s.contexts && s.contexts[id] == d)
  {
    hide IsAnswer, Handled, IsOpen, LogOk;
    ContextsAfter(s, a);
    if Opens(s, a).Some? {
      var c := s.queue[0].client;
      assert ClientOk(s, c) && Waits(s, c);
      OtherStaysOpen(s, Do(s, a).contexts, c, d);
    } else if Shuts(s, a).Some? {
      var id := Shuts(s, a).value;
      ContextIsOpen(s, id);
      OtherStaysOpen(s, Do(s, a).contexts, s.contexts[id], d);
    }
  }

  lemma {:induction false} AnswerSparesOthers(s: State, a: Action, d: nat)
    requires ChannelsOk(s) && NumbersOk(s) && Enabled(s, a) && IsAnswer(a) && d in s.clients && Subject(s, a) != Some(d)
    ensures Same(s, Do(s, a), d)
  {
    hide ChannelsOk, Do;
    var t := Do(s, a);
    AnswerContexts(s, a, d);
    AnswerIsReply(s, a);
    CountersGrow(s, a);
    QueueAfter(s, a);
    if a.Handle? { WaitsAfterHandle(s, t, d); assert Numbered(s, s.queue[0]); }
  }

  // Every step

  lemma {:induction false} ClientsKept(s: State, a: Action, d: nat)
    requires ChannelsOk(s) && QuitOk(s) && NumbersOk(s) && Enabled(s, a) && d in Do(s, a).clients
    ensures ClientOk(Do(s, a), d)
  {
    if IsMove(a) {
      MoveIsLocal(s, a);
      if d == a.c { MovedIsOk(s, a); } else { MoveSparesOthers(s, a, d); SameIsOk(s, Do(s, a), d); }
    } else if IsAnswer(a) {
      AnswerMovesNone(s, a);
      if Subject(s, a) == Some(d) { AnswerIsOk(s, a); } else { AnswerSparesOthers(s, a, d); SameIsOk(s, Do(s, a), d); }
    } else {
      QuietIsQuiet(s, a);
      QuietSparesAll(s, a, d);
      SameIsOk(s, Do(s, a), d);
    }
  }

  lemma {:induction false} MoveKeepsApart(s: State, a: Action, d: nat)
    requires ChannelsOk(s) && Enabled(s, a) && IsMove(a) && d in s.clients && d != a.c
    ensures Moved(s, a).id == s.clients[d].id ==> s.clients[d].id == 0
  {
    MoveIsLocal(s, a);
    assert ClientOk(s, d);
    if a.c in s.clients { assert Apart(s, a.c, d); }
  }

  lemma {:induction false} IdsKept(s: State, a: Action, c: nat, d: nat)
    requires ChannelsOk(s) && Enabled(s, a) && c in Do(s, a).clients && d in Do(s, a).clients && c != d
    ensures Apart(Do(s, a), c, d)
  {
    var t := Do(s, a);
    if IsMove(a) {
      MoveIsLocal(s, a);
      if c == a.c { MoveKeepsApart(s, a, d); } else if d == a.c { MoveKeepsApart(s, a, c); } else { assert Apart(s, c, d); }
    } else {
      if IsAnswer(a) { AnswerMovesNone(s, a); } else { QuietIsQuiet(s, a); }
      assert t.clients[c].(log := []) == s.clients[c].(log := []) && t.clients[d].(log := []) == s.clients[d].(log := []);
      assert Apart(s, c, d);
    }
  }

  /** Queued requests belong to clients, and each is queued once. */
  ghost predicate RequestsOk(s: State) {
    && (forall i :: 0 <= i < |s.queue| && s.queue[i].Request? ==> s.queue[i].client in s.clients)
    && (forall i, j :: 0 <= i < j < |s.queue| && s.queue[i].Request? ==> s.queue[i] != s.queue[j])
  }

  lemma {:induction false} RequestsKept(s: State, a: Action)
    requires ChannelsOk(s) && NumbersOk(s) && Enabled(s, a)
    ensures RequestsOk(Do(s, a))
  {
    hide Do, Apart, IsOpen, LogOk;
    var t := Do(s, a);
    QueueAfter(s, a);
    KeysGrow(s, a);
    if a.Submit? {
      assert ClientOk(s, a.c);
      assert !Waits(s, a.c);
    }
  }

  lemma {:induction false} KeysGrow(s: State, a: Action)
    requires Enabled(s, a)
    ensures s.clients.Keys <= Do(s, a).clients.Keys
  {
    if IsMove(a) { MoveIsLocal(s, a); } else if IsAnswer(a) { AnswerMovesNone(s, a); } else { QuietIsQuiet(s, a); }
  }

  lemma {:induction false} IdStays(s: State, a: Action, c: nat)
    requires Enabled(s, a) && c in s.clients && s.clients[c].pc != Asking
    ensures c in Do(s, a).clients && Do(s, a).clients[c].id == s.clients[c].id
  {
    if IsMove(a) {
      MoveIsLocal(s, a);
    } else {
      if IsAnswer(a) { AnswerMovesNone(s, a); } else { QuietIsQuiet(s, a); }
      assert Do(s, a).clients[c].(log := []) == s.clients[c].(log := []);
    }
  }

  lemma {:induction false} ContextsKept(s: State, a: Action, id: nat)
    requires ChannelsOk(s) && Enabled(s, a) && id in Do(s, a).contexts
    ensures Do(s, a).contexts[id] in Do(s, a).clients && Do(s, a).clients[Do(s, a).contexts[id]].id == id
  {
    ContextsAfter(s, a);
    var c := Do(s, a).contexts[id];
    if Opens(s, a) == Some(c) {
      assert ClientOk(s, c) && Waits(s, c);
    } else {
      ContextIsOpen(s, id);
    }
    IdStays(s, a, c);
  }

  lemma {:induction false} ChannelsKept(s: State, a: Action)
    requires ChannelsOk(s) && QuitOk(s) && NumbersOk(s) && Enabled(s, a)
    ensures ChannelsOk(Do(s, a))
  {
    var t := Do(s, a);
    CountersGrow(s, a);
    forall c | c in t.clients ensures ClientOk(t, c) { ClientsKept(s, a, c); }
    forall c, d | c in t.clients && d in t.clients && c != d ensures Apart(t, c, d) { IdsKept(s, a, c, d); }
    RequestsKept(s, a);
    forall id | id in t.contexts ensures t.contexts[id] in t.clients && t.clients[t.contexts[id]].id == id { ContextsKept(s, a, id); }
  }

  // Every run

  /** processMessages is gone only when no context is left. */
  ghost predicate GoneOk(s: State) {
    s.processor == Gone ==> s.contexts == map[]
  }

  lemma {:induction false} GoneKept(s: State, a: Action)
    requires GoneOk(s) && Enabled(s, a)
    ensures GoneOk(Do(s, a))
  {
    ContextsAfter(s, a);
  }

  /** A run: the state after each step. */
  ghost predicate IsRun(trace: seq<State>) {
    && trace != [] && trace[0] == START
    && forall i: nat :: i + 1 < |trace| ==> Steps(trace[i], trace[i + 1])
  }

  ghost predicate Steps(s: State, t: State) {
    exists a :: Enabled(s, a) && t == Do(s, a)
  }

  ghost predicate Inv(s: State) {
    CounterOk(s) && OpenOk(s) && QuitOk(s) && NumbersOk(s) && ChannelsOk(s) && GoneOk(s)
  }

  lemma {:induction false} InvKept(s: State, t: State)
    requires Inv(s) && Steps(s, t)
    ensures Inv(t)
  {
    var a :| Enabled(s, a) && t == Do(s, a);
    CounterKept(s, a);
    OpenKept(s, a);
    QuitKept(s, a);
    NumbersKept(s, a);
    ChannelsKept(s, a);
    GoneKept(s, a);
  }

  lemma {:induction false} InvHolds(trace: seq<State>, i: nat)
    requires IsRun(trace) && i < |trace|
    ensures Inv(trace[i])
  {
    if i == 0 {
      assert Active(START) == {};
    } else {
      InvHolds(trace, i - 1);
      assert Steps(trace[i - 1], trace[i - 1 + 1]);
      InvKept(trace[i - 1], trace[i]);
    }
  }

  /** On every channel in every run: closed at most once, nothing after that, and only
      packets with the client's id, in the order the reader read them. */
  lemma {:induction false} ChannelIsOrderly(trace: seq<State>, i: nat, c: nat)
    requires IsRun(trace) && i < |trace| && c in trace[i].clients
    ensures LogOk(trace[i].clients[c].log, trace[i].clients[c].id, trace[i].arrivals)
  {
    InvHolds(trace, i);
    assert ClientOk(trace[i], c);
  }

  /** In every state of every run, an id belongs to one request, is smaller than the next one to
      be handed out, and a context is that of the request with its id. */
  lemma {:induction false} IdsAreHandedOutOnce(trace: seq<State>, i: nat, c: nat, d: nat)
    requires IsRun(trace) && i < |trace| && c in trace[i].clients && d in trace[i].clients
    ensures trace[i].clients[c].id < trace[i].nextId
    ensures trace[i].clients[c].id == trace[i].clients[d].id && trace[i].clients[c].id != 0 ==> c == d
    ensures forall id :: id in trace[i].contexts ==>
      trace[i].contexts[id] in trace[i].clients && trace[i].clients[trace[i].contexts[id]].id == id
  {
    InvHolds(trace, i);
    assert ClientOk(trace[i], c);
    if c != d { assert Apart(trace[i], c, d); }
  }

  /** When processMessages is gone, nothing is queued and every request that was ever
      queued has its channel closed, exactly once. */
  lemma {:induction false} AllChannelsClosed(trace: seq<State>, i: nat, c: nat)
    requires IsRun(trace) && i < |trace| && trace[i].processor == Gone && c in trace[i].clients
    ensures trace[i].queue == []
    ensures IsAdmitted(trace[i].clients[c].pc) <==> IsClosed(trace[i].clients[c].log)
  {
    InvHolds(trace, i);
    assert ClientOk(trace[i], c);
  }

  /** Once Quit is queued nothing is queued any more, it stays last, and processMessages
      never receives from the closed and drained channel. */
  lemma {:induction false} QuitIsLast(trace: seq<State>, i: nat, a: Action)
    requires IsRun(trace) && i < |trace| && Enabled(trace[i], a) && Quit in trace[i].queue
    ensures var queue := trace[i].queue; queue[|queue| - 1] == Quit && Quit !in queue[..|queue| - 1]
    ensures Posts(trace[i], a).None?
  {
    InvHolds(trace, i);
  }

  lemma {:induction false} NeverDrained(trace: seq<State>, i: nat)
    requires IsRun(trace) && i < |trace| && trace[i].processor == Running && trace[i].sealed
    ensures trace[i].queue != []
  {
    InvHolds(trace, i);
  }

  lemma {:induction false} CanHandle(s: State, ok: bool, told: bool)
    requires ChannelsOk(s) && QuitOk(s) && s.processor == Running && s.busy
    ensures Enabled(s, Handle(ok, told))
  {
    if !s.queue[0].Request? && !s.queue[0].Quit? && s.queue[0].id in s.contexts { ContextIsOpen(s, s.queue[0].id); }
  }

  /** Whatever message is in hand, and whatever context is left, belongs to a request that was made. */
  lemma {:induction false} MessagesAreAddressed(trace: seq<State>, i: nat, ok: bool, told: bool)
    requires IsRun(trace) && i < |trace|
    ensures trace[i].processor == Running && trace[i].busy ==> Enabled(trace[i], Handle(ok, told))
    ensures trace[i].processor == Leaving ==> forall id :: id in trace[i].contexts ==> Enabled(trace[i], Drop(id, told))
  {
    var s := trace[i];
    InvHolds(trace, i);
    if s.processor == Running && s.busy { CanHandle(s, ok, told); }
    forall id | id in s.contexts ensures s.contexts[id] in s.clients { ContextIsOpen(s, id); }
  }

  /** Begun, and not finished. */
  predicate IsUnfinished(pc: Pc) {
    pc == Begun || pc == Queued || pc == Ended || pc == EndChecked
  }

  /** While the connection is not closing, outstandingRequests is the number of requests
      begun and not finished; and counting down never underflows, closing or not. */
  lemma {:induction false} CountIsRight(trace: seq<State>, i: nat)
    requires IsRun(trace) && i < |trace|
    ensures !trace[i].IsClosing() ==>
              trace[i].outstanding == |set c | c in trace[i].clients && IsUnfinished(trace[i].clients[c].pc)|
    ensures forall c :: Enabled(trace[i], Uncount(c)) ==> trace[i].outstanding > 0
  {
    var s := trace[i];
    InvHolds(trace, i);
    if !s.IsClosing() {
      assert Active(s) == set c | c in s.clients && IsUnfinished(s.clients[c].pc);
    }
    forall c | Enabled(s, Uncount(c)) ensures s.outstanding > 0 { UncountKeeps(s, c); }
  }

  /** During StartTLS exactly one request is outstanding, its own; every other is rejected,
      and only its own finish ends the phase. */
  lemma {:induction false} StartTLSIsExclusive(trace: seq<State>, i: nat, a: Action)
    requires IsRun(trace) && i < |trace| && trace[i].startingTLS && Enabled(trace[i], a)
    ensures trace[i].outstanding == 1
    ensures a.Begin? ==> Do(trace[i], a).Is(a.c, Rejected)
    ensures !Do(trace[i], a).startingTLS ==> a.Uncount? && trace[i].clients[a.c].tls
  {
    var s := trace[i];
    InvHolds(trace, i);
    var only :| Active(s) == {only} && s.clients[only].tls;
    if a.Uncount? { UncountKeeps(s, a.c); } else if !IsMove(a) { SameCount(s, a); }
  }
}
