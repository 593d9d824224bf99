/** When processMessages goes on: sendResponse (partialvendor/go-ldap/conn.go) waits until the
    client receives or has finished, and without a request timeout it waits for ever. */
module ConnProgress {
  import opened Collections
  import opened Conn
  import opened ConnChannels

  /** finishMessage has closed done. */
  predicate IsDone(pc: Pc) {
    pc == Ended || pc == EndChecked || pc == Uncounted || pc == Over || pc == Left
  }

  /** The ways out of sendResponse to c: delivered to a client that is receiving, or dropped because
      the client is done or the time is over. */
  ghost predicate MayEnd(s: State, timeout: bool, receiving: set<nat>, c: nat, delivered: bool) {
    if delivered then c in receiving else timeout || (c in s.clients && IsDone(s.clients[c].pc))
  }

  /** Whom the message in hand makes processMessages send to, when a request is written or not. */
  ghost function SendsTo(s: State, written: bool): Option<nat>
    requires s.queue != []
  {
    match s.queue[0]
    case Request(c) => if written then None else Some(c)
    case Response(id, _) => if id in s.contexts then Some(s.contexts[id]) else None
    case Timeout(id) => if id in s.contexts then Some(s.contexts[id]) else None
    case _ => None
  }

  /** The step deals with the message in hand, and its sendResponse comes to an end. */
  ghost predicate Proceeds(s: State, timeout: bool, receiving: set<nat>, written: bool, ok: bool, told: bool) {
    && Enabled(s, Handle(ok, told))
    && (s.queue[0].Request? ==> ok == written)
    && match SendsTo(s, written)
       case None => true
       case Some(c) => MayEnd(s, timeout, receiving, c, if s.queue[0].Response? then ok else told)
  }

  ghost predicate CanProceed(s: State, timeout: bool, receiving: set<nat>, written: bool) {
    exists ok, told :: Proceeds(s, timeout, receiving, written, ok, told)
  }

  lemma {:induction false} ReceiverIsAdmitted(s: State, written: bool)
    requires Inv(s) && s.processor == Running && s.busy && s.queue != []
    ensures match SendsTo(s, written) case None => true case Some(c) => c in s.clients && IsAdmitted(s.clients[c].pc)
  {
    hide LogOk, IsOpen, IsAdmitted;
    match s.queue[0]
    case Request(c) => assert ClientOk(s, c) && Waits(s, c);
    case Response(id, _) => if id in s.contexts { ContextIsOpen(s, id); }
    case Timeout(id) => if id in s.contexts { ContextIsOpen(s, id); }
    case _ =>
  }

  /** With a message in hand, in every state of every run, processMessages goes on unless there is no
      timeout and it sends to a client that neither receives nor has finished. */
  lemma {:induction false} ProceedsIff(trace: seq<State>, i: nat, timeout: bool, receiving: set<nat>, written: bool)
    requires IsRun(trace) && i < |trace| && trace[i].processor == Running && trace[i].busy
    ensures trace[i].queue != []
    ensures CanProceed(trace[i], timeout, receiving, written) <==>
      match SendsTo(trace[i], written)
      case None => true
      case Some(c) => timeout || c in receiving || (c in trace[i].clients && trace[i].clients[c].pc != Queued)
  {
    hide Inv, Enabled, SendsTo, IsRun;
    var s := trace[i];
    InvHolds(trace, i);
    InHand(s);
    ReceiverIsAdmitted(s, written);
    forall ok, told ensures Enabled(s, Handle(ok, told)) { HandleIsEnabled(s, ok, told); }
    match SendsTo(s, written)
    case None => assert Proceeds(s, timeout, receiving, written, written, true);
    case Some(c) =>
      forall ok, told | Proceeds(s, timeout, receiving, written, ok, told)
        ensures timeout || c in receiving || s.clients[c].pc != Queued
      { }
      if timeout || c in receiving || s.clients[c].pc != Queued { SomeWayOut(s, timeout, receiving, written, c); }
  }

  lemma {:induction false} InHand(s: State)
    requires Inv(s) && s.processor == Running && s.busy
    ensures s.queue != []
  {
    CanHandle(s, true, true);
  }

  lemma {:induction false} HandleIsEnabled(s: State, ok: bool, told: bool)
    requires Inv(s) && s.processor == Running && s.busy
    ensures Enabled(s, Handle(ok, told))
  {
    CanHandle(s, ok, told);
  }

  lemma {:induction false} SomeWayOut(s: State, timeout: bool, receiving: set<nat>, written: bool, c: nat)
    requires (forall ok, told :: Enabled(s, Handle(ok, told))) && s.queue != [] && SendsTo(s, written) == Some(c)
    requires c in s.clients && IsAdmitted(s.clients[c].pc) && (timeout || c in receiving || s.clients[c].pc != Queued)
    ensures CanProceed(s, timeout, receiving, written)
  {
    hide Enabled;
    var delivered := c in receiving;
    assert MayEnd(s, timeout, receiving, c, delivered);
    if s.queue[0].Response? {
      assert Proceeds(s, timeout, receiving, written, delivered, true);
    } else {
      assert Enabled(s, Handle(written, delivered));
      assert Proceeds(s, timeout, receiving, written, written, delivered);
    }
  }

  /** On leaving, a context is told only when the connection failed. */
  ghost predicate Drops(s: State, timeout: bool, receiving: set<nat>, failed: bool, id: nat, told: bool) {
    && Enabled(s, Drop(id, told))
    && if failed then MayEnd(s, timeout, receiving, s.contexts[id], told) else !told
  }

  /** On leaving, processMessages closes a remaining channel unless it must tell a failure, there is no
      timeout, and the client neither receives nor has finished. */
  lemma {:induction false} DropsIff(trace: seq<State>, i: nat, timeout: bool, receiving: set<nat>, failed: bool, id: nat)
    requires IsRun(trace) && i < |trace| && trace[i].processor == Leaving && id in trace[i].contexts
    ensures trace[i].contexts[id] in trace[i].clients
    ensures (exists told :: Drops(trace[i], timeout, receiving, failed, id, told)) <==>
      !failed || timeout || trace[i].contexts[id] in receiving || trace[i].clients[trace[i].contexts[id]].pc != Queued
  {
    hide IsRun, Inv;
    InvHolds(trace, i);
    ContextIsAdmitted(trace[i], id);
    DropIff(trace[i], timeout, receiving, failed, id);
  }

  lemma {:induction false} ContextIsAdmitted(s: State, id: nat)
    requires Inv(s) && id in s.contexts
    ensures s.contexts[id] in s.clients && IsAdmitted(s.clients[s.contexts[id]].pc)
  {
    hide ClientOk, IsAdmitted;
    ContextIsOpen(s, id);
  }

  lemma {:induction false} DropIff(s: State, timeout: bool, receiving: set<nat>, failed: bool, id: nat)
    requires s.processor == Leaving && id in s.contexts && s.contexts[id] in s.clients && IsAdmitted(s.clients[s.contexts[id]].pc)
    ensures (exists told :: Drops(s, timeout, receiving, failed, id, told)) <==>
      !failed || timeout || s.contexts[id] in receiving || s.clients[s.contexts[id]].pc != Queued
  {
    var c := s.contexts[id];
    assert Enabled(s, Drop(id, true)) && Enabled(s, Drop(id, false));
    if !failed || timeout || s.clients[c].pc != Queued { assert Drops(s, timeout, receiving, failed, id, false); }
    if failed && c in receiving { assert Drops(s, timeout, receiving, failed, id, true); }
  }

  // A run that stops

  lemma {:induction false} Extend(trace: seq<State>, s: State, a: Action, t: State)
    requires IsRun(trace) && trace[|trace| - 1] == s && Enabled(s, a) && t == Do(s, a)
    ensures IsRun(trace + [t])
  {
    hide Enabled, Do;
    var longer := trace + [t];
    forall i: nat | i + 1 < |longer| ensures Steps(longer[i], longer[i + 1]) {
      if i + 1 < |trace| { assert Steps(trace[i], trace[i + 1]); }
    }
  }

  /** The state with one client, at some place. */
  function With(pc: Pc): State {
    START.(clients := map[0 := Client(false, if pc == Asking then 0 else 1, pc, [])], nextId := if pc == Asking then 1 else 2)
  }

  /** The request is queued. */
  const SUBMITTED := With(Queued).(queue := [Request(0)], outstanding := 1)

  /** It was written, and processMessages has its answer in hand. */
  const ANSWERED := With(Queued).(queue := [Response(1, 0)], busy := true, contexts := map[1 := 0], outstanding := 1, arrivals := 1)

  lemma {:induction false} RunToSubmitted() returns (trace: seq<State>)
    ensures IsRun(trace) && trace[|trace| - 1] == SUBMITTED
  {
    hide IsRun;
    StartIsRun();
    Extend([START], START, Arrive(0, false), With(Asking));
    var t1 := [START] + [With(Asking)];
    Extend(t1, With(Asking), HandOut(0), With(HasId));
    var t2 := t1 + [With(HasId)];
    Extend(t2, With(HasId), Check(0), With(Checked));
    var t3 := t2 + [With(Checked)];
    var begun := With(Begun).(outstanding := 1);
    Extend(t3, With(Checked), Begin(0), begun);
    var t4 := t3 + [begun];
    Extend(t4, begun, Submit(0), SUBMITTED);
    trace := t4 + [SUBMITTED];
  }

  lemma {:induction false} StartIsRun()
    ensures IsRun([START])
  {
  }

  lemma {:induction false} RunToAnswered() returns (trace: seq<State>)
    ensures trace != [] && IsRun(trace) && trace[|trace| - 1] == ANSWERED
  {
    hide IsRun;
    var t0 := RunToSubmitted();
    var taken := SUBMITTED.(busy := true);
    Extend(t0, SUBMITTED, Take, taken);
    var t1 := t0 + [taken];
    var written := With(Queued).(outstanding := 1, contexts := map[1 := 0]);
    Extend(t1, taken, Handle(true, false), written);
    var t2 := t1 + [written];
    var read := written.(reading := Some(Response(1, 0)), arrivals := 1);
    Extend(t2, written, ReadPacket(1), read);
    var t3 := t2 + [read];
    var posted := written.(arrivals := 1, queue := [Response(1, 0)]);
    Extend(t3, read, SubmitResponse, posted);
    var t4 := t3 + [posted];
    Extend(t4, posted, Take, ANSWERED);
    trace := t4 + [ANSWERED];
  }

  /** Without timeout, an answer that its client does not receive stops processMessages. */
  lemma {:induction false} WaitsForTheClient(written: bool) returns (trace: seq<State>)
    ensures IsRun(trace) && trace[|trace| - 1] == ANSWERED && !CanProceed(ANSWERED, false, {}, written)
  {
    hide IsRun, CanProceed;
    trace := RunToAnswered();
    ProceedsIff(trace, |trace| - 1, false, {}, written);
  }
}
