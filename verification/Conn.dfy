/** The LDAP connection multiplexer (partialvendor/go-ldap/conn.go) as a step machine: clients,
    the reader, timers, Close and processMessages interleave in any way, the server sends
    any packets. A step is what runs under the mutex, one channel operation, or one atomic read. */
module Conn {
  import opened Collections

  /** chanMessage holds this many messages. */
  const CAPACITY := 10

  /** Messages for processMessages; n numbers the packets in the order they were read. */
  datatype Message = Quit | Request(client: nat) | Response(id: nat, n: nat) | Finish(id: nat) | Timeout(id: nat)

  /** What happens on a responses channel. */
  datatype Event = Packet(id: nat, n: nat) | Failure | Closed

  /** Where a client is. Sending: waiting for an id, has one, found the connection open,
      counted, queued; rejected before, or refused after, being counted. Finishing: done is
      closed, found the connection open, uncounted, over; or left because it is closing. */
  datatype Pc =
    | Asking | HasId | Checked | Begun | Queued | Rejected | Refused
    | Ended | EndChecked | Uncounted | Over | Left

  datatype Client = Client(tls: bool, id: nat, pc: Pc, log: seq<Event>)

  /** Close holds the mutex from Quitting to Waiting. */
  datatype Closer = Open | Quitting | Waiting | Shut

  datatype Processor = Running | Leaving | Gone

  datatype State = State(
    clients: map<nat, Client>,
    queue: seq<Message>,       // chanMessage, after the message being handled when busy
    busy: bool,
    contexts: map<nat, nat>,   // messageContexts: client by id
    nextId: nat,
    processor: Processor,
    closer: Closer,
    sealed: bool,              // chanMessage is closed
    outstanding: nat,
    startingTLS: bool,
    reading: Option<Message>,  // the packet the reader has read
    arrivals: nat,             // packets read so far
    handled: nat,              // packets below this number were handled
    timers: set<nat>)
  {
    predicate IsClosing() {
      closer != Open
    }

    predicate MutexIsFree() {
      closer == Open || closer == Shut
    }

    predicate HasRoom() {
      |queue| < CAPACITY + if busy then 1 else 0
    }

    predicate Is(c: nat, pc: Pc) {
      c in clients && clients[c].pc == pc
    }

    function To(c: nat, pc: Pc): State
      requires c in clients
    {
      this.(clients := clients[c := clients[c].(pc := pc)])
    }

    function Post(m: Message): State {
      this.(queue := queue + [m])
    }

    function Log(c: nat, events: seq<Event>): State
      requires c in clients
    {
      this.(clients := clients[c := clients[c].(log := clients[c].log + events)])
    }

    /** The context of id is forgotten. */
    function Forget(id: nat): State {
      this.(contexts := contexts - {id})
    }
  }

  const START := State(map[], [], false, map[], 1, Running, Open, false, 0, false, None, 0, 0, {})

  datatype Action =
    | Arrive(c: nat, tls: bool)  // a client calls nextMessageID
    | HandOut(c: nat)            // processMessages sends it an id
    | HandZero(c: nat)           // chanMessageID is closed
    | Check(c: nat)
    | Begin(c: nat)
    | Submit(c: nat)
    | End(c: nat)                // finishMessage
    | CheckEnd(c: nat)
    | Uncount(c: nat)
    | SubmitFinish(c: nat)
    | ReadPacket(id: nat)
    | SubmitResponse
    | Fire(c: nat)
    | Cancel(c: nat)
    | StartClose
    | SendQuit
    | EndClose                   // confirmed, or timed out
    | Take
    | Handle(ok: bool, told: bool) // ok: the write succeeds, or the packet is delivered
    | Drop(id: nat, told: bool)  // on leaving, each remaining context
    | Leave

  ghost predicate Enabled(s: State, a: Action) {
    match a
    case Arrive(c, _) => c !in s.clients
    case HandOut(c) => s.Is(c, Asking) && s.processor == Running && !s.busy
    case HandZero(c) => s.Is(c, Asking) && s.processor == Gone
    case Check(c) => s.Is(c, HasId)
    case Begin(c) => s.Is(c, Checked) && s.MutexIsFree()
    case Submit(c) => s.Is(c, Begun) && s.MutexIsFree() && (s.IsClosing() || s.HasRoom())
    case End(c) => s.Is(c, Queued)
    case CheckEnd(c) => s.Is(c, Ended)
    case Uncount(c) => s.Is(c, EndChecked) && s.MutexIsFree()
    case SubmitFinish(c) => s.Is(c, Uncounted) && s.MutexIsFree() && (s.IsClosing() || s.HasRoom())
    case ReadPacket(_) => s.reading.None?
    case SubmitResponse => s.reading.Some? && s.MutexIsFree() && (s.IsClosing() || s.HasRoom())
    case Fire(c) => c in s.timers && c in s.clients && s.MutexIsFree() && (s.IsClosing() || s.HasRoom())
    case Cancel(c) => c in s.timers
    case StartClose => s.closer == Open
    case SendQuit => s.closer == Quitting && s.HasRoom()
    case EndClose => s.closer == Waiting
    case Take => s.processor == Running && !s.busy && s.queue != []
    case Handle(_, _) => s.processor == Running && s.busy && s.queue != []
                         && (s.queue[0].Request? ==> s.queue[0].client in s.clients)
                         && (s.queue[0].Response? || s.queue[0].Finish? || s.queue[0].Timeout? ==>
                               s.queue[0].id in s.contexts ==> s.contexts[s.queue[0].id] in s.clients)
    case Drop(id, _) => s.processor == Leaving && id in s.contexts && s.contexts[id] in s.clients
    case Leave => s.processor == Leaving && s.contexts == map[]
  }

  /** sendProcessMessage: nothing is queued once the connection is closing. */
  ghost function Send(s: State, m: Message): State {
    if s.IsClosing() then s else s.Post(m)
  }

  ghost function Failures(told: bool): seq<Event> {
    if told then [Failure] else []
  }

  /** What dealing with the message in hand writes to a responses channel, and whose:
      a failed write or a timeout tells the client and closes the channel, a packet goes to
      the client with its id, unless it is gone, and a finished client's channel is closed. */
  ghost function ReplyTo(s: State, ok: bool, told: bool): Option<(nat, seq<Event>)>
    requires s.queue != []
  {
    match s.queue[0]
    case Quit => None
    case Request(c) => if ok then None else Some((c, Failures(told) + [Closed]))
    case Response(id, n) => if id in s.contexts && ok then Some((s.contexts[id], [Packet(id, n)])) else None
    case Timeout(id) => if id in s.contexts then Some((s.contexts[id], Failures(told) + [Closed])) else None
    case Finish(id) => if id in s.contexts then Some((s.contexts[id], [Closed])) else None
  }

  ghost function ContextsThen(s: State, ok: bool): map<nat, nat>
    requires s.queue != [] && (s.queue[0].Request? ==> s.queue[0].client in s.clients)
  {
    match s.queue[0]
    case Request(c) => if ok then s.contexts[s.clients[c].id := c] else s.contexts
    case Timeout(id) => s.contexts - {id}
    case Finish(id) => s.contexts - {id}
    case _ => s.contexts
  }

  /** processMessages deals with the message in hand; a written request may get a timer. */
  ghost function Handled(s: State, ok: bool, told: bool): State
    requires Enabled(s, Handle(ok, told))
  {
    var m, reply := s.queue[0], ReplyTo(s, ok, told);
    s.(queue := s.queue[1..],
       busy := false,
       processor := if m == Quit then Leaving else Running,
       handled := if m.Response? then m.n + 1 else s.handled,
       contexts := ContextsThen(s, ok),
       timers := if m.Request? && ok && told then s.timers + {m.client} else s.timers,
       clients := if reply.Some? then s.Log(reply.value.0, reply.value.1).clients else s.clients)
  }

  ghost function Do(s: State, a: Action): State
    requires Enabled(s, a)
  {
    match a
    case Arrive(c, tls) => s.(clients := s.clients[c := Client(tls, 0, Asking, [])])
    case HandOut(c) => s.(clients := s.clients[c := s.clients[c].(id := s.nextId, pc := HasId)], nextId := s.nextId + 1)
    case HandZero(c) => s.To(c, HasId)
    case Check(c) => s.To(c, if s.IsClosing() then Rejected else Checked)
    case Begin(c) =>
      if s.startingTLS || (s.clients[c].tls && s.outstanding != 0) then s.To(c, Rejected)
      else s.To(c, Begun).(startingTLS := s.clients[c].tls, outstanding := s.outstanding + 1)
    case Submit(c) => Send(s, Request(c)).To(c, if s.IsClosing() then Refused else Queued)
    case End(c) => s.To(c, Ended)
    case CheckEnd(c) => s.To(c, if s.IsClosing() then Left else EndChecked)
    case Uncount(c) => s.To(c, Uncounted).(startingTLS := false, outstanding := if s.outstanding == 0 then 0xFFFF_FFFF_FFFF_FFFF else s.outstanding - 1)
    case SubmitFinish(c) => Send(s, Finish(s.clients[c].id)).To(c, Over)
    case ReadPacket(id) => s.(reading := Some(Response(id, s.arrivals)), arrivals := s.arrivals + 1)
    case SubmitResponse => Send(s, s.reading.value).(reading := None)
    case Fire(c) => Send(s, Timeout(s.clients[c].id)).(timers := s.timers - {c})
    case Cancel(c) => s.(timers := s.timers - {c})
    case StartClose => s.(closer := Quitting)
    case SendQuit => s.Post(Quit).(closer := Waiting)
    case EndClose => s.(closer := Shut, sealed := true)
    case Take => s.(busy := true)
    case Handle(ok, told) => Handled(s, ok, told)
    case Drop(id, told) => s.Log(s.contexts[id], Failures(told) + [Closed]).Forget(id)
    case Leave => s.(processor := Gone)
  }

  // What an action leaves alone

  /** Steps of one client. */
  predicate IsMove(a: Action) {
    a.Arrive? || a.HandOut? || a.HandZero? || a.Check? || a.Begin? || a.Submit? || a.End? || a.CheckEnd?
    || a.Uncount? || a.SubmitFinish?
  }

  /** Steps that write to responses channels. */
  predicate IsAnswer(a: Action) {
    a.Handle? || a.Drop?
  }

  /** The client after its step. */
  function Moved(s: State, a: Action): Client
    requires Enabled(s, a) && IsMove(a)
  {
    match a
    case Arrive(_, tls) => Client(tls, 0, Asking, [])
    case HandOut(c) => s.clients[c].(id := s.nextId, pc := HasId)
    case _ => s.clients[a.c].(pc := MovedTo(s, a))
  }

  function MovedTo(s: State, a: Action): Pc
    requires Enabled(s, a) && IsMove(a) && !a.Arrive? && !a.HandOut?
  {
    match a
    case HandZero(_) => HasId
    case Check(_) => if s.IsClosing() then Rejected else Checked
    case Begin(c) => if s.startingTLS || (s.clients[c].tls && s.outstanding != 0) then Rejected else Begun
    case Submit(_) => if s.IsClosing() then Refused else Queued
    case End(_) => Ended
    case CheckEnd(_) => if s.IsClosing() then Left else EndChecked
    case Uncount(_) => Uncounted
    case SubmitFinish(_) => Over
  }

  lemma {:induction false} MoveIsLocal(s: State, a: Action)
    requires Enabled(s, a) && IsMove(a)
    ensures Do(s, a).clients == s.clients[a.c := Moved(s, a)]
    ensures !a.Arrive? ==> a.c in s.clients
  {
    hide Do, Moved;
    if a.Submit? || a.SubmitFinish? { SubmitIsLocal(s, a); } else { StepIsLocal(s, a); }
  }

  lemma {:induction false} SubmitIsLocal(s: State, a: Action)
    requires Enabled(s, a) && (a.Submit? || a.SubmitFinish?)
    ensures Do(s, a).clients == s.clients[a.c := Moved(s, a)] && a.c in s.clients
  {
  }

  lemma {:induction false} StepIsLocal(s: State, a: Action)
    requires Enabled(s, a) && IsMove(a) && !a.Submit? && !a.SubmitFinish?
    ensures Do(s, a).clients == s.clients[a.c := Moved(s, a)]
    ensures !a.Arrive? ==> a.c in s.clients
  {
    hide ContextsThen, Handled;
  }

  lemma {:induction false} QuietIsQuiet(s: State, a: Action)
    requires Enabled(s, a) && !IsMove(a) && !IsAnswer(a)
    ensures Do(s, a).clients == s.clients
  {
  }

  /** Whose responses channel is written to, and what. */
  ghost function Reply(s: State, a: Action): Option<(nat, seq<Event>)>
    requires Enabled(s, a) && IsAnswer(a)
  {
    match a
    case Drop(id, told) => Some((s.contexts[id], Failures(told) + [Closed]))
    case Handle(ok, told) => ReplyTo(s, ok, told)
  }

  lemma {:induction false} AnswerIsReply(s: State, a: Action)
    requires Enabled(s, a) && IsAnswer(a)
    ensures match Reply(s, a)
            case None => Do(s, a).clients == s.clients
            case Some(reply) => reply.0 in s.clients && Do(s, a).clients == s.Log(reply.0, reply.1).clients
  {
  }

  /** Same clients at the same place, whatever happened on their channels. */
  ghost predicate SamePlaces(s: State, t: State) {
    t.clients.Keys == s.clients.Keys
    && forall c :: c in s.clients ==> t.clients[c].(log := []) == s.clients[c].(log := [])
  }

  lemma {:induction false} AnswerMovesNone(s: State, a: Action)
    requires Enabled(s, a) && IsAnswer(a)
    ensures SamePlaces(s, Do(s, a))
  {
    AnswerIsReply(s, a);
  }

  /** What the step queues. */
  ghost function Posts(s: State, a: Action): Option<Message>
    requires Enabled(s, a)
  {
    match a
    case Submit(c) => if s.IsClosing() then None else Some(Request(c))
    case SubmitFinish(c) => if s.IsClosing() then None else Some(Finish(s.clients[c].id))
    case SubmitResponse => if s.IsClosing() then None else s.reading
    case Fire(c) => if s.IsClosing() then None else Some(Timeout(s.clients[c].id))
    case SendQuit => Some(Quit)
    case _ => None
  }

  lemma {:induction false} QueueAfter(s: State, a: Action)
    requires Enabled(s, a)
    ensures Do(s, a).queue ==
            if a.Handle? then s.queue[1..] else match Posts(s, a) case None => s.queue case Some(m) => s.queue + [m]
  {
  }

  /** What the step does to messageContexts: an id gets a client, or loses it. */
  ghost function Opens(s: State, a: Action): Option<nat>
    requires Enabled(s, a)
  {
    match a
    case Handle(ok, _) => if ok && s.queue[0].Request? then Some(s.queue[0].client) else None
    case _ => None
  }

  ghost function Shuts(s: State, a: Action): Option<nat>
    requires Enabled(s, a)
  {
    match a
    case Handle(_, _) =>
      if (s.queue[0].Timeout? || s.queue[0].Finish?) && s.queue[0].id in s.contexts then Some(s.queue[0].id) else None
    case Drop(id, _) => Some(id)
    case _ => None
  }

  lemma {:induction false} AnswerContexts(s: State, a: Action)
    requires Enabled(s, a) && IsAnswer(a)
    ensures Do(s, a).contexts ==
            match Opens(s, a)
            case Some(c) => s.contexts[s.clients[c].id := c]
            case None => match Shuts(s, a) case Some(id) => s.contexts - {id} case None => s.contexts
  {
  }

  lemma {:induction false} SubmitContexts(s: State, a: Action)
    requires Enabled(s, a) && (a.Submit? || a.SubmitFinish?)
    ensures Do(s, a).contexts == s.contexts
  {
    hide Enabled, Failures;
  }

  lemma {:induction false} StepContexts(s: State, a: Action)
    requires Enabled(s, a) && IsMove(a) && !a.Submit? && !a.SubmitFinish?
    ensures Do(s, a).contexts == s.contexts
  {
    hide Enabled, Failures, Handled, Send;
  }

  lemma {:induction false} MoveContexts(s: State, a: Action)
    requires Enabled(s, a) && IsMove(a)
    ensures Do(s, a).contexts == s.contexts && Opens(s, a) == None && Shuts(s, a) == None
  {
    hide Enabled, Do;
    if a.Submit? || a.SubmitFinish? { SubmitContexts(s, a); } else { StepContexts(s, a); }
  }

  lemma {:induction false} QuietContexts(s: State, a: Action)
    requires Enabled(s, a) && !IsMove(a) && !IsAnswer(a)
    ensures Do(s, a).contexts == s.contexts && Opens(s, a) == None && Shuts(s, a) == None
  {
  }

  lemma {:induction false} ContextsAfter(s: State, a: Action)
    requires Enabled(s, a)
    ensures Do(s, a).contexts ==
            match Opens(s, a)
            case Some(c) => s.contexts[s.clients[c].id := c]
            case None => match Shuts(s, a) case Some(id) => s.contexts - {id} case None => s.contexts
  {
    hide Enabled, Do, Opens, Shuts;
    if IsAnswer(a) { AnswerContexts(s, a); } else if IsMove(a) { MoveContexts(s, a); } else { QuietContexts(s, a); }
  }

  lemma {:induction false} NextIdGrows(s: State, a: Action)
    requires Enabled(s, a)
    ensures Do(s, a).nextId == s.nextId + (if a.HandOut? then 1 else 0)
  {
    hide Enabled, ReplyTo, ContextsThen;
  }

  lemma {:induction false} StaysClosing(s: State, a: Action)
    requires Enabled(s, a)
    ensures s.IsClosing() ==> Do(s, a).IsClosing()
  {
  }

  lemma {:induction false} HandledIs(s: State, a: Action)
    requires Enabled(s, a)
    ensures Do(s, a).handled == if a.Handle? && s.queue[0].Response? then s.queue[0].n + 1 else s.handled
  {
  }

  lemma {:induction false} CountersGrow(s: State, a: Action)
    requires Enabled(s, a)
    ensures Do(s, a).nextId == s.nextId + (if a.HandOut? then 1 else 0)
    ensures s.IsClosing() ==> Do(s, a).IsClosing()
    ensures Do(s, a).handled == if a.Handle? && s.queue[0].Response? then s.queue[0].n + 1 else s.handled
  {
    hide Do;
    NextIdGrows(s, a);
    StaysClosing(s, a);
    HandledIs(s, a);
  }
}
