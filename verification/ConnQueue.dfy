/** Quit is the last message, and packets are queued in the order they were read. */
module ConnQueue {
  import opened Collections
  import opened Conn

  ghost predicate NoQuit(queue: seq<Message>) {
    forall i :: 0 <= i < |queue| ==> queue[i] != Quit
  }

  ghost predicate QuitOk(s: State) {
    && |s.queue| <= CAPACITY + (if s.busy then 1 else 0)
    && (s.busy ==> s.queue != [])
    && (s.sealed <==> s.closer == Shut)
    && if s.closer == Open || s.closer == Quitting then s.processor == Running && NoQuit(s.queue)
       else if s.processor == Running then
         var last := |s.queue| - 1;
         last >= 0 && s.queue[last] == Quit && NoQuit(s.queue[..last])
       else s.queue == [] && !s.busy
  }

  lemma {:induction false} HandleKeepsQuit(s: State, a: Action)
    requires QuitOk(s) && Enabled(s, a) && a.Handle?
    ensures QuitOk(Do(s, a))
  {
    var t := Do(s, a);
    QueueAfter(s, a);
    if s.closer == Waiting || s.closer == Shut {
      var last := |s.queue| - 1;
      if last > 0 {
        assert s.queue[..last][0] != Quit;
        assert t.queue[..last - 1] == s.queue[..last][1..];
      }
    }
  }

  lemma {:induction false} PostKeepsQuit(s: State, a: Action, m: Message)
    requires QuitOk(s) && Enabled(s, a) && Posts(s, a) == Some(m) && m != Quit
    ensures !s.IsClosing() && QuitOk(Do(s, a))
  {
    QueueAfter(s, a);
  }

  lemma {:induction false} QuitKept(s: State, a: Action)
    requires QuitOk(s) && Enabled(s, a) && (s.reading.Some? ==> s.reading.value.Response?)
    ensures QuitOk(Do(s, a))
  {
    hide NoQuit, Handled;
    if a.Handle? {
      HandleKeepsQuit(s, a);
    } else if Posts(s, a).Some? && !a.SendQuit? {
      PostKeepsQuit(s, a, Posts(s, a).value);
    } else {
      QueueAfter(s, a);
      var t := Do(s, a);
      if a.SendQuit? { assert t.queue[..|s.queue|] == s.queue; }
    }
  }

  // Packets

  /** The packets waiting, first to last: handed over, queued, or just read. */
  ghost predicate NumbersOk(s: State) {
    && s.handled <= s.arrivals
    && (forall i: nat :: i < |s.queue| ==> Numbered(s, s.queue[i]))
    && (forall i: nat, j: nat :: i < j < |s.queue| ==> InOrder(s.queue[i], s.queue[j]))
    && (s.reading.Some? ==> s.reading.value.Response? && Numbered(s, s.reading.value))
    && (s.reading.Some? ==> forall i: nat :: i < |s.queue| ==> InOrder(s.queue[i], s.reading.value))
  }

  ghost predicate Numbered(s: State, m: Message) {
    m.Response? ==> s.handled <= m.n < s.arrivals
  }

  ghost predicate InOrder(a: Message, b: Message) {
    a.Response? && b.Response? ==> a.n < b.n
  }

  lemma {:induction false} HandleKeepsNumbers(s: State, a: Action)
    requires NumbersOk(s) && Enabled(s, a) && a.Handle?
    ensures NumbersOk(Do(s, a))
  {
    var t := Do(s, a);
    QueueAfter(s, a);
    CountersGrow(s, a);
    NumbersFrame(s, a);
    assert Numbered(s, s.queue[0]);
    forall i: nat | i < |t.queue|
      ensures Numbered(t, t.queue[i])
    {
      assert Numbered(s, s.queue[i + 1]) && InOrder(s.queue[0], s.queue[i + 1]);
    }
    forall i: nat, j: nat | i < j < |t.queue| ensures InOrder(t.queue[i], t.queue[j]) { assert InOrder(s.queue[i + 1], s.queue[j + 1]); }
    if s.reading.Some? {
      assert InOrder(s.queue[0], s.reading.value);
      forall i: nat | i < |t.queue| ensures InOrder(t.queue[i], t.reading.value) { assert InOrder(s.queue[i + 1], s.reading.value); }
    }
  }

  lemma {:induction false} NumbersFrame(s: State, a: Action)
    requires Enabled(s, a)
    ensures Do(s, a).arrivals == s.arrivals + (if a.ReadPacket? then 1 else 0)
    ensures Do(s, a).reading == match a
                                case ReadPacket(id) => Some(Response(id, s.arrivals))
                                case SubmitResponse => None
                                case _ => s.reading
  {
    hide Do;
    ArrivalsAre(s, a);
    ReadingIs(s, a);
  }

  lemma {:induction false} ArrivalsAre(s: State, a: Action)
    requires Enabled(s, a)
    ensures Do(s, a).arrivals == s.arrivals + (if a.ReadPacket? then 1 else 0)
  {
    hide Enabled, ReplyTo, ContextsThen;
  }

  lemma {:induction false} ReadingIs(s: State, a: Action)
    requires Enabled(s, a)
    ensures Do(s, a).reading == match a
                                case ReadPacket(id) => Some(Response(id, s.arrivals))
                                case SubmitResponse => None
                                case _ => s.reading
  {
    hide Enabled, ReplyTo, ContextsThen;
  }

  lemma {:induction false} PostKeepsNumbers(s: State, a: Action, m: Message)
    requires NumbersOk(s) && Enabled(s, a) && Posts(s, a) == Some(m)
    ensures NumbersOk(Do(s, a))
  {
    var t := Do(s, a);
    QueueAfter(s, a);
    CountersGrow(s, a);
    NumbersFrame(s, a);
    assert m.Response? ==> a.SubmitResponse?;
    forall i: nat | i < |t.queue|
      ensures Numbered(t, t.queue[i])
    {
      if i < |s.queue| { assert Numbered(s, s.queue[i]); }
    }
    forall i: nat, j: nat | i < j < |t.queue|
      ensures InOrder(t.queue[i], t.queue[j])
    {
      if j < |s.queue| { assert InOrder(s.queue[i], s.queue[j]); } else if m.Response? { assert InOrder(s.queue[i], s.reading.value); }
    }
  }

  lemma {:induction false} NumbersKept(s: State, a: Action)
    requires NumbersOk(s) && Enabled(s, a)
    ensures NumbersOk(Do(s, a))
  {
    if a.Handle? {
      HandleKeepsNumbers(s, a);
    } else if Posts(s, a).Some? {
      PostKeepsNumbers(s, a, Posts(s, a).value);
    } else {
      var t := Do(s, a);
      QueueAfter(s, a);
      CountersGrow(s, a);
      NumbersFrame(s, a);
      forall i: nat | i < |t.queue| ensures Numbered(t, t.queue[i]) { assert Numbered(s, s.queue[i]); }
      if t.reading.Some? {
        forall i: nat | i < |t.queue|
          ensures InOrder(t.queue[i], t.reading.value)
        {
          assert Numbered(s, s.queue[i]);
          if !a.ReadPacket? { assert InOrder(s.queue[i], s.reading.value); }
        }
      }
    }
  }
}
