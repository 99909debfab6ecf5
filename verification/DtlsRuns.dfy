/**
 Laws over every run of a DTLS session: nothing that was accepted is lost, reordered or
 made up, and how often connect handlers are called.
 */
module DtlsRuns {
  import opened Outcomes
  import opened Bytes
  import opened Dtls

  datatype Event = Connect(leaves: bool) | Wake(ready: Ready) | Send(m: ByteArray) | Disconnect

  function Step(s: State, e: Event, engine: Engine): State {
    match e
    case Connect(leaves) => if s.phase.Open? then Begun(s, leaves) else s
    case Wake(ready) => Woken(s, ready, engine)
    case Send(m) => Sent(s, m, engine).0
    case Disconnect => Ended(s)
  }

  function Run(events: seq<Event>, engine: Engine): State {
    if events == [] then INITIAL else Step(Run(events[..|events| - 1], engine), events[|events| - 1], engine)
  }

  // ---------------------------------------------------------------------------
  // Conservation
  // ---------------------------------------------------------------------------

  function Concat(ms: seq<ByteArray>): ByteArray {
    if ms == [] then [] else Concat(ms[..|ms| - 1]) + ms[|ms| - 1]
  }

  lemma ConcatAppend(ms: seq<ByteArray>, m: ByteArray)
    ensures Concat(ms + [m]) == Concat(ms) + m
  {
    assert (ms + [m])[..|ms|] == ms;
  }

  /** Messages accepted are the messages written, then those queued; the wire is longer by what was torn. */
  predicate Conserved(s: State) {
    && s.accepted == s.written + s.queue
    && (s.torn == 0 ==> s.wire == Concat(s.written))
    && (s.torn > 0 ==> |s.wire| > |Concat(s.written)|)
  }

  /** `Write` adds a message to those written exactly when it reports success. */
  lemma WriteConserves(s: State, m: ByteArray, engine: Engine)
    ensures var (t, r) := Written(s, m, engine);
            && t.written == (if r.Done? then s.written + [m] else s.written)
            && t.queue == s.queue && t.accepted == s.accepted && t.calls == s.calls && t.phase == s.phase
            && t.onConnected == s.onConnected && t.connects == s.connects && t.torn >= s.torn
            && (t.torn == s.torn && s.wire == Concat(s.written) ==> t.wire == Concat(t.written))
            && |t.wire| - |Concat(t.written)| >= |s.wire| - |Concat(s.written)| + if t.torn > s.torn then 1 else 0
  {
    hide Concat;
    ConcatAppend(s.written, m);
    assert s.wire + m[..0] == s.wire;
  }

  lemma SendConserves(s: State, m: ByteArray, engine: Engine)
    requires Conserved(s)
    ensures var (t, r) := Sent(s, m, engine);
            && Conserved(t) && t.calls == s.calls && t.onConnected == s.onConnected && t.connects == s.connects
            && t.phase == s.phase && t.accepted == if r.Done? then s.accepted + [m] else s.accepted
  {
    hide Written, Concat;
    WriteConserves(s, m, engine);
    assert s.written + s.queue + [m] == s.written + (s.queue + [m]);
    assert s.queue == [] ==> s.written + [] == s.written && s.written + [m] + [] == s.written + [m];
  }

  lemma {:induction false} FlushConserves(s: State, engine: Engine)
    requires Conserved(s)
    ensures var t := Flushed(s, engine).0;
            && Conserved(t) && t.calls == s.calls && t.onConnected == s.onConnected && t.connects == s.connects
            && t.phase == s.phase && t.accepted == s.accepted
    decreases |s.queue|
  {
    hide Written, Concat;
    if s.queue == [] {
    } else {
      var m := s.queue[0];
      WriteConserves(s, m, engine);
      assert s.queue == [m] + s.queue[1..];
      assert s.written + ([m] + s.queue[1..]) == s.written + [m] + s.queue[1..];
      var (t, r) := Written(s, m, engine);
      if r.Done? {
        FlushConserves(t.(queue := s.queue[1..]), engine);
      }
    }
  }

  /** Only sending and flushing touch messages. */
  lemma ToldKeepsMessages(s: State, connected: bool)
    ensures var t := Told(s, connected);
            t == s.(phase := t.phase, onConnected := None, calls := t.calls)
  {
  }

  lemma EndedKeepsMessages(s: State)
    ensures var t := Ended(s);
            t == s.(phase := t.phase, onConnected := t.onConnected, calls := t.calls)
  {
    hide Told;
    ToldKeepsMessages(s.(phase := Disconnected), false);
  }

  /** Reading, with whatever the receiver sends or ends meanwhile, calls no handler of a session that has none. */
  lemma {:induction false} ReadConserves(s: State, received: seq<Reaction>, end: ReadOutcome, engine: Engine)
    requires Conserved(s)
    ensures var t := ReadAll(s, received, end, engine).0;
            && Conserved(t) && t.connects == s.connects
            && (s.onConnected.None? ==> t.onConnected.None? && t.calls == s.calls)
    decreases |received|
  {
    hide Sent, Ended, Concat;
    if received == [] {
    } else {
      ReactedConserves(s, received[0], engine);
      ReadConserves(Reacted(s, received[0], engine), received[1..], end, engine);
    }
  }

  lemma ReactedConserves(s: State, reaction: Reaction, engine: Engine)
    requires Conserved(s)
    ensures var t := Reacted(s, reaction, engine);
            && Conserved(t) && t.connects == s.connects
            && (s.onConnected.None? ==> t.onConnected.None? && t.calls == s.calls)
  {
    hide Sent, Concat;
    match reaction
    case Ignores =>
    case Sends(m) => SendConserves(s, m, engine);
    case Leaves => EndedKeepsMessages(s);
  }

  lemma ReadWrittenConserves(s: State, ready: Ready, engine: Engine)
    requires Conserved(s) && s.phase.Connected?
    ensures var t := ReadWritten(s, ready, engine).0;
            && Conserved(t) && t.connects == s.connects
            && (s.onConnected.None? ==> t.onConnected.None? && t.calls == s.calls)
  {
    hide Flushed, ReadAll, Concat;
    if ready.read.Some? {
      var reading := ready.read.value;
      ReadConserves(s, reading.received, reading.end, engine);
      FlushConserves(ReadAll(s, reading.received, reading.end, engine).0, engine);
    } else {
      FlushConserves(s, engine);
    }
  }

  lemma WakeConserves(s: State, ready: Ready, engine: Engine)
    requires Conserved(s)
    ensures Conserved(Woken(s, ready, engine))
  {
    hide ReadWritten, Told, Concat, Ended;
    var shaken := Shaken(s, ready.handshake).0;
    ToldKeepsMessages(s.(phase := Phase.Connected), true);
    assert Conserved(shaken);
    EndedKeepsMessages(s);
    EndedKeepsMessages(shaken);
    if s.phase.Connecting? && shaken.phase.Connected? {
      ReadWrittenConserves(shaken, ready, engine);
      EndedKeepsMessages(ReadWritten(shaken, ready, engine).0);
    }
    if s.phase.Connected? {
      ReadWrittenConserves(s, ready, engine);
      EndedKeepsMessages(ReadWritten(s, ready, engine).0);
    }
  }

  lemma StepConserves(s: State, e: Event, engine: Engine)
    requires Conserved(s)
    ensures Conserved(Step(s, e, engine))
  {
    hide Woken, Sent, Ended, Concat;
    match e
    case Connect(leaves) =>
    case Wake(ready) => WakeConserves(s, ready, engine);
    case Send(m) => SendConserves(s, m, engine);
    case Disconnect => EndedKeepsMessages(s);
  }

  /**
   Over every run, across busy writes and reconnections, the messages accepted are, in order,
   the messages written followed by the queue. The bytes on the wire are those of the messages
   written exactly when the engine never took a part of a message.
   */
  lemma {:induction false} RunConserves(events: seq<Event>, engine: Engine)
    ensures var s := Run(events, engine);
            && Conserved(s) && s.accepted == s.written + s.queue
            && (s.wire == Concat(s.written) <==> s.torn == 0)
  {
    hide Step;
    if events == [] {
    } else {
      RunConserves(events[..|events| - 1], engine);
      StepConserves(Run(events[..|events| - 1], engine), events[|events| - 1], engine);
    }
  }

  /** An engine that takes a message whole or not at all. */
  ghost predicate AllOrNothing(engine: Engine) {
    forall k: nat :: engine(k).Partial? ==> engine(k).n == 0
  }

  lemma {:induction false} FlushTearsNothing(s: State, engine: Engine)
    requires AllOrNothing(engine)
    ensures Flushed(s, engine).0.torn == s.torn
    decreases |s.queue|
  {
    if s.queue == [] {
    } else {
      var (t, r) := Written(s, s.queue[0], engine);
      if r.Done? {
        FlushTearsNothing(t.(queue := s.queue[1..]), engine);
      }
    }
  }

  lemma {:induction false} ReadTearsNothing(s: State, received: seq<Reaction>, end: ReadOutcome, engine: Engine)
    requires AllOrNothing(engine)
    ensures ReadAll(s, received, end, engine).0.torn == s.torn
    decreases |received|
  {
    hide Ended;
    if received == [] {
    } else {
      EndedKeepsMessages(s);
      ReadTearsNothing(Reacted(s, received[0], engine), received[1..], end, engine);
    }
  }

  lemma ReadWrittenTearsNothing(s: State, ready: Ready, engine: Engine)
    requires AllOrNothing(engine) && s.phase.Connected?
    ensures ReadWritten(s, ready, engine).0.torn == s.torn
  {
    hide Flushed, ReadAll, AllOrNothing;
    if ready.read.Some? {
      var reading := ready.read.value;
      ReadTearsNothing(s, reading.received, reading.end, engine);
      FlushTearsNothing(ReadAll(s, reading.received, reading.end, engine).0, engine);
    } else {
      FlushTearsNothing(s, engine);
    }
  }

  lemma StepTearsNothing(s: State, e: Event, engine: Engine)
    requires AllOrNothing(engine)
    ensures Step(s, e, engine).torn == s.torn
  {
    hide ReadWritten, Told, Ended;
    match e
    case Connect(leaves) =>
    case Wake(ready) =>
      var shaken := Shaken(s, ready.handshake).0;
      ToldKeepsMessages(s.(phase := Phase.Connected), true);
      EndedKeepsMessages(s);
      EndedKeepsMessages(shaken);
      if s.phase.Connected? {
        ReadWrittenTearsNothing(s, ready, engine);
        EndedKeepsMessages(ReadWritten(s, ready, engine).0);
      }
      if shaken.phase.Connected? {
        ReadWrittenTearsNothing(shaken, ready, engine);
        EndedKeepsMessages(ReadWritten(shaken, ready, engine).0);
      }
    case Send(m) =>
    case Disconnect => EndedKeepsMessages(s);
  }

  /** With such an engine the wire carries the written messages and nothing else. */
  lemma {:induction false} WholeMessagesOnTheWire(events: seq<Event>, engine: Engine)
    requires AllOrNothing(engine)
    ensures Run(events, engine).torn == 0 && Run(events, engine).wire == Concat(Run(events, engine).written)
  {
    hide Step, AllOrNothing, Concat;
    RunConserves(events, engine);
    if events == [] {
    } else {
      WholeMessagesOnTheWire(events[..|events| - 1], engine);
      StepTearsNothing(Run(events[..|events| - 1], engine), events[|events| - 1], engine);
    }
  }

  // ---------------------------------------------------------------------------
  // Connect handlers
  // ---------------------------------------------------------------------------

  /** How often handler `id` has been called, and how often to hear that the session is connected. */
  function Calls(calls: seq<Call>, id: nat): nat {
    if calls == [] then 0 else Calls(calls[..|calls| - 1], id) + if calls[|calls| - 1].id == id then 1 else 0
  }

  function Successes(calls: seq<Call>, id: nat): nat {
    if calls == [] then 0
    else Successes(calls[..|calls| - 1], id) + if calls[|calls| - 1] == Call(id, true) then 1 else 0
  }

  lemma AppendCall(calls: seq<Call>, c: Call, id: nat)
    ensures Calls(calls + [c], id) == Calls(calls, id) + if c.id == id then 1 else 0
    ensures Successes(calls + [c], id) == Successes(calls, id) + if c == Call(id, true) then 1 else 0
  {
    assert (calls + [c])[..|calls|] == calls;
  }

  predicate IsPending(s: State, id: nat) {
    s.onConnected.Some? && s.onConnected.value.id == id
  }

  /**
   A handler that waits has not been called. One that does not has been called once, and a second
   time if it disconnected the session when it heard that the session was connected.
   */
  predicate CalledRight(s: State, id: nat) {
    && (s.onConnected.Some? ==>
          && s.phase.Connecting? && s.onConnected.value.id < |s.connects|
          && s.onConnected.value.leaves == s.connects[s.onConnected.value.id])
    && (if id >= |s.connects| || IsPending(s, id) then Calls(s.calls, id) == Successes(s.calls, id) == 0
        else
          && Successes(s.calls, id) <= 1
          && Calls(s.calls, id) == 1 + (if s.connects[id] then Successes(s.calls, id) else 0))
  }

  lemma EndedCallsRight(s: State, id: nat)
    requires CalledRight(s, id)
    ensures CalledRight(Ended(s), id)
  {
    hide Calls, Successes;
    if s.onConnected.Some? {
      AppendCall(s.calls, Call(s.onConnected.value.id, false), id);
    }
  }

  lemma ShakenCallsRight(s: State, outcome: HandshakeOutcome, id: nat)
    requires CalledRight(s, id)
    ensures CalledRight(Shaken(s, outcome).0, id)
  {
    hide Calls, Successes;
    if s.onConnected.Some? && outcome.Over? {
      var h := s.onConnected.value;
      AppendCall(s.calls, Call(h.id, true), id);
      AppendCall(s.calls + [Call(h.id, true)], Call(h.id, false), id);
      var inner := s.(phase := Disconnected, calls := s.calls + [Call(h.id, true)]);
      assert Told(inner, false) == inner.(calls := inner.calls + [Call(h.id, false)], onConnected := None);
    }
  }

  lemma StepCallsRight(s: State, e: Event, engine: Engine, id: nat)
    requires CalledRight(s, id) && Conserved(s)
    ensures CalledRight(Step(s, e, engine), id)
  {
    hide Calls, Successes, Concat, ReadWritten, Shaken, Ended, Sent;
    match e
    case Connect(leaves) =>
    case Wake(ready) =>
      var shaken := Shaken(s, ready.handshake).0;
      ShakenCallsRight(s, ready.handshake, id);
      ShakenConserves(s, ready.handshake);
      EndedCallsRight(s, id);
      EndedCallsRight(shaken, id);
      if s.phase.Connected? {
        ReadWrittenConserves(s, ready, engine);
        EndedCallsRight(ReadWritten(s, ready, engine).0, id);
      }
      if shaken.phase.Connected? {
        ReadWrittenConserves(shaken, ready, engine);
        EndedCallsRight(ReadWritten(shaken, ready, engine).0, id);
      }
    case Send(m) => SendConserves(s, m, engine);
    case Disconnect => EndedCallsRight(s, id);
  }

  lemma ShakenConserves(s: State, outcome: HandshakeOutcome)
    requires Conserved(s)
    ensures Conserved(Shaken(s, outcome).0)
  {
    hide Told, Concat;
    ToldKeepsMessages(s.(phase := Phase.Connected), true);
  }

  lemma {:induction false} RunCallsRight(events: seq<Event>, engine: Engine, id: nat)
    ensures CalledRight(Run(events, engine), id)
  {
    hide Step;
    if events == [] {
    } else {
      RunCallsRight(events[..|events| - 1], engine, id);
      RunConserves(events[..|events| - 1], engine);
      StepCallsRight(Run(events[..|events| - 1], engine), events[|events| - 1], engine, id);
    }
  }

  /** The event completes the handshake that handler `id` waits for. */
  predicate Completes(s: State, e: Event, id: nat) {
    e.Wake? && e.ready.identified && e.ready.handshake.Over? && s.phase.Connecting? && IsPending(s, id)
  }

  predicate CompletesAt(events: seq<Event>, engine: Engine, id: nat, n: nat) {
    n < |events| && Completes(Run(events[..n], engine), events[n], id)
  }

  lemma EndedSuccesses(s: State, id: nat)
    requires CalledRight(s, id)
    ensures Successes(Ended(s).calls, id) == Successes(s.calls, id)
  {
    hide Calls, Successes;
    if s.onConnected.Some? {
      AppendCall(s.calls, Call(s.onConnected.value.id, false), id);
    }
  }

  lemma ShakenSuccesses(s: State, outcome: HandshakeOutcome, id: nat)
    requires CalledRight(s, id)
    ensures Successes(Shaken(s, outcome).0.calls, id)
            == Successes(s.calls, id) + if outcome.Over? && s.phase.Connecting? && IsPending(s, id) then 1 else 0
  {
    hide Calls, Successes;
    if s.onConnected.Some? && outcome.Over? {
      var h := s.onConnected.value;
      AppendCall(s.calls, Call(h.id, true), id);
      AppendCall(s.calls + [Call(h.id, true)], Call(h.id, false), id);
      var inner := s.(phase := Disconnected, calls := s.calls + [Call(h.id, true)]);
      assert Told(inner, false) == inner.(calls := inner.calls + [Call(h.id, false)], onConnected := None);
    }
  }

  /** A handler hears of success in exactly the steps that complete its handshake. */
  lemma StepSuccesses(s: State, e: Event, engine: Engine, id: nat)
    requires CalledRight(s, id) && Conserved(s)
    ensures Successes(Step(s, e, engine).calls, id) == Successes(s.calls, id) + if Completes(s, e, id) then 1 else 0
  {
    hide Calls, Successes, Concat, ReadWritten, Shaken, Ended, Sent;
    match e
    case Connect(leaves) =>
    case Wake(ready) =>
      var shaken := Shaken(s, ready.handshake).0;
      ShakenCallsRight(s, ready.handshake, id);
      ShakenConserves(s, ready.handshake);
      ShakenSuccesses(s, ready.handshake, id);
      EndedSuccesses(s, id);
      EndedSuccesses(shaken, id);
      if s.phase.Connected? {
        ReadWrittenConserves(s, ready, engine);
        EndedSuccesses(ReadWritten(s, ready, engine).0, id);
      }
      if shaken.phase.Connected? {
        ReadWrittenConserves(shaken, ready, engine);
        EndedSuccesses(ReadWritten(shaken, ready, engine).0, id);
      }
    case Send(m) => SendConserves(s, m, engine);
    case Disconnect => EndedSuccesses(s, id);
  }

  lemma {:induction false} SucceedsIffCompleted(events: seq<Event>, engine: Engine, id: nat)
    ensures Successes(Run(events, engine).calls, id) > 0 <==> exists n :: CompletesAt(events, engine, id, n)
  {
    hide Step, Completes, CalledRight, Conserved;
    if events == [] {
    } else {
      var last := |events| - 1;
      var before := events[..last];
      SucceedsIffCompleted(before, engine, id);
      RunCallsRight(before, engine, id);
      RunConserves(before, engine);
      StepSuccesses(Run(before, engine), events[last], engine, id);
      forall n | 0 <= n < last ensures CompletesAt(before, engine, id, n) == CompletesAt(events, engine, id, n) {
        assert before[..n] == events[..n];
      }
      if exists n :: CompletesAt(before, engine, id, n) {
        var n :| CompletesAt(before, engine, id, n);
        assert CompletesAt(events, engine, id, n);
      }
      if Completes(Run(before, engine), events[last], id) {
        assert CompletesAt(events, engine, id, last);
      }
    }
  }

  /**
   Over every run: a handler that waits has not been called. Any other has been called once, or
   exactly twice when it disconnects the session that calls it and its handshake was completed.
   */
  lemma AtMostOnce(events: seq<Event>, engine: Engine, id: nat)
    ensures var s := Run(events, engine);
            Calls(s.calls, id) ==
            if id >= |s.connects| || IsPending(s, id) then 0
            else if s.connects[id] && exists n :: CompletesAt(events, engine, id, n) then 2
            else 1
  {
    hide Run, Calls, Successes;
    RunCallsRight(events, engine, id);
    SucceedsIffCompleted(events, engine, id);
  }

  /** A handler that disconnects when it hears of success hears of failure from within that call. */
  lemma LeavingHandlerIsCalledTwice(engine: Engine)
    ensures var s := Run([Connect(true), Wake(Ready(true, Over, None, false))], engine);
            Calls(s.calls, 0) == 2 && s.phase.Open?
  {
    var events := [Connect(true), Wake(Ready(true, Over, None, false))];
    assert events[..1] == [Connect(true)] && [Connect(true)][..0] == [];
    var s := Run(events[..1], engine);
    assert s == INITIAL.(phase := Connecting, onConnected := Some(Handler(0, true)), connects := [true]);
    var inner := s.(phase := Disconnected, calls := [Call(0, true)]);
    assert Told(inner, false) == inner.(calls := [Call(0, true)] + [Call(0, false)], onConnected := None);
    AppendCall([], Call(0, true), 0);
    AppendCall([Call(0, true)], Call(0, false), 0);
    assert [] + [Call(0, true)] == [Call(0, true)];
  }
}
