/**
 The DTLS session of src/library/dtls.cpp as a state machine over an abstract TLS engine.

 `engine(k)` is what the engine does with the k-th write it is given. A connect
 handler is known by the number of the `Connect` call it was passed to, and by whether it
 disconnects the session when it is called (`leaves`), which re-enters the session.
 */
module Dtls {
  import opened Outcomes
  import opened Bytes

  datatype Phase = Open | Connecting | Connected | Disconnected

  datatype WriteOutcome = Full | Partial(n: nat) | Busy | Fatal

  /** How an operation ended: `Wait` is busy or IO busy, `Stop` any other error. */
  datatype Result = Done | Wait | Stop

  datatype HandshakeOutcome = Over | HelloVerify | NotYet | Broken

  datatype ReadOutcome = Drained | Closed | ClientReconnect

  /** What the receiver does with a datagram it is given: nothing to the session, send through it, or disconnect it. */
  datatype Reaction = Ignores | Sends(m: ByteArray) | Leaves

  /** What there is to read: datagrams, with what the receiver does about each, and how reading ends. */
  datatype Reading = Reading(received: seq<Reaction>, end: ReadOutcome)

  datatype Handler = Handler(id: nat, leaves: bool)

  datatype Call = Call(id: nat, connected: bool)

  type Engine = nat -> WriteOutcome

  /** `connects` has an entry for every handler given to `Connect`: whether it leaves. */
  datatype State = State(phase: Phase, onConnected: Option<Handler>, connects: seq<bool>, queue: seq<ByteArray>,
                         accepted: seq<ByteArray>, written: seq<ByteArray>, wire: ByteArray, torn: nat, writes: nat,
                         calls: seq<Call>)

  // ---------------------------------------------------------------------------
  // Writing
  // ---------------------------------------------------------------------------

  /** `Write`: a message that is not taken whole is reported as busy, with some of it on the wire. */
  function Written(s: State, m: ByteArray, engine: Engine): (State, Result) {
    if !s.phase.Connected? then (s, Stop)
    else
      var t := s.(writes := s.writes + 1);
      match engine(s.writes)
      case Full => (t.(wire := s.wire + m, written := s.written + [m]), Done)
      case Partial(n) =>
        if n < |m| then (t.(wire := s.wire + m[..n], torn := s.torn + if n > 0 then 1 else 0), Wait)
        else (t.(wire := s.wire + m, written := s.written + [m]), Done)
      case Busy => (t, Wait)
      case Fatal => (t, Stop)
  }

  /** `Send`: what cannot be written at once is queued, behind what is queued already. */
  function Sent(s: State, m: ByteArray, engine: Engine): (State, Result) {
    if !s.phase.Connected? then (s, Stop)
    else if s.queue != [] then (s.(queue := s.queue + [m], accepted := s.accepted + [m]), Done)
    else
      var (t, r) := Written(s, m, engine);
      if r.Done? then (t.(accepted := s.accepted + [m]), Done)
      else if r.Wait? then (t.(queue := [m], accepted := s.accepted + [m]), Done)
      else (t, Stop)
  }

  /** `TryWrite`: the queue, in order, as far as the engine takes it. */
  function Flushed(s: State, engine: Engine): (State, Result)
    decreases |s.queue|
  {
    if s.queue == [] then (s, Done)
    else
      var (t, r) := Written(s, s.queue[0], engine);
      if r.Done? then Flushed(t.(queue := s.queue[1..]), engine) else (t, r)
  }

  // ---------------------------------------------------------------------------
  // Connecting
  // ---------------------------------------------------------------------------

  /** `Disconnect`: the connect handler is told, unless it has been told already; the queue stays. */
  function Ended(s: State): State {
    if !s.phase.Connecting? && !s.phase.Connected? then s
    else Told(s.(phase := Disconnected), false).(phase := Open)
  }

  /** Call the connect handler and forget it. A handler that disconnects a connected session is called from there again. */
  function Told(s: State, connected: bool): State
    decreases if s.phase.Disconnected? then 0 else 1
  {
    if s.onConnected.None? then s
    else
      var h := s.onConnected.value;
      var called := s.(calls := s.calls + [Call(h.id, connected)]);
      var after :=
        if h.leaves && s.phase.Connected? then Told(called.(phase := Disconnected), false).(phase := Open) else called;
      after.(onConnected := None)
  }

  /** `Connect`. */
  function Begun(s: State, leaves: bool): State
    requires s.phase.Open?
  {
    s.(phase := Connecting, onConnected := Some(Handler(|s.connects|, leaves)), connects := s.connects + [leaves])
  }

  /** `Handshake`; a cookie exchange starts the session again with the same handler. */
  function Shaken(s: State, outcome: HandshakeOutcome): (State, Result) {
    if !s.phase.Connecting? then (s, Done)
    else
      match outcome
      case Over => (Told(s.(phase := Connected), true), Done)
      case HelloVerify => (s, Done)
      case NotYet => (s, Wait)
      case Broken => (s, Stop)
  }

  function Reacted(s: State, reaction: Reaction, engine: Engine): State {
    match reaction
    case Ignores => s
    case Sends(m) => Sent(s, m, engine).0
    case Leaves => Ended(s)
  }

  /**
   The read loop: it goes on until reading fails. A client that reconnects and a receiver that
   disconnects both make the next read fail.
   */
  function ReadAll(s: State, received: seq<Reaction>, end: ReadOutcome, engine: Engine): (State, Result)
    decreases |received|
  {
    if !s.phase.Connected? then (s, Stop)
    else if received != [] then ReadAll(Reacted(s, received[0], engine), received[1..], end, engine)
    else
      match end
      case Drained => (s, Wait)
      case Closed => (s, Stop)
      case ClientReconnect => (s.(phase := Connecting), Stop)
  }

  /**
   What the event loop reports: whether a server knows its peer's address, the outcome of a
   handshake step, and whether the socket can be read or written.
   */
  datatype Ready = Ready(identified: bool, handshake: HandshakeOutcome, read: Option<Reading>, write: bool)

  /** Reading and writing in a connected session. */
  function ReadWritten(s: State, ready: Ready, engine: Engine): (State, Result)
    requires s.phase.Connected?
  {
    var (t, r) :=
      if ready.read.Some? then ReadAll(s, ready.read.value.received, ready.read.value.end, engine) else (s, Done);
    if ready.write && !r.Stop? then Flushed(t, engine) else (t, r)
  }

  /** `HandleEvent`. */
  function Woken(s: State, ready: Ready, engine: Engine): State {
    var (t, r) :=
      if !ready.identified then (s, Stop)
      else if s.phase.Connecting? then
        var (shaken, r) := Shaken(s, ready.handshake);
        if r.Stop? || !shaken.phase.Connected? then (shaken, r) else ReadWritten(shaken, ready, engine)
      else if s.phase.Connected? then ReadWritten(s, ready, engine)
      else (s, Done);
    if r.Stop? then Ended(t) else t
  }

  // ---------------------------------------------------------------------------
  // The session as an object
  // ---------------------------------------------------------------------------

  class DtlsSession {
    var phase: Phase
    var onConnected: Option<Handler>
    var connects: seq<bool>
    var queue: seq<ByteArray>

    // What has been accepted from callers, what the engine has taken, and the calls of handlers.
    var accepted: seq<ByteArray>
    var written: seq<ByteArray>
    var wire: ByteArray
    var torn: nat
    var writes: nat
    var calls: seq<Call>

    ghost function Now(): State
      reads this
    {
      State(phase, onConnected, connects, queue, accepted, written, wire, torn, writes, calls)
    }

    constructor ()
      ensures Now() == INITIAL
    {
      phase, onConnected, connects, queue := Open, None, [], [];
      accepted, written, wire, torn, writes, calls := [], [], [], 0, 0, [];
    }

    method Write(m: ByteArray, engine: Engine) returns (r: Result)
      modifies this
      ensures (Now(), r) == Written(old(Now()), m, engine)
    {
      if !phase.Connected? {
        return Stop;
      }
      var outcome := engine(writes);
      writes := writes + 1;
      match outcome {
        case Full =>
          wire, written, r := wire + m, written + [m], Done;
        case Partial(n) =>
          if n < |m| {
            wire, r := wire + m[..n], Wait;
            torn := torn + if n > 0 then 1 else 0;
          } else {
            wire, written, r := wire + m, written + [m], Done;
          }
        case Busy =>
          r := Wait;
        case Fatal =>
          r := Stop;
      }
    }

    method Send(m: ByteArray, engine: Engine) returns (r: Result)
      modifies this
      ensures (Now(), r) == Sent(old(Now()), m, engine)
    {
      if !phase.Connected? {
        return Stop;
      }
      if queue == [] {
        r := Write(m, engine);
        if r.Wait? {
          assert queue + [m] == [m];
          queue := queue + [m];
          r := Done;
        }
      } else {
        queue := queue + [m];
        r := Done;
      }
      if r.Done? {
        accepted := accepted + [m];
      }
    }

    method TryWrite(engine: Engine) returns (r: Result)
      modifies this
      ensures (Now(), r) == Flushed(old(Now()), engine)
    {
      while |queue| > 0
        invariant Flushed(Now(), engine) == Flushed(old(Now()), engine)
        decreases |queue|
      {
        r := Write(queue[0], engine);
        if !r.Done? {
          return;
        }
        queue := queue[1..];
      }
      r := Done;
    }

    /** Call the connect handler and forget it. */
    method Tell(connected: bool)
      modifies this
      ensures Now() == Told(old(Now()), connected)
      decreases if phase.Disconnected? then 0 else 1, 1
    {
      if onConnected.Some? {
        var h := onConnected.value;
        calls := calls + [Call(h.id, connected)];
        if h.leaves && phase.Connected? {
          Disconnect();
        }
        onConnected := None;
      }
    }

    method Disconnect()
      modifies this
      ensures Now() == Ended(old(Now()))
      decreases if phase.Disconnected? then 0 else 1, 0
    {
      if !phase.Connecting? && !phase.Connected? {
        return;
      }
      phase := Disconnected;
      Tell(false);
      phase := Open;
    }

    method Connect(leaves: bool)
      requires phase.Open?
      modifies this
      ensures Now() == Begun(old(Now()), leaves)
    {
      onConnected := Some(Handler(|connects|, leaves));
      connects := connects + [leaves];
      phase := Connecting;
    }

    method Handshake(outcome: HandshakeOutcome) returns (r: Result)
      modifies this
      ensures (Now(), r) == Shaken(old(Now()), outcome)
    {
      if !phase.Connecting? {
        return Done;
      }
      if outcome.Over? {
        phase := Connected;
        Tell(true);
      }
      if outcome.HelloVerify? {
        Reconnect();
      }
      r := if outcome.NotYet? then Wait else if outcome.Broken? then Stop else Done;
    }

    /** Reset and connect again, with the same handler. */
    method Reconnect()
      requires phase.Connecting?
      modifies this
      ensures Now() == old(Now())
    {
      phase := Open;
      phase := Connecting;
    }

    /** Pass a datagram to the receiver, which may come back to the session. */
    method Deliver(reaction: Reaction, engine: Engine)
      modifies this
      ensures Now() == Reacted(old(Now()), reaction, engine)
    {
      if reaction.Sends? {
        var _ := Send(reaction.m, engine);
      } else if reaction.Leaves? {
        Disconnect();
      }
    }

    /** Read until reading fails. */
    method ReadLoop(reading: Reading, engine: Engine) returns (r: Result)
      modifies this
      ensures (Now(), r) == ReadAll(old(Now()), reading.received, reading.end, engine)
    {
      var i := 0;
      assert reading.received[0..] == reading.received;
      while phase.Connected? && i < |reading.received|
        invariant 0 <= i <= |reading.received|
        invariant ReadAll(Now(), reading.received[i..], reading.end, engine)
                  == ReadAll(old(Now()), reading.received, reading.end, engine)
        decreases |reading.received| - i
      {
        assert reading.received[i..][1..] == reading.received[i + 1..];
        Deliver(reading.received[i], engine);
        i := i + 1;
      }
      if !phase.Connected? {
        return Stop;
      }
      assert reading.received[i..] == [];
      if reading.end.ClientReconnect? {
        phase := Connecting;
      }
      r := if reading.end.Drained? then Wait else Stop;
    }

    method HandleEvent(ready: Ready, engine: Engine)
      modifies this
      ensures Now() == Woken(old(Now()), ready, engine)
    {
      var r := Done;
      if !ready.identified {
        r := Stop;
      } else {
        if phase.Connecting? {
          r := Handshake(ready.handshake);
        }
        if phase.Connected? && !r.Stop? {
          if ready.read.Some? {
            r := ReadLoop(ready.read.value, engine);
          } else {
            r := Done;
          }
          if ready.write && !r.Stop? {
            r := TryWrite(engine);
          }
        }
      }
      if r.Stop? {
        Disconnect();
      }
    }
  }

  const INITIAL := State(Open, None, [], [], [], [], [], 0, 0, [])
}
