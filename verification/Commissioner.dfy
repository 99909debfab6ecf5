/**
 Petition and keep-alive of src/library/commissioner_impl.cpp, over the requests that
 are outstanding on the border-agent client.

 `prepared` says whether a request could be built and signed, `sends` whether the
 endpoint takes it. Handlers given by the application are not modelled further; the
 handlers that the commissioner itself registers are, including that a failed
 keep-alive resigns, which disconnects, which cancels every outstanding request.
 */
module Commissioner {
  import Outcomes
  import opened Bytes
  import opened Tlv
  import opened DatasetCodec

  datatype Phase = Disabled | Petitioning | Active

  /** A connection attempt knows whether a petition asked for it. */
  datatype Link = Down | Connecting(petition: bool) | Up

  datatype Kind = Petition | KeepAlive | Other

  /** `live` tells that the response handler has not been cleared. */
  datatype Pending = Pending(id: nat, kind: Kind, live: bool)

  /** What a response handler is given: the peer's reply, or the error that came instead. */
  datatype Reply = Reply(code: Byte, payload: ByteArray) | NoReply

  datatype State = State(phase: Phase, keepAliveTimer: bool, link: Link, sessionId: Word, outstanding: seq<Pending>,
                         nextId: nat)

  const INITIAL := State(Disabled, false, Down, 0, [], 0)

  function Live(ps: seq<Pending>): nat {
    if ps == [] then 0 else (if ps[0].live then 1 else 0) + Live(ps[1..])
  }

  function Removed(ps: seq<Pending>, id: nat): (r: seq<Pending>)
    ensures |r| <= |ps| && Live(r) <= Live(ps)
  {
    if ps == [] then [] else if ps[0].id == id then ps[1..] else [ps[0]] + Removed(ps[1..], id)
  }

  lemma {:induction false} RemovedShrinks(ps: seq<Pending>, i: nat)
    requires i < |ps|
    ensures |Removed(ps, ps[i].id)| < |ps|
  {
    if ps[0].id != ps[i].id {
      RemovedShrinks(ps[1..], i - 1);
    }
  }

  /** `Removed` in terms of the position of the first request with the id. */
  lemma {:induction false} RemovedAt(ps: seq<Pending>, id: nat, i: nat)
    requires i <= |ps| && (forall k :: 0 <= k < i ==> ps[k].id != id) && (i < |ps| ==> ps[i].id == id)
    ensures Removed(ps, id) == if i < |ps| then ps[..i] + ps[i + 1..] else ps
  {
    hide Live;
    if i > 0 {
      RemovedAt(ps[1..], id, i - 1);
      Outcomes.HeadAndTail(ps);
      if i < |ps| {
        Outcomes.SpliceOut(ps, i);
      }
    } else if ps != [] {
      Outcomes.NothingBefore(ps[1..]);
    }
  }

  lemma {:induction false} LiveCleared(ps: seq<Pending>, i: nat)
    requires i < |ps| && ps[i].live
    ensures Live(ps[i := ps[i].(live := false)]) == Live(ps) - 1
  {
    var c := ps[i := ps[i].(live := false)];
    if i == 0 {
      assert c[1..] == ps[1..];
    } else {
      LiveCleared(ps[1..], i - 1);
      assert c[1..] == ps[1..][i - 1 := ps[i].(live := false)];
    }
  }

  // ---------------------------------------------------------------------------
  // Replies
  // ---------------------------------------------------------------------------

  /** Code 2.04. */
  const CHANGED: Byte := 0x44

  const STATE_ACCEPT: Byte := 1

  /** A reply with code 2.04 whose payload parses and holds a State TLV that says accept. */
  predicate StateAccepted(reply: Reply) {
    && reply.Reply? && reply.code == CHANGED && SetOf(reply.payload).Ok?
    && var tlvs := SetOf(reply.payload).value;
       STATE in tlvs && tlvs[STATE] == [STATE_ACCEPT]
  }

  /** The session id that an accepted petition brings, if it brings one. */
  function SessionOf(reply: Reply): Outcomes.Option<Word> {
    if !StateAccepted(reply) then Outcomes.None
    else
      var tlvs := SetOf(reply.payload).value;
      if COMMISSIONER_SESSION_ID !in tlvs then Outcomes.None
      else
        FieldLengths(tlvs);
        assert COMMISSIONER_SESSION_ID in WORDS;
        Outcomes.Some(Pair(tlvs[COMMISSIONER_SESSION_ID][0], tlvs[COMMISSIONER_SESSION_ID][1]))
  }

  /** A State TLV that was kept has one byte. */
  lemma StateLength(tlvs: TlvSet)
    requires AllValid(tlvs) && STATE in tlvs
    ensures |tlvs[STATE]| == 1
  {
    assert IsValid(MeshCoP, STATE, tlvs[STATE]);
  }

  lemma ParsedIsSet(payload: ByteArray)
    ensures SetOf(payload) == ParseTlvs(MeshCoP, payload, map[])
  {
  }

  lemma NoReplyFails()
    ensures !StateAccepted(NoReply) && SessionOf(NoReply) == Outcomes.None
  {
  }

  // ---------------------------------------------------------------------------
  // Handlers, cancellation and disconnection
  // ---------------------------------------------------------------------------

  /** The commissioner's own handler of a response or of a failure. */
  function Answered(s: State, kind: Kind, reply: Reply): (r: State)
    ensures r.outstanding == s.outstanding || r.outstanding == []
    decreases 0, Live(s.outstanding), |s.outstanding|, 8
  {
    match kind
    case Petition =>
      var id := SessionOf(reply);
      if id.Some? then s.(phase := Active, keepAliveTimer := true, sessionId := id.value) else s.(phase := Disabled)
    case KeepAlive => if StateAccepted(reply) then s.(keepAliveTimer := true) else KeepAliveFailed(s)
    case Other => s
  }

  function KeepAliveFailed(s: State): (r: State)
    ensures r.outstanding == []
    decreases 0, Live(s.outstanding), |s.outstanding|, 7
  {
    Resigned(s.(phase := Disabled), false, false)
  }

  /** `FinalizeTransaction` on an outstanding request. */
  function Finalized(s: State, i: nat, reply: Reply): (r: State)
    requires i < |s.outstanding|
    ensures |r.outstanding| < |s.outstanding| && Live(r.outstanding) <= Live(s.outstanding)
    decreases 0, Live(s.outstanding), |s.outstanding|, 0
  {
    var p := s.outstanding[i];
    RemovedShrinks(s.outstanding, i);
    if !p.live then s.(outstanding := Removed(s.outstanding, p.id))
    else
      LiveCleared(s.outstanding, i);
      var cleared := s.(outstanding := s.outstanding[i := p.(live := false)]);
      RemovedShrinks(cleared.outstanding, i);
      var answered := Answered(cleared, p.kind, reply);
      answered.(outstanding := Removed(answered.outstanding, p.id))
  }

  function CancelAll(s: State): (r: State)
    ensures r.outstanding == []
    decreases 0, Live(s.outstanding), |s.outstanding|, 1
  {
    if s.outstanding == [] then s else CancelAll(Finalized(s, 0, NoReply))
  }

  /** `Disconnect`. */
  function Disconnected(s: State): (r: State)
    ensures r.outstanding == []
    decreases 0, Live(s.outstanding), |s.outstanding|, 2
  {
    CancelAll(s.(link := Down)).(phase := Disabled)
  }

  function ActiveBit(s: State): nat {
    if s.phase.Active? then 1 else 0
  }

  /** `SendKeepAlive`, called by the timer and on resignation. */
  function KeepAliveSent(s: State, prepared: bool, sends: bool): State
    decreases ActiveBit(s), Live(s.outstanding), |s.outstanding|, 5
  {
    if !s.phase.Active? || !prepared then Disconnected(s)
    else
      var armed := s.(keepAliveTimer := true);
      if s.link.Up? && sends then
        armed.(outstanding := s.outstanding + [Pending(s.nextId, KeepAlive, true)], nextId := s.nextId + 1)
      else KeepAliveFailed(armed)
  }

  /** `Resign`. */
  function Resigned(s: State, prepared: bool, sends: bool): (r: State)
    ensures r.outstanding == []
    decreases ActiveBit(s), Live(s.outstanding), |s.outstanding|, 6
  {
    var told := if s.phase.Active? then KeepAliveSent(s, prepared, sends) else s;
    Disconnected(told.(keepAliveTimer := false))
  }

  // ---------------------------------------------------------------------------
  // Petitioning
  // ---------------------------------------------------------------------------

  /** `SendPetition`. */
  function PetitionSent(s: State, prepared: bool, sends: bool): State {
    if !s.phase.Disabled? || !prepared then s
    else
      var petitioning := s.(phase := Petitioning);
      if s.link.Up? && sends then
        petitioning.(outstanding := s.outstanding + [Pending(s.nextId, Petition, true)], nextId := s.nextId + 1)
      else Answered(petitioning, Petition, NoReply)
  }

  /** `Petition`: at once when connected, otherwise after the connection has been set up. */
  function Petitioned(s: State, prepared: bool, sends: bool): State {
    if s.phase.Active? then s
    else if s.link.Up? then PetitionSent(s, prepared, sends)
    else s.(link := Connecting(true))
  }

  /** `Connect`, which asks for a connection and nothing else. */
  function ConnectionAsked(s: State): State {
    s.(link := Connecting(false))
  }

  /** The DTLS connection is up; a petition that asked for it goes out. */
  function ConnectionUp(s: State, prepared: bool, sends: bool): State {
    if !s.link.Connecting? then s
    else if s.link.petition then PetitionSent(s.(link := Up), prepared, sends)
    else s.(link := Up)
  }

  /** The single-shot keep-alive timer fires. */
  function TimerFired(s: State, prepared: bool, sends: bool): State {
    if s.keepAliveTimer then KeepAliveSent(s.(keepAliveTimer := false), prepared, sends) else s
  }

  /** A refused retransmission finalises a copy: the outstanding request keeps its handler meanwhile. */
  function CopyFailed(s: State, i: nat): State
    requires i < |s.outstanding|
  {
    var p := s.outstanding[i];
    var answered := if p.live then Answered(s, p.kind, NoReply) else s;
    answered.(outstanding := Removed(answered.outstanding, p.id))
  }

  // ---------------------------------------------------------------------------
  // The commissioner as an object
  // ---------------------------------------------------------------------------

  class CommissionerImpl {
    var phase: Phase
    var keepAliveTimer: bool
    var link: Link
    var sessionId: Word
    var outstanding: seq<Pending>
    var nextId: nat

    ghost function Now(): State
      reads this
    {
      State(phase, keepAliveTimer, link, sessionId, outstanding, nextId)
    }

    constructor ()
      ensures Now() == INITIAL
    {
      phase, keepAliveTimer, link, sessionId, outstanding, nextId := Disabled, false, Down, 0, [], 0;
    }

    /** Hand a request to the border-agent client. */
    method SendRequest(kind: Kind, sends: bool) returns (accepted: bool)
      modifies this`outstanding, this`nextId
      ensures accepted == (link.Up? && sends)
      ensures outstanding == if accepted then old(outstanding) + [Pending(old(nextId), kind, true)] else old(outstanding)
      ensures nextId == if accepted then old(nextId) + 1 else old(nextId)
    {
      accepted := link.Up? && sends;
      if accepted {
        outstanding, nextId := outstanding + [Pending(nextId, kind, true)], nextId + 1;
      }
    }

    method Eliminate(id: nat)
      modifies this`outstanding
      ensures outstanding == Removed(old(outstanding), id)
    {
      var i := 0;
      while i < |outstanding| && outstanding[i].id != id
        invariant 0 <= i <= |outstanding| && forall k :: 0 <= k < i ==> outstanding[k].id != id
      {
        i := i + 1;
      }
      RemovedAt(outstanding, id, i);
      if i < |outstanding| {
        outstanding := outstanding[..i] + outstanding[i + 1..];
      }
    }

    method OnPetitionResponse(reply: Reply)
      modifies this
      ensures Now() == Answered(old(Now()), Petition, reply)
    {
      hide SetOf, AllValid;
      phase := Disabled;
      if reply.NoReply? || reply.code != CHANGED {
        return;
      }
      var tlvs := GetTlvSet(MeshCoP, reply.payload);
      assert tlvs == SetOf(reply.payload) by { ParsedIsSet(reply.payload); }
      if !tlvs.Ok? || STATE !in tlvs.value {
        return;
      }
      StateLength(tlvs.value);
      if tlvs.value[STATE][0] != STATE_ACCEPT || COMMISSIONER_SESSION_ID !in tlvs.value {
        return;
      }
      FieldLengths(tlvs.value);
      assert COMMISSIONER_SESSION_ID in WORDS;
      var value := tlvs.value[COMMISSIONER_SESSION_ID];
      sessionId := Pair(value[0], value[1]);
      phase := Active;
      keepAliveTimer := true;
    }

    /** `HandleStateResponse` with a mandatory State TLV. */
    static method HandleStateResponse(reply: Reply) returns (accepted: bool)
      ensures accepted == StateAccepted(reply)
    {
      hide SetOf, AllValid;
      if reply.NoReply? || reply.code != CHANGED {
        return false;
      }
      var state := GetTlv(STATE, reply.payload);
      if state.None? {
        return false;
      }
      StateLength(SetOf(reply.payload).value);
      accepted := state.value[0] == STATE_ACCEPT;
    }

    method OnKeepAliveResponse(reply: Reply)
      modifies this
      ensures Now() == Answered(old(Now()), KeepAlive, reply)
      decreases if StateAccepted(reply) then 1 else 0, Live(outstanding), |outstanding|, 7
    {
      var accepted := HandleStateResponse(reply);
      if accepted {
        keepAliveTimer := true;
      } else {
        phase := Disabled;
        Resign(false, false);
      }
    }

    method FinalizeTransaction(i: nat, reply: Reply)
      requires i < |outstanding|
      modifies this
      ensures Now() == Finalized(old(Now()), i, reply)
      decreases if StateAccepted(reply) then 1 else 0, Live(outstanding), |outstanding|, 0
    {
      var p := outstanding[i];
      if p.live {
        LiveCleared(outstanding, i);
        outstanding := outstanding[i := p.(live := false)];
        if p.kind.Petition? {
          OnPetitionResponse(reply);
        } else if p.kind.KeepAlive? {
          OnKeepAliveResponse(reply);
        }
      }
      Eliminate(p.id);
    }

    method CancelRequests()
      modifies this
      ensures Now() == CancelAll(old(Now()))
      decreases 0, Live(outstanding), |outstanding|, 1
    {
      while |outstanding| > 0
        invariant CancelAll(Now()) == CancelAll(old(Now()))
        invariant Live(outstanding) <= Live(old(outstanding)) && |outstanding| <= |old(outstanding)|
        decreases Live(outstanding), |outstanding|
      {
        FinalizeTransaction(0, NoReply);
      }
    }

    method Disconnect()
      modifies this
      ensures Now() == Disconnected(old(Now()))
      decreases 0, Live(outstanding), |outstanding|, 2
    {
      link := Down;
      CancelRequests();
      phase := Disabled;
    }

    method SendKeepAlive(prepared: bool, sends: bool)
      modifies this
      ensures Now() == KeepAliveSent(old(Now()), prepared, sends)
      decreases if phase.Active? then 1 else 0, Live(outstanding), |outstanding|, 5
    {
      if !phase.Active? || !prepared {
        Disconnect();
        return;
      }
      keepAliveTimer := true;
      var accepted := SendRequest(KeepAlive, sends);
      if !accepted {
        OnKeepAliveResponse(NoReply);
      }
    }

    method Resign(prepared: bool, sends: bool)
      modifies this
      ensures Now() == Resigned(old(Now()), prepared, sends)
      decreases if phase.Active? then 1 else 0, Live(outstanding), |outstanding|, 6
    {
      if phase.Active? {
        SendKeepAlive(prepared, sends);
      }
      if keepAliveTimer {
        keepAliveTimer := false;
      }
      Disconnect();
    }

    method SendPetition(prepared: bool, sends: bool)
      modifies this
      ensures Now() == PetitionSent(old(Now()), prepared, sends)
    {
      if !phase.Disabled? || !prepared {
        return;
      }
      phase := Petitioning;
      var accepted := SendRequest(Petition, sends);
      if !accepted {
        OnPetitionResponse(NoReply);
      }
    }

    /** A second connection attempt while one is under way violates an assertion of the DTLS session. */
    method StartPetition(prepared: bool, sends: bool)
      requires !link.Connecting?
      modifies this
      ensures Now() == Petitioned(old(Now()), prepared, sends)
    {
      if phase.Active? {
        return;
      }
      if link.Up? {
        SendPetition(prepared, sends);
      } else {
        link := Connecting(true);
      }
    }

    /** The DTLS session takes a connection attempt only when it is open. */
    method Connect()
      requires link.Down?
      modifies this`link
      ensures Now() == ConnectionAsked(old(Now()))
    {
      link := Connecting(false);
    }

    /** The handler of the DTLS session, once the handshake is over. */
    method OnConnected(prepared: bool, sends: bool)
      requires link.Connecting?
      modifies this
      ensures Now() == ConnectionUp(old(Now()), prepared, sends)
    {
      var petition := link.petition;
      link := Up;
      if petition {
        SendPetition(prepared, sends);
      }
    }

    method HandleTimer(prepared: bool, sends: bool)
      modifies this
      ensures Now() == TimerFired(old(Now()), prepared, sends)
    {
      if keepAliveTimer {
        keepAliveTimer := false;
        SendKeepAlive(prepared, sends);
      }
    }
  }
}
