/**
 What holds of the commissioner's state after every run: which requests can be
 outstanding in which phase, and how the commissioner becomes active.
 */
module CommissionerRuns {
  import Outcomes
  import opened Bytes
  import opened Tlv
  import opened Datasets
  import opened DatasetCodec
  import opened Commissioner

  // ---------------------------------------------------------------------------
  // What cancelling amounts to
  // ---------------------------------------------------------------------------

  /** How many requests of a kind wait for an answer. */
  function Waiting(ps: seq<Pending>, kind: Kind): nat {
    if ps == [] then 0 else (if ps[0].live && ps[0].kind == kind then 1 else 0) + Waiting(ps[1..], kind)
  }

  function Cleared(s: State): State {
    if Waiting(s.outstanding, KeepAlive) > 0 then
      s.(outstanding := [], phase := Disabled, keepAliveTimer := false, link := Down)
    else if Waiting(s.outstanding, Petition) > 0 then s.(outstanding := [], phase := Disabled)
    else s.(outstanding := [])
  }

  /**
   Cancelling ends a waiting petition, and a waiting keep-alive takes the connection, the
   timer and every other request down with it, from within the loop that cancels.
   */
  lemma {:induction false} CancelAllIs(s: State)
    ensures CancelAll(s) == Cleared(s)
    decreases Live(s.outstanding), |s.outstanding|
  {
    if s.outstanding == [] {
    } else {
      var p, rest := s.outstanding[0], s.outstanding[1..];
      var dead := s.(outstanding := s.outstanding[0 := p.(live := false)]);
      assert dead.outstanding[1..] == rest;
      if p.live && p.kind == KeepAlive {
        LiveCleared(s.outstanding, 0);
        CancelAllIs(dead.(phase := Disabled, keepAliveTimer := false, link := Down));
        KeepAliveFailedIs(dead);
      }
      FinalizedFirst(s);
      CancelAllIs(Finalized(s, 0, NoReply));
    }
  }

  lemma FinalizedFirst(s: State)
    requires s.outstanding != []
    ensures var p := s.outstanding[0];
            var dead := s.(outstanding := s.outstanding[0 := p.(live := false)]);
            Finalized(s, 0, NoReply) ==
            if !p.live || p.kind.Other? then s.(outstanding := s.outstanding[1..])
            else if p.kind.Petition? then s.(outstanding := s.outstanding[1..], phase := Disabled)
            else KeepAliveFailed(dead)
  {
    var p := s.outstanding[0];
    var dead := s.(outstanding := s.outstanding[0 := p.(live := false)]);
    assert dead.outstanding[1..] == s.outstanding[1..];
    NoReplyFails();
    assert Answered(dead, p.kind, NoReply) ==
           if p.kind.Other? then dead else if p.kind.Petition? then dead.(phase := Disabled) else KeepAliveFailed(dead);
  }

  lemma KeepAliveFailedIs(s: State)
    ensures KeepAliveFailed(s) ==
            CancelAll(s.(phase := Disabled, keepAliveTimer := false, link := Down)).(phase := Disabled)
  {
    var disabled := s.(phase := Disabled);
    assert KeepAliveFailed(s) == Resigned(disabled, false, false);
    assert Resigned(disabled, false, false) == Disconnected(disabled.(keepAliveTimer := false));
  }

  lemma KeepAliveFailedClears(s: State)
    ensures KeepAliveFailed(s) == s.(outstanding := [], phase := Disabled, keepAliveTimer := false, link := Down)
  {
    KeepAliveFailedIs(s);
    CancelAllIs(s.(phase := Disabled, keepAliveTimer := false, link := Down));
  }

  /** Disconnecting leaves the keep-alive timer running exactly when no keep-alive was outstanding. */
  lemma DisconnectedIs(s: State)
    ensures var r := Disconnected(s);
            && r.phase.Disabled? && r.outstanding == [] && r.link.Down? && r.sessionId == s.sessionId
            && (r.keepAliveTimer <==> s.keepAliveTimer && Waiting(s.outstanding, KeepAlive) == 0)
  {
    CancelAllIs(s.(link := Down));
  }

  // ---------------------------------------------------------------------------
  // The invariant
  // ---------------------------------------------------------------------------

  predicate Absent(ps: seq<Pending>, id: nat) {
    forall p :: p in ps ==> p.id != id
  }

  predicate Distinct(ps: seq<Pending>) {
    ps != [] ==> Distinct(ps[1..]) && Absent(ps[1..], ps[0].id)
  }

  predicate Consistent(s: State) {
    && Distinct(s.outstanding) && (forall p :: p in s.outstanding ==> p.live && p.id < s.nextId)
    && match s.phase
       case Disabled => Waiting(s.outstanding, Petition) == 0 && Waiting(s.outstanding, KeepAlive) == 0
       case Petitioning => Waiting(s.outstanding, Petition) == 1 && Waiting(s.outstanding, KeepAlive) == 0
       case Active => Waiting(s.outstanding, Petition) == 0 && s.keepAliveTimer
  }

  lemma {:induction false} AppendWaiting(ps: seq<Pending>, p: Pending, kind: Kind)
    ensures Waiting(ps + [p], kind) == Waiting(ps, kind) + if p.live && p.kind == kind then 1 else 0
  {
    if ps == [] {
      assert ps + [p] == [p] && [p][1..] == [];
    } else {
      assert (ps + [p])[1..] == ps[1..] + [p];
      AppendWaiting(ps[1..], p, kind);
    }
  }

  lemma {:induction false} AppendDistinct(ps: seq<Pending>, p: Pending)
    requires Distinct(ps) && Absent(ps, p.id)
    ensures Distinct(ps + [p])
  {
    if ps == [] {
      assert (ps + [p])[1..] == [];
    } else {
      assert (ps + [p])[1..] == ps[1..] + [p] && ps[0] in ps;
      AppendDistinct(ps[1..], p);
    }
  }

  lemma {:induction false} RemovedWaiting(ps: seq<Pending>, i: nat, kind: Kind)
    requires i < |ps| && Distinct(ps)
    ensures Waiting(ps, kind)
            == Waiting(Removed(ps, ps[i].id), kind) + if ps[i].live && ps[i].kind == kind then 1 else 0
  {
    if i == 0 {
    } else {
      assert ps[1..][i - 1] in ps[1..];
      RemovedWaiting(ps[1..], i - 1, kind);
      assert Removed(ps, ps[i].id)[1..] == Removed(ps[1..], ps[i].id);
    }
  }

  lemma {:induction false} RemovedDistinct(ps: seq<Pending>, id: nat)
    requires Distinct(ps)
    ensures Distinct(Removed(ps, id)) && forall p :: p in Removed(ps, id) ==> p in ps
  {
    if ps == [] {
    } else {
      assert ps == [ps[0]] + ps[1..];
      RemovedDistinct(ps[1..], id);
      if ps[0].id != id {
        assert Removed(ps, id)[1..] == Removed(ps[1..], id);
      }
    }
  }

  lemma DistinctFromFirst(ps: seq<Pending>, i: nat)
    requires Distinct(ps) && 0 < i < |ps|
    ensures Distinct(ps[1..]) && ps[0].id != ps[i].id
  {
    assert ps[1..][i - 1] in ps[1..];
  }

  lemma {:induction false} RemovedDead(ps: seq<Pending>, i: nat)
    requires i < |ps| && Distinct(ps)
    ensures Removed(ps[i := ps[i].(live := false)], ps[i].id) == Removed(ps, ps[i].id)
  {
    hide Distinct;
    var dead := ps[i].(live := false);
    if i == 0 {
      assert ps[0 := dead][1..] == ps[1..];
    } else {
      DistinctFromFirst(ps, i);
      RemovedDead(ps[1..], i - 1);
      assert ps[i := dead][1..] == ps[1..][i - 1 := dead];
    }
  }

  /** Finalising an outstanding request, in terms of the request alone. */
  lemma FinalizedIs(s: State, i: nat, reply: Reply)
    requires i < |s.outstanding| && Distinct(s.outstanding) && s.outstanding[i].live
    ensures var p := s.outstanding[i];
            var rest := s.(outstanding := Removed(s.outstanding, p.id));
            Finalized(s, i, reply) ==
            if p.kind.KeepAlive? && !StateAccepted(reply) then
              s.(outstanding := [], phase := Disabled, keepAliveTimer := false, link := Down)
            else Answered(rest, p.kind, reply)
  {
    var p := s.outstanding[i];
    RemovedDead(s.outstanding, i);
    KeepAliveFailedClears(s.(outstanding := s.outstanding[i := p.(live := false)]));
  }

  lemma {:induction false} WaitingMember(ps: seq<Pending>, kind: Kind)
    requires Waiting(ps, kind) == 0
    ensures forall p :: p in ps ==> !(p.live && p.kind == kind)
  {
    if ps == [] {
    } else {
      assert ps == [ps[0]] + ps[1..];
      WaitingMember(ps[1..], kind);
    }
  }

  lemma FinalizedConsistent(s: State, i: nat, reply: Reply)
    requires Consistent(s) && i < |s.outstanding|
    ensures Consistent(Finalized(s, i, reply))
  {
    hide Finalized, Waiting, Removed;
    var p := s.outstanding[i];
    assert p in s.outstanding;
    FinalizedIs(s, i, reply);
    RemovedDistinct(s.outstanding, p.id);
    RemovedWaiting(s.outstanding, i, Petition);
    RemovedWaiting(s.outstanding, i, KeepAlive);
    NothingWaits();
    if s.phase.Disabled? {
      WaitingMember(s.outstanding, KeepAlive);
      WaitingMember(s.outstanding, Petition);
    }
    if s.phase.Petitioning? {
      WaitingMember(s.outstanding, KeepAlive);
    }
    if s.phase.Active? {
      WaitingMember(s.outstanding, Petition);
    }
  }

  lemma NothingWaits()
    ensures Waiting([], Petition) == 0 && Waiting([], KeepAlive) == 0 && Distinct([])
  {
  }

  lemma ClearedConsistent(s: State)
    requires s.outstanding == [] && s.phase.Disabled?
    ensures Consistent(s)
  {
  }

  lemma IssuedConsistent(s: State, kind: Kind)
    requires Distinct(s.outstanding) && forall p :: p in s.outstanding ==> p.live && p.id < s.nextId
    ensures var r := s.(outstanding := s.outstanding + [Pending(s.nextId, kind, true)], nextId := s.nextId + 1);
            && Distinct(r.outstanding) && (forall p :: p in r.outstanding ==> p.live && p.id < r.nextId)
            && forall k :: Waiting(r.outstanding, k) == Waiting(s.outstanding, k) + if k == kind then 1 else 0
  {
    hide Distinct, Waiting;
    var p := Pending(s.nextId, kind, true);
    AppendDistinct(s.outstanding, p);
    forall k ensures Waiting(s.outstanding + [p], k) == Waiting(s.outstanding, k) + if k == kind then 1 else 0 {
      AppendWaiting(s.outstanding, p, k);
    }
  }

  lemma PetitionSentConsistent(s: State, prepared: bool, sends: bool)
    requires Consistent(s)
    ensures Consistent(PetitionSent(s, prepared, sends))
  {
    hide Distinct, Waiting;
    IssuedConsistent(s, Petition);
  }

  /** From any state that is consistent but for the timer, which has just fired. */
  lemma KeepAliveSentConsistent(s: State, prepared: bool, sends: bool)
    requires Consistent(s.(keepAliveTimer := true))
    ensures Consistent(KeepAliveSent(s, prepared, sends))
    ensures KeepAliveSent(s, prepared, sends).phase.Active? ==> s.phase.Active?
    ensures KeepAliveSent(s, prepared, sends).sessionId == s.sessionId
  {
    hide Distinct, Waiting, Disconnected, KeepAliveFailed;
    DisconnectedIs(s);
    ClearedConsistent(Disconnected(s));
    IssuedConsistent(s, KeepAlive);
    KeepAliveFailedClears(s.(keepAliveTimer := true));
    ClearedConsistent(KeepAliveFailed(s.(keepAliveTimer := true)));
  }

  lemma ResignedIs(s: State, prepared: bool, sends: bool)
    requires Consistent(s)
    ensures var r := Resigned(s, prepared, sends);
            r.phase.Disabled? && r.outstanding == [] && !r.keepAliveTimer && r.sessionId == s.sessionId
  {
    hide Distinct, Waiting, Disconnected, KeepAliveSent;
    var told := if s.phase.Active? then KeepAliveSent(s, prepared, sends) else s;
    if s.phase.Active? {
      KeepAliveSentConsistent(s, prepared, sends);
    }
    DisconnectedIs(told.(keepAliveTimer := false));
  }

  lemma CopyFailedConsistent(s: State, i: nat)
    requires Consistent(s) && i < |s.outstanding|
    ensures Consistent(CopyFailed(s, i)) && (CopyFailed(s, i).phase.Active? ==> s.phase.Active?)
    ensures CopyFailed(s, i).sessionId == s.sessionId
  {
    hide Waiting, Removed, KeepAliveFailed;
    var p := s.outstanding[i];
    assert p in s.outstanding;
    KeepAliveFailedClears(s);
    RemovedNothing(p.id);
    RemovedDistinct(s.outstanding, p.id);
    RemovedWaiting(s.outstanding, i, Petition);
    RemovedWaiting(s.outstanding, i, KeepAlive);
    NothingWaits();
    if !s.phase.Active? {
      WaitingMember(s.outstanding, KeepAlive);
    }
    if !s.phase.Petitioning? {
      WaitingMember(s.outstanding, Petition);
    }
  }

  lemma RemovedNothing(id: nat)
    ensures Removed([], id) == []
  {
  }

  lemma CancelConsistent(s: State)
    requires Consistent(s)
    ensures Consistent(CancelAll(s)) && (CancelAll(s).phase.Active? ==> s.phase.Active?)
    ensures CancelAll(s).sessionId == s.sessionId
  {
    hide Waiting;
    CancelAllIs(s);
    NothingWaits();
  }

  // ---------------------------------------------------------------------------
  // Runs
  // ---------------------------------------------------------------------------

  /** What can happen to a commissioner, in any order. */
  datatype Event =
    | Petitions(prepared: bool, sends: bool)
    | Connects(prepared: bool, sends: bool)
    | AsksToConnect
    | LosesLink
    | SendsOther(sends: bool)
    | Answers(i: nat, reply: Reply)
    | RetransmissionFails(i: nat)
    | TimerFires(prepared: bool, sends: bool)
    | Resigns(prepared: bool, sends: bool)
    | Disconnects
    | Cancels

  function Step(s: State, e: Event): State {
    match e
    case Petitions(prepared, sends) => if s.link.Connecting? then s else Petitioned(s, prepared, sends)
    case Connects(prepared, sends) => ConnectionUp(s, prepared, sends)
    case AsksToConnect => if s.link.Down? then ConnectionAsked(s) else s
    case LosesLink => s.(link := Down)
    case SendsOther(sends) =>
      if s.link.Up? && sends then
        s.(outstanding := s.outstanding + [Pending(s.nextId, Other, true)], nextId := s.nextId + 1)
      else s
    case Answers(i, reply) => if i < |s.outstanding| then Finalized(s, i, reply) else s
    case RetransmissionFails(i) => if i < |s.outstanding| then CopyFailed(s, i) else s
    case TimerFires(prepared, sends) => TimerFired(s, prepared, sends)
    case Resigns(prepared, sends) => Resigned(s, prepared, sends)
    case Disconnects => Disconnected(s)
    case Cancels => CancelAll(s)
  }

  function Run(events: seq<Event>): State {
    if events == [] then INITIAL else Step(Run(events[..|events| - 1]), events[|events| - 1])
  }

  lemma StepConsistent(s: State, e: Event)
    requires Consistent(s)
    ensures Consistent(Step(s, e))
  {
    hide Distinct, Waiting, Finalized, CopyFailed, KeepAliveSent, Resigned, Disconnected, CancelAll, PetitionSent;
    match e
    case Petitions(prepared, sends) => PetitionSentConsistent(s, prepared, sends);
    case Connects(prepared, sends) => PetitionSentConsistent(s.(link := Up), prepared, sends);
    case AsksToConnect =>
    case LosesLink =>
    case SendsOther(sends) => IssuedConsistent(s, Other);
    case Answers(i, reply) => if i < |s.outstanding| { FinalizedConsistent(s, i, reply); }
    case RetransmissionFails(i) => if i < |s.outstanding| { CopyFailedConsistent(s, i); }
    case TimerFires(prepared, sends) =>
      if s.keepAliveTimer { KeepAliveSentConsistent(s.(keepAliveTimer := false), prepared, sends); }
    case Resigns(prepared, sends) =>
      ResignedIs(s, prepared, sends);
      ClearedConsistent(Resigned(s, prepared, sends));
    case Disconnects =>
      DisconnectedIs(s);
      ClearedConsistent(Disconnected(s));
    case Cancels => CancelConsistent(s);
  }

  /**
   After every run: disabled means no petition and no keep-alive outstanding, petitioning
   exactly one petition and no keep-alive, active no petition and the keep-alive timer armed.
   */
  lemma {:induction false} RunConsistent(events: seq<Event>)
    ensures Consistent(Run(events))
  {
    hide Step, Consistent;
    if events == [] {
      ClearedConsistent(INITIAL);
    } else {
      RunConsistent(events[..|events| - 1]);
      StepConsistent(Run(events[..|events| - 1]), events[|events| - 1]);
    }
  }

  /** A reply, byte by byte, that accepts a petition and gives it a session id. */
  predicate Grants(reply: Reply, sessionId: Word) {
    && reply.Reply? && reply.code == 0x44 && SetOf(reply.payload).Ok?
    && var tlvs := SetOf(reply.payload).value;
       && STATE in tlvs && tlvs[STATE] == [1]
       && COMMISSIONER_SESSION_ID in tlvs && tlvs[COMMISSIONER_SESSION_ID] == BigEndian(2, sessionId)
  }

  lemma SessionGranted(reply: Reply)
    ensures SessionOf(reply).Some? ==> Grants(reply, SessionOf(reply).value)
  {
    hide SetOf, AllValid, BigEndian, Pair;
    if SessionOf(reply).Some? {
      var tlvs := SetOf(reply.payload).value;
      FieldLengths(tlvs);
      var value := tlvs[COMMISSIONER_SESSION_ID];
      PairDigits(value[0], value[1]);
      assert value == [value[0], value[1]];
    }
  }

  /**
   In every run, only a reply to the outstanding petition makes the commissioner active or
   changes its session id: one with code 2.04 whose payload parses, has a State TLV that says
   accept and a Commissioner Session Id TLV, which is the id the commissioner takes.
   */
  lemma OnlyAcceptanceActivates(events: seq<Event>, e: Event)
    ensures var (s, r) := (Run(events), Step(Run(events), e));
            r.sessionId != s.sessionId || (r.phase.Active? && !s.phase.Active?) ==>
              && s.phase.Petitioning? && r.phase.Active? && e.Answers?
              && e.i < |s.outstanding| && s.outstanding[e.i].kind.Petition?
              && Grants(e.reply, r.sessionId)
  {
    hide Run, Distinct, Waiting, Removed, Finalized, CopyFailed, KeepAliveSent, Resigned, Disconnected, CancelAll,
         SessionOf, StateAccepted, Grants;
    RunConsistent(events);
    NoReplyFails();
    var s := Run(events);
    match e
    case Answers(i, reply) =>
      if i < |s.outstanding| {
        assert s.outstanding[i] in s.outstanding;
        FinalizedIs(s, i, reply);
        SessionGranted(reply);
        if !s.phase.Petitioning? { WaitingMember(s.outstanding, Petition); }
      }
    case RetransmissionFails(i) => if i < |s.outstanding| { CopyFailedConsistent(s, i); }
    case TimerFires(prepared, sends) =>
      if s.keepAliveTimer { KeepAliveSentConsistent(s.(keepAliveTimer := false), prepared, sends); }
    case Resigns(prepared, sends) => ResignedIs(s, prepared, sends);
    case Disconnects => DisconnectedIs(s);
    case Cancels => CancelConsistent(s);
    case _ =>
  }

  lemma OneMore(events: seq<Event>, e: Event)
    ensures Run(events + [e]) == Step(Run(events), e)
  {
    assert (events + [e])[..|events|] == events;
  }

  /** An accepting reply with session id 7. */
  const GRANT := Reply(CHANGED, [STATE, 1, STATE_ACCEPT, COMMISSIONER_SESSION_ID, 2, 0, 7])

  lemma GrantIsAccepted()
    ensures SessionOf(GRANT) == Outcomes.Some(7)
  {
    hide SetOf, AllValid;
    GrantParses();
  }

  lemma GrantParses()
    ensures SetOf(GRANT.payload) == Outcomes.Ok(map[STATE := [STATE_ACCEPT], COMMISSIONER_SESSION_ID := [0, 7]])
  {
    hide ParseTlvs;
    var state, session := Tlv(STATE, [STATE_ACCEPT]), Tlv(COMMISSIONER_SESSION_ID, [0, 7]);
    NothingParses();
    AppendOneTlv([], state, map[]);
    assert [] + TlvBytes(state) == TlvBytes(state);
    AppendOneTlv(TlvBytes(state), session, map[STATE := [STATE_ACCEPT]]);
    assert TlvBytes(state) + TlvBytes(session) == GRANT.payload;
  }

  const CONNECT := [Petitions(true, true), Connects(true, true)]

  lemma PetitioningRun()
    ensures Run(CONNECT) == State(Petitioning, false, Up, 0, [Pending(0, Petition, true)], 1)
  {
    OneMore([], Petitions(true, true));
    assert [] + [Petitions(true, true)] == [Petitions(true, true)];
    OneMore([Petitions(true, true)], Connects(true, true));
    assert CONNECT == [Petitions(true, true)] + [Connects(true, true)];
  }

  /** A disabled commissioner may have its timer running: disconnect it while it waits for no keep-alive. */
  lemma DisabledWithTimer()
    ensures var s := Run(CONNECT + [Answers(0, GRANT)] + [Disconnects]);
            s.phase.Disabled? && s.link.Down? && s.outstanding == [] && s.keepAliveTimer
  {
    hide Disconnected, Finalized, SessionOf;
    GrantIsAccepted();
    PetitioningRun();
    OneMore(CONNECT, Answers(0, GRANT));
    FinalizedIs(Run(CONNECT), 0, GRANT);
    OneMore(CONNECT + [Answers(0, GRANT)], Disconnects);
    DisconnectedIs(Run(CONNECT + [Answers(0, GRANT)]));
  }

  /** The timer runs in no phase but Active. */
  predicate TimerOnlyWhenActive(s: State) {
    s.keepAliveTimer ==> s.phase.Active?
  }

  /** `Disconnect` with the timer running and no keep-alive outstanding. */
  predicate LeavesTimer(s: State, e: Event) {
    e.Disconnects? && s.keepAliveTimer && Waiting(s.outstanding, KeepAlive) == 0
  }

  /** Of all events, in all consistent states, exactly such a `Disconnect` leaves a timer behind. */
  lemma OnlyDisconnectLeavesTimer(s: State, e: Event)
    requires Consistent(s) && TimerOnlyWhenActive(s)
    ensures TimerOnlyWhenActive(Step(s, e)) <==> !LeavesTimer(s, e)
  {
    hide Distinct, Waiting, Removed, Finalized, CopyFailed, KeepAliveSent, Resigned, Disconnected, CancelAll, SessionOf,
         StateAccepted;
    NoReplyFails();
    match e
    case Answers(i, reply) =>
      if i < |s.outstanding| {
        assert s.outstanding[i] in s.outstanding;
        FinalizedIs(s, i, reply);
        if !s.phase.Active? { WaitingMember(s.outstanding, KeepAlive); }
        if s.phase.Active? { WaitingMember(s.outstanding, Petition); }
      }
    case RetransmissionFails(i) => if i < |s.outstanding| { CopyFailedTimer(s, i); }
    case TimerFires(prepared, sends) => if s.keepAliveTimer { KeepAliveSentTimer(s.(keepAliveTimer := false), prepared, sends); }
    case Resigns(prepared, sends) => ResignedIs(s, prepared, sends);
    case Disconnects => DisconnectedIs(s);
    case Cancels => CancelAllIs(s);
    case _ =>
  }

  lemma CopyFailedTimer(s: State, i: nat)
    requires Consistent(s) && TimerOnlyWhenActive(s) && i < |s.outstanding|
    ensures TimerOnlyWhenActive(CopyFailed(s, i))
  {
    hide Distinct, Waiting, Removed, KeepAliveFailed, SessionOf, StateAccepted;
    NoReplyFails();
    assert s.outstanding[i] in s.outstanding;
    KeepAliveFailedClears(s);
    if s.phase.Active? {
      WaitingMember(s.outstanding, Petition);
    }
  }

  lemma KeepAliveSentTimer(s: State, prepared: bool, sends: bool)
    requires !s.keepAliveTimer
    ensures TimerOnlyWhenActive(KeepAliveSent(s, prepared, sends))
  {
    hide Disconnected, KeepAliveFailed;
    DisconnectedIs(s);
    KeepAliveFailedClears(s.(keepAliveTimer := true));
  }

  /**
   A run keeps the timer off outside Active, all the way through, if and only if it has no
   `Disconnect` while the timer runs and no keep-alive is outstanding.
   */
  lemma {:induction false} NoStaleTimerIff(events: seq<Event>)
    ensures (forall n :: 0 <= n <= |events| ==> TimerOnlyWhenActive(Run(events[..n]))) <==>
            (forall n :: 0 <= n < |events| ==> !LeavesTimer(Run(events[..n]), events[n]))
  {
    hide Run, LeavesTimer, TimerOnlyWhenActive;
    if events == [] {
      InitiallyOff();
      assert events[..0] == [];
    } else {
      var last := |events| - 1;
      var before := events[..last];
      NoStaleTimerIff(before);
      assert forall n :: 0 <= n <= last ==> before[..n] == events[..n];
      assert events[..last + 1] == events;
      LastEvent(events);
    }
  }

  lemma LastEvent(events: seq<Event>)
    requires events != []
    ensures var (before, e) := (events[..|events| - 1], events[|events| - 1]);
            TimerOnlyWhenActive(Run(before)) ==> (TimerOnlyWhenActive(Run(events)) <==> !LeavesTimer(Run(before), e))
  {
    hide Step, Consistent, LeavesTimer, TimerOnlyWhenActive;
    var (before, e) := (events[..|events| - 1], events[|events| - 1]);
    RunConsistent(before);
    if TimerOnlyWhenActive(Run(before)) {
      OnlyDisconnectLeavesTimer(Run(before), e);
    }
  }

  lemma InitiallyOff()
    ensures TimerOnlyWhenActive(Run([]))
  {
  }

  /** When such a timer fires, it ends a petition that is under way. */
  lemma StaleTimerEndsAPetition(events: seq<Event>, prepared: bool, sends: bool)
    requires Run(events).phase.Petitioning? && Run(events).keepAliveTimer
    ensures var r := Step(Run(events), TimerFires(prepared, sends));
            r.phase.Disabled? && r.outstanding == [] && r.link.Down?
  {
    hide Disconnected;
    DisconnectedIs(Run(events).(keepAliveTimer := false));
  }

  /** The next petition after `DisabledWithTimer` is such a one. */
  lemma PetitionWithStaleTimer()
    ensures var before := CONNECT + [Answers(0, GRANT)] + [Disconnects];
            var s := Run(before + [Petitions(true, true)] + [Connects(true, true)]);
            s.phase.Petitioning? && s.keepAliveTimer
  {
    DisabledWithTimer();
    var before := CONNECT + [Answers(0, GRANT)] + [Disconnects];
    OneMore(before, Petitions(true, true));
    OneMore(before + [Petitions(true, true)], Connects(true, true));
  }
}
