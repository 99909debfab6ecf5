/**
 The client half of the CoAP engine (`Coap` and `Coap::RequestsCache` of
 src/library/coap.cpp): outstanding requests ordered by due time, one shared
 retransmission timer, exponential back-off and the finalisation of handlers.

 Times are milliseconds. `link(id, k)` says whether the k-th retransmission of request
 `id` (the first transmission for k = 0) can be handed to the endpoint. A handler is
 known by two facts: whether there is one, and whether it cancels all requests when it
 is called (`stops`), which re-enters the engine.
 */
module Requests {
  import opened Outcomes
  import opened Bytes
  import opened Timers

  const MAX_RETRANSMIT := 4
  const MAX_TRANSMIT_SPAN := 45000

  /** Two to three seconds, drawn at random for every confirmable request. */
  type InitialDelay = d: int | 2000 <= d < 3000 witness 2000

  datatype Type = Confirmable | NonConfirmable | Acknowledgment | Reset

  datatype Request = Request(id: nat, typ: Type, endpoint: nat, messageId: Word, token: ByteArray, stops: bool,
                             start: int, first: InitialDelay)

  datatype Holder = Holder(request: Request, handler: bool, count: nat, delay: nat, nextShot: int, acked: bool)

  /** Why a handler was called. */
  datatype Result = Refused | SendFailed | Replied | WasReset | TimedOut | Cancelled

  datatype Call = Call(id: nat, result: Result)

  datatype Transmission = Transmission(request: Request, attempt: nat, time: int)

  /** What is known of a request from the moment it is passed to the engine. */
  datatype Issue = Issue(typ: Type, handler: bool, stops: bool, accepted: bool)

  /** An empty message sent in answer to one from the peer. */
  datatype Empty = Empty(typ: Type, endpoint: nat, messageId: Word)

  datatype State = State(messageId: Word, cache: seq<Holder>, timer: Timer,
                         issued: seq<Issue>, calls: seq<Call>, sent: seq<Transmission>, empties: seq<Empty>)

  type Link = (nat, nat) -> bool

  // ---------------------------------------------------------------------------
  // The cache
  // ---------------------------------------------------------------------------

  /** `std::multiset::emplace`: behind all holders that are due no later. */
  function Inserted(cache: seq<Holder>, h: Holder): seq<Holder> {
    if cache == [] || h.nextShot < cache[0].nextShot then [h] + cache
    else [cache[0]] + Inserted(cache[1..], h)
  }

  /** Without the first holder of request `id`, if there is one. */
  function Removed(cache: seq<Holder>, id: nat): (r: seq<Holder>)
    ensures |r| <= |cache| && Handlers(r) <= Handlers(cache)
  {
    if cache == [] then []
    else if cache[0].request.id == id then cache[1..]
    else [cache[0]] + Removed(cache[1..], id)
  }

  /** `Inserted` in terms of the position behind the holders that are due no later. */
  lemma {:induction false} InsertedAt(cache: seq<Holder>, h: Holder, i: nat)
    requires i <= |cache| && forall k :: 0 <= k < i ==> cache[k].nextShot <= h.nextShot
    requires i < |cache| ==> h.nextShot < cache[i].nextShot
    ensures Inserted(cache, h) == cache[..i] + [h] + cache[i..]
  {
    if i > 0 {
      InsertedAt(cache[1..], h, i - 1);
      SpliceIn(cache, h, i);
    } else {
      NothingBefore(cache);
      assert cache[..0] + [h] + cache[0..] == [h] + cache;
    }
  }

  /** `Removed` in terms of the position of the first holder of the request. */
  lemma {:induction false} RemovedAt(cache: seq<Holder>, id: nat, i: nat)
    requires i <= |cache| && forall k :: 0 <= k < i ==> cache[k].request.id != id
    requires i < |cache| ==> cache[i].request.id == id
    ensures Removed(cache, id) == if i < |cache| then cache[..i] + cache[i + 1..] else cache
  {
    hide Handlers;
    if i > 0 {
      RemovedAt(cache[1..], id, i - 1);
      HeadAndTail(cache);
      if i < |cache| {
        SpliceOut(cache, i);
      }
    } else if cache != [] {
      NothingBefore(cache[1..]);
    }
  }

  function Handlers(cache: seq<Holder>): nat {
    if cache == [] then 0 else (if cache[0].handler then 1 else 0) + Handlers(cache[1..])
  }

  /** `UpdateTimer`. */
  function Updated(s: State): State {
    if s.cache == [] then s.(timer := Stopped)
    else if s.timer.Stopped? || s.cache[0].nextShot < s.timer.fireTime then s.(timer := Running(s.cache[0].nextShot))
    else s
  }

  function WithPut(s: State, h: Holder): State {
    Updated(s.(cache := Inserted(s.cache, h)))
  }

  function Eliminated(s: State, id: nat): State {
    Updated(s.(cache := Removed(s.cache, id)))
  }

  lemma {:induction false} HandlersUpdate(cache: seq<Holder>, i: nat)
    requires i < |cache| && cache[i].handler
    ensures Handlers(cache[i := cache[i].(handler := false)]) == Handlers(cache) - 1
  {
    var c := cache[i := cache[i].(handler := false)];
    if i == 0 {
      assert c[1..] == cache[1..];
    } else {
      HandlersUpdate(cache[1..], i - 1);
      assert c[1..] == cache[1..][i - 1 := cache[i].(handler := false)];
    }
  }

  lemma {:induction false} RemovedShrinks(cache: seq<Holder>, i: nat)
    requires i < |cache|
    ensures |Removed(cache, cache[i].request.id)| < |cache|
  {
    if cache[0].request.id != cache[i].request.id {
      RemovedShrinks(cache[1..], i - 1);
    }
  }

  // ---------------------------------------------------------------------------
  // Finalisation and cancellation
  // ---------------------------------------------------------------------------

  /** Call a handler, which may cancel all requests. */
  function Called(s: State, id: nat, stops: bool, result: Result): (r: State)
    ensures stops ==> r.cache == []
    ensures !stops ==> r.cache == s.cache
    decreases Handlers(s.cache), |s.cache|, 2
  {
    var called := s.(calls := s.calls + [Call(id, result)]);
    if stops then CancelAll(called) else called
  }

  /** `FinalizeTransaction` on a holder in the cache: its handler is cleared before it is called. */
  function Finalized(s: State, i: nat, result: Result): (r: State)
    requires i < |s.cache|
    ensures |r.cache| < |s.cache| && Handlers(r.cache) <= Handlers(s.cache)
    decreases Handlers(s.cache), |s.cache|, 0
  {
    var h := s.cache[i];
    RemovedShrinks(s.cache, i);
    if !h.handler then Eliminated(s, h.request.id)
    else
      HandlersUpdate(s.cache, i);
      var cleared := s.(cache := s.cache[i := h.(handler := false)]);
      RemovedShrinks(cleared.cache, i);
      Eliminated(Called(cleared, h.request.id, h.request.stops, result), h.request.id)
  }

  /** `CancelRequests`. */
  function CancelAll(s: State): (r: State)
    ensures r.cache == []
    decreases Handlers(s.cache), |s.cache|, 1
  {
    if s.cache == [] then s else CancelAll(Finalized(s, 0, Cancelled))
  }

  /** `FinalizeTransaction` on a copy of a holder: a holder left in the cache keeps its handler. */
  function FinalizedCopy(s: State, h: Holder, result: Result): State {
    if !h.handler then Eliminated(s, h.request.id)
    else Eliminated(Called(s, h.request.id, h.request.stops, result), h.request.id)
  }

  // ---------------------------------------------------------------------------
  // Sending
  // ---------------------------------------------------------------------------

  datatype Outgoing = Outgoing(typ: Type, endpoint: nat, token: ByteArray, handler: bool, stops: bool, first: InitialDelay)

  /** `SendRequest`: only a confirmable request is remembered. */
  function SentRequest(s: State, out: Outgoing, now: int, link: Link): State {
    var id := |s.issued|;
    if !out.typ.Confirmable? && !out.typ.NonConfirmable? then
      Reported(s.(issued := s.issued + [Issue(out.typ, out.handler, out.stops, false)]), id, out, Refused)
    else
      var request := Request(id, out.typ, out.endpoint, Wrap16(s.messageId + 1), out.token, out.stops, now, out.first);
      var tried := s.(messageId := Wrap16(s.messageId + 1),
                      issued := s.issued + [Issue(out.typ, out.handler, out.stops, link(id, 0))],
                      sent := s.sent + [Transmission(request, 0, now)]);
      if !link(id, 0) then Reported(tried, id, out, SendFailed)
      else if out.typ.Confirmable? then
        WithPut(tried, Holder(request, out.handler, 0, out.first, now + out.first, false))
      else tried
  }

  function Reported(s: State, id: nat, out: Outgoing, result: Result): State {
    if out.handler then Called(s, id, out.stops, result) else s
  }

  // ---------------------------------------------------------------------------
  // Receiving
  // ---------------------------------------------------------------------------

  /** A message from the peer that is not a request; `empty` tells an empty one from a response. */
  datatype Response = Response(typ: Type, empty: bool, endpoint: nat, messageId: Word, token: ByteArray)

  predicate Matches(h: Holder, r: Response) {
    h.request.endpoint == r.endpoint &&
    match r.typ
    case Reset => h.request.messageId == r.messageId
    case Acknowledgment => h.request.messageId == r.messageId
    case Confirmable => h.request.token == r.token
    case NonConfirmable => h.request.token == r.token
  }

  /** Index of the first holder that the response matches, or the size of the cache. */
  function MatchIndex(cache: seq<Holder>, r: Response): (i: nat)
    ensures i <= |cache|
    ensures i < |cache| ==> Matches(cache[i], r)
  {
    if cache == [] || Matches(cache[0], r) then 0 else 1 + MatchIndex(cache[1..], r)
  }

  function Received(s: State, r: Response): State {
    var i := MatchIndex(s.cache, r);
    if i == |s.cache| then
      if r.typ.Confirmable? then s.(empties := s.empties + [Empty(Reset, r.endpoint, r.messageId)]) else s
    else
      match r.typ
      case Reset => if r.empty then Finalized(s, i, WasReset) else s
      case Acknowledgment =>
        if r.empty then Acknowledged(s, i)
        else if s.cache[i].request.token == r.token then Finalized(s, i, Replied)
        else s
      case Confirmable =>
        Finalized(s.(empties := s.empties + [Empty(Acknowledgment, r.endpoint, r.messageId)]), i, Replied)
      case NonConfirmable => Finalized(s, i, Replied)
  }

  /** An empty acknowledgement ends the transaction only when no one waits for a response. */
  function Acknowledged(s: State, i: nat): State
    requires i < |s.cache|
  {
    var h := s.cache[i];
    var marked := s.(cache := s.cache[i := h.(acked := h.acked || h.request.typ.Confirmable?)]);
    if h.handler then marked else Eliminated(marked, h.request.id)
  }

  // ---------------------------------------------------------------------------
  // Retransmitting
  // ---------------------------------------------------------------------------

  /** The number of holders that are due before `now`. */
  function Due(cache: seq<Holder>, now: int): nat {
    if cache == [] then 0 else (if cache[0].nextShot < now then 1 else 0) + Due(cache[1..], now)
  }

  function BackedOff(h: Holder, now: int): Holder {
    h.(count := h.count + 1, delay := 2 * h.delay, nextShot := now + 2 * h.delay)
  }

  /** One round of the `Retransmit` loop. */
  function RetransmittedFirst(s: State, now: int, link: Link): State
    requires s.cache != []
  {
    var h := s.cache[0];
    var rest := Updated(s.(cache := s.cache[1..]));
    if !h.request.typ.Confirmable? || h.count >= MAX_RETRANSMIT then FinalizedCopy(rest, h, TimedOut)
    else
      var again := BackedOff(h, now);
      var put := WithPut(rest, again);
      if h.acked then put
      else
        var tried := put.(sent := put.sent + [Transmission(h.request, again.count, now)]);
        if link(h.request.id, again.count) then tried else FinalizedCopy(tried, again, SendFailed)
  }

  function Retransmitted(s: State, now: int, link: Link): State
    decreases Due(s.cache, now)
  {
    if s.cache == [] || s.cache[0].nextShot >= now then Updated(s)
    else
      DueFalls(s, now, link);
      Retransmitted(RetransmittedFirst(s, now, link), now, link)
  }

  lemma {:induction false} DueInserted(cache: seq<Holder>, h: Holder, now: int)
    ensures Due(Inserted(cache, h), now) == Due(cache, now) + if h.nextShot < now then 1 else 0
  {
    var r := Inserted(cache, h);
    if cache == [] || h.nextShot < cache[0].nextShot {
      assert r[1..] == cache;
    } else {
      DueInserted(cache[1..], h, now);
      assert r[1..] == Inserted(cache[1..], h);
    }
  }

  lemma {:induction false} DueRemoved(cache: seq<Holder>, id: nat, now: int)
    ensures Due(Removed(cache, id), now) <= Due(cache, now)
  {
    if cache != [] && cache[0].request.id != id {
      DueRemoved(cache[1..], id, now);
      assert Removed(cache, id)[1..] == Removed(cache[1..], id);
    }
  }

  /** Every round of the loop leaves fewer holders due before the captured time. */
  lemma DueFalls(s: State, now: int, link: Link)
    requires s.cache != [] && s.cache[0].nextShot < now
    ensures Due(RetransmittedFirst(s, now, link).cache, now) < Due(s.cache, now)
  {
    hide Inserted, FinalizedCopy;
    var h := s.cache[0];
    var rest, again := Updated(s.(cache := s.cache[1..])), BackedOff(h, now);
    var put := WithPut(rest, again);
    DueInserted(rest.cache, again, now);
    DueFinalized(rest, h, TimedOut, now);
    DueFinalized(put.(sent := put.sent + [Transmission(h.request, again.count, now)]), again, SendFailed, now);
  }

  lemma DueFinalized(s: State, h: Holder, result: Result, now: int)
    ensures Due(FinalizedCopy(s, h, result).cache, now) <= Due(s.cache, now)
  {
    hide Removed, Called;
    DueRemoved(s.cache, h.request.id, now);
    NothingRemoved(h.request.id);
  }

  lemma NothingRemoved(id: nat)
    ensures Removed([], id) == []
  {
  }

  /** The timer fires: libevent has already taken a single-shot timer out of service. */
  function Fired(s: State, now: int, link: Link): State {
    if s.timer.Stopped? || now < s.timer.fireTime then s
    else Retransmitted(s.(timer := Stopped), now, link)
  }
}
