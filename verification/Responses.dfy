/**
 The server half of the CoAP engine (`Coap::HandleRequest`, `Coap::SendResponse` and
 `Coap::ResponsesCache` of src/library/coap.cpp): responses are remembered so that a
 repeated request is answered again without being processed again (section 4.5 of RFC 7252).

 Times are milliseconds. Nothing starts the expiry timer of the cache, so entries
 leave it only when it is cleared.
 */
module Responses {
  import opened Outcomes
  import opened Bytes
  import opened Requests

  /** `kExchangeLifetime`: 45 + 2 * 100 + 2 seconds. */
  const EXCHANGE_LIFETIME := 247000

  const NOT_FOUND: Byte := 132

  type Path = ByteArray

  datatype Incoming = Incoming(typ: Type, endpoint: nat, messageId: Word, token: ByteArray, path: Option<Path>)

  /** `code` and `body` are the application's; the rest is filled in when the response is sent. */
  datatype Answer = Answer(typ: Type, endpoint: nat, messageId: Word, token: ByteArray, code: Byte, body: ByteArray)

  datatype Entry = Entry(deadTime: int, answer: Answer)

  datatype Server = Server(messageId: Word, cache: seq<Entry>, resources: map<Path, bool>, defaultHandler: bool,
                           handled: seq<Incoming>, sent: seq<Answer>)

  // ---------------------------------------------------------------------------
  // The cache
  // ---------------------------------------------------------------------------

  /** `std::multimap::emplace`: behind all entries that die no later. */
  function Kept(cache: seq<Entry>, e: Entry): seq<Entry> {
    if cache == [] || e.deadTime < cache[0].deadTime then [e] + cache else [cache[0]] + Kept(cache[1..], e)
  }

  /** `Kept` in terms of the position behind the entries that die no later. */
  lemma {:induction false} KeptAt(cache: seq<Entry>, e: Entry, i: nat)
    requires i <= |cache| && forall k :: 0 <= k < i ==> cache[k].deadTime <= e.deadTime
    requires i < |cache| ==> e.deadTime < cache[i].deadTime
    ensures Kept(cache, e) == cache[..i] + [e] + cache[i..]
  {
    if i > 0 {
      KeptAt(cache[1..], e, i - 1);
      SpliceIn(cache, e, i);
    } else {
      NothingBefore(cache);
      assert cache[..0] + [e] + cache[0..] == [e] + cache;
    }
  }

  predicate Answers(a: Answer, endpoint: nat, messageId: Word) {
    a.endpoint == endpoint && a.messageId == messageId
  }

  /** The first cached answer to a message id of an endpoint. */
  function Cached(cache: seq<Entry>, endpoint: nat, messageId: Word): Option<Answer> {
    if cache == [] then None
    else if Answers(cache[0].answer, endpoint, messageId) then Some(cache[0].answer)
    else Cached(cache[1..], endpoint, messageId)
  }

  // ---------------------------------------------------------------------------
  // Operations
  // ---------------------------------------------------------------------------

  /** The answer as it goes out: with the request's token and endpoint, and its id unless one was set. */
  function Addressed(request: Incoming, answer: Answer): Answer {
    answer.(messageId := if answer.messageId == 0 then request.messageId else answer.messageId,
            token := request.token, endpoint := request.endpoint)
  }

  function Answered(s: Server, request: Incoming, answer: Answer, now: int): Server {
    var a := Addressed(request, answer);
    s.(cache := Kept(s.cache, Entry(now + EXCHANGE_LIFETIME, a)), sent := s.sent + [a])
  }

  /** `SendHeaderResponse`: an answer with a code and nothing else. */
  function AnsweredWithCode(s: Server, request: Incoming, code: Byte, now: int): Server {
    match request.typ
    case Confirmable =>
      Answered(s, request, Answer(Acknowledgment, request.endpoint, request.messageId, request.token, code, []), now)
    case NonConfirmable =>
      var id := Wrap16(s.messageId + 1);
      Answered(s.(messageId := id), request, Answer(NonConfirmable, request.endpoint, id, request.token, code, []), now)
    case _ => s
  }

  /** `HandleRequest`. */
  function Handled(s: Server, request: Incoming, now: int): Server {
    if request.path.None? then s
    else
      var cached := Cached(s.cache, request.endpoint, request.messageId);
      if cached.Some? then s.(sent := s.sent + [cached.value])
      else if request.path.value in s.resources then
        if s.resources[request.path.value] then s.(handled := s.handled + [request]) else s
      else if s.defaultHandler then s.(handled := s.handled + [request])
      else AnsweredWithCode(s, request, NOT_FOUND, now)
  }

  class CoapServer {
    var messageId: Word
    var cache: seq<Entry>
    var resources: map<Path, bool>
    var defaultHandler: bool

    // What the server has done so far: requests passed to handlers, and responses sent.
    var handled: seq<Incoming>
    var sent: seq<Answer>

    ghost function Now(): Server
      reads this
    {
      Server(messageId, cache, resources, defaultHandler, handled, sent)
    }

    constructor (resources: map<Path, bool>, defaultHandler: bool)
      ensures Now() == Server(0, [], resources, defaultHandler, [], [])
    {
      messageId, cache, handled, sent := 0, [], [], [];
      this.resources, this.defaultHandler := resources, defaultHandler;
    }

    /** `ResponsesCache::Put`. */
    method Put(a: Answer, now: int)
      modifies this`cache
      ensures cache == Kept(old(cache), Entry(now + EXCHANGE_LIFETIME, a))
    {
      var e, i := Entry(now + EXCHANGE_LIFETIME, a), 0;
      while i < |cache| && cache[i].deadTime <= e.deadTime
        invariant 0 <= i <= |cache| && forall k :: 0 <= k < i ==> cache[k].deadTime <= e.deadTime
      {
        i := i + 1;
      }
      KeptAt(cache, e, i);
      cache := cache[..i] + [e] + cache[i..];
    }

    /** `ResponsesCache::Match`. */
    method Match(request: Incoming) returns (r: Option<Answer>)
      ensures r == Cached(cache, request.endpoint, request.messageId)
    {
      assert cache[0..] == cache;
      for i := 0 to |cache|
        invariant Cached(cache[i..], request.endpoint, request.messageId)
                  == Cached(cache, request.endpoint, request.messageId)
      {
        assert cache[i..][1..] == cache[i + 1..];
        if cache[i].answer.endpoint != request.endpoint {
          continue;
        }
        if cache[i].answer.messageId != request.messageId {
          continue;
        }
        return Some(cache[i].answer);
      }
      r := None;
    }

    method SendResponse(request: Incoming, answer: Answer, now: int)
      modifies this
      ensures Now() == Answered(old(Now()), request, answer, now)
    {
      var response := answer;
      if response.messageId == 0 {
        response := response.(messageId := request.messageId);
      }
      response := response.(token := request.token);
      response := response.(endpoint := request.endpoint);
      Put(response, now);
      sent := sent + [response];
    }

    method SendHeaderResponse(code: Byte, request: Incoming, now: int)
      modifies this
      ensures Now() == AnsweredWithCode(old(Now()), request, code, now)
    {
      if request.typ.Confirmable? {
        var a := Answer(Acknowledgment, request.endpoint, request.messageId, request.token, code, []);
        SendResponse(request, a, now);
      } else if request.typ.NonConfirmable? {
        messageId := Wrap16(messageId + 1);
        var a := Answer(NonConfirmable, request.endpoint, messageId, request.token, code, []);
        SendResponse(request, a, now);
      }
    }

    method HandleRequest(request: Incoming, now: int)
      modifies this
      ensures Now() == Handled(old(Now()), request, now)
    {
      if request.path.None? {
        return;
      }
      var response := Match(request);
      if response.Some? {
        sent := sent + [response.value];
      } else if request.path.value in resources {
        if resources[request.path.value] {
          handled := handled + [request];
        }
      } else if defaultHandler {
        handled := handled + [request];
      } else {
        SendHeaderResponse(NOT_FOUND, request, now);
      }
    }

    method Clear()
      modifies this`cache
      ensures Now() == old(Now()).(cache := [])
    {
      cache := [];
    }
  }

  // ---------------------------------------------------------------------------
  // At most once
  // ---------------------------------------------------------------------------

  datatype Event = Receive(request: Incoming, now: int) | Respond(request: Incoming, answer: Answer, now: int)

  function Step(s: Server, e: Event): Server {
    match e
    case Receive(request, now) => Handled(s, request, now)
    case Respond(request, answer, now) => Answered(s, request, answer, now)
  }

  /** A run without `Clear`. */
  function Run(s: Server, events: seq<Event>): Server
    decreases |events|
  {
    if events == [] then s else Run(Step(s, events[0]), events[1..])
  }

  /** The clock does not go back. */
  predicate Clocked(events: seq<Event>, now: int)
    decreases |events|
  {
    events != [] ==> now <= events[0].now && Clocked(events[1..], events[0].now)
  }

  /** Every entry was made by `now`. */
  ghost predicate MadeBy(s: Server, now: int) {
    forall e :: e in s.cache ==> e.deadTime <= now + EXCHANGE_LIFETIME
  }

  lemma {:induction false} KeptMembers(cache: seq<Entry>, e: Entry)
    ensures forall x :: x in Kept(cache, e) ==> x == e || x in cache
  {
    if cache != [] && !(e.deadTime < cache[0].deadTime) {
      KeptMembers(cache[1..], e);
      assert cache == [cache[0]] + cache[1..];
    }
  }

  lemma StepMadeBy(s: Server, e: Event, now: int)
    requires MadeBy(s, now) && now <= e.now
    ensures MadeBy(Step(s, e), e.now)
  {
    hide Kept, Cached;
    match e
    case Respond(request, answer, t) => KeptMembers(s.cache, Entry(t + EXCHANGE_LIFETIME, Addressed(request, answer)));
    case Receive(request, t) =>
      var a := Answer(Acknowledgment, request.endpoint, request.messageId, request.token, NOT_FOUND, []);
      KeptMembers(s.cache, Entry(t + EXCHANGE_LIFETIME, Addressed(request, a)));
      var b := Answer(NonConfirmable, request.endpoint, Wrap16(s.messageId + 1), request.token, NOT_FOUND, []);
      KeptMembers(s.cache, Entry(t + EXCHANGE_LIFETIME, Addressed(request, b)));
  }

  lemma KeptAtEnd(cache: seq<Entry>, e: Entry)
    requires forall x :: x in cache ==> x.deadTime <= e.deadTime
    ensures Kept(cache, e) == cache + [e]
  {
    assert forall k :: 0 <= k < |cache| ==> cache[k] in cache;
    KeptAt(cache, e, |cache|);
    assert cache[..|cache|] + [e] + cache[|cache|..] == cache + [e];
  }

  lemma {:induction false} CachedAppend(cache: seq<Entry>, e: Entry, endpoint: nat, messageId: Word)
    ensures Cached(cache + [e], endpoint, messageId)
            == if Cached(cache, endpoint, messageId).Some? then Cached(cache, endpoint, messageId)
               else if Answers(e.answer, endpoint, messageId) then Some(e.answer) else None
  {
    if cache == [] {
      assert cache + [e] == [e] && [e][1..] == [];
    } else {
      assert (cache + [e])[1..] == cache[1..] + [e];
      CachedAppend(cache[1..], e, endpoint, messageId);
    }
  }

  /** An answer that is sent is remembered, unless an earlier one for the same id is. */
  lemma AnsweredIsCached(s: Server, request: Incoming, answer: Answer, now: int, endpoint: nat, messageId: Word)
    requires MadeBy(s, now)
    ensures var (before, after) := (s.cache, Answered(s, request, answer, now).cache);
            var a := Addressed(request, answer);
            && after == before + [Entry(now + EXCHANGE_LIFETIME, a)]
            && Cached(after, endpoint, messageId)
               == if Cached(before, endpoint, messageId).Some? then Cached(before, endpoint, messageId)
                  else if Answers(a, endpoint, messageId) then Some(a) else None
  {
    var e := Entry(now + EXCHANGE_LIFETIME, Addressed(request, answer));
    KeptAtEnd(s.cache, e);
    CachedAppend(s.cache, e, endpoint, messageId);
  }

  predicate IsDuplicate(e: Event, endpoint: nat, messageId: Word) {
    e.Receive? && e.request.endpoint == endpoint && e.request.messageId == messageId
  }

  /** How often a request with this endpoint and message id has been passed to a handler. */
  function Processed(handled: seq<Incoming>, endpoint: nat, messageId: Word): nat {
    if handled == [] then 0
    else
      var last := handled[|handled| - 1];
      Processed(handled[..|handled| - 1], endpoint, messageId)
      + if last.endpoint == endpoint && last.messageId == messageId then 1 else 0
  }

  lemma ProcessedAppend(handled: seq<Incoming>, r: Incoming, endpoint: nat, messageId: Word)
    ensures Processed(handled + [r], endpoint, messageId)
            == Processed(handled, endpoint, messageId) + if r.endpoint == endpoint && r.messageId == messageId then 1 else 0
  {
    assert (handled + [r])[..|handled|] == handled;
  }

  /** One step while an answer is cached: it stays, and a repeated request only gets it sent again. */
  lemma StepWhileCached(s: Server, e: Event, endpoint: nat, messageId: Word)
    requires Cached(s.cache, endpoint, messageId).Some?
    requires MadeBy(s, e.now)
    ensures Cached(Step(s, e).cache, endpoint, messageId) == Cached(s.cache, endpoint, messageId)
    ensures Processed(Step(s, e).handled, endpoint, messageId) == Processed(s.handled, endpoint, messageId)
    ensures IsDuplicate(e, endpoint, messageId) && e.request.path.Some? ==>
              Step(s, e) == s.(sent := s.sent + [Cached(s.cache, endpoint, messageId).value])
  {
    hide Kept, Cached, Processed;
    match e
    case Respond(request, answer, now) => AnsweredIsCached(s, request, answer, now, endpoint, messageId);
    case Receive(request, now) =>
      ProcessedAppend(s.handled, request, endpoint, messageId);
      if request.path.Some? && request.typ.Confirmable? {
        var a := Answer(Acknowledgment, request.endpoint, request.messageId, request.token, NOT_FOUND, []);
        AnsweredIsCached(s, request, a, now, endpoint, messageId);
      } else if request.path.Some? && request.typ.NonConfirmable? {
        var id := Wrap16(s.messageId + 1);
        var a := Answer(NonConfirmable, request.endpoint, id, request.token, NOT_FOUND, []);
        AnsweredIsCached(s.(messageId := id), request, a, now, endpoint, messageId);
      }
  }

  /** Over every later run that does not clear the cache. */
  lemma {:induction false} RunWhileCached(s: Server, events: seq<Event>, now: int, endpoint: nat, messageId: Word)
    requires Cached(s.cache, endpoint, messageId).Some? && MadeBy(s, now) && Clocked(events, now)
    ensures Cached(Run(s, events).cache, endpoint, messageId) == Cached(s.cache, endpoint, messageId)
    ensures Processed(Run(s, events).handled, endpoint, messageId) == Processed(s.handled, endpoint, messageId)
    decreases |events|
  {
    hide Step, Cached, Processed;
    if events == [] {
    } else {
      StepWhileCached(s, events[0], endpoint, messageId);
      StepMadeBy(s, events[0], now);
      RunWhileCached(Step(s, events[0]), events[1..], events[0].now, endpoint, messageId);
    }
  }

  /**
   Once a request has been answered with a response whose id was unset, every later request
   with that endpoint and message id is answered with the first answer remembered for them,
   and no handler is run for it again, through any run that does not clear the cache.
   */
  lemma AtMostOnce(s: Server, request: Incoming, answer: Answer, now: int, events: seq<Event>, again: Incoming, later: int)
    requires answer.messageId == 0
    requires again.endpoint == request.endpoint && again.messageId == request.messageId && again.path.Some?
    requires MadeBy(s, now) && Clocked(events + [Receive(again, later)], now)
    ensures var first := Cached(Answered(s, request, answer, now).cache, request.endpoint, request.messageId);
            var t := Run(Answered(s, request, answer, now), events);
            && first.Some?
            && Handled(t, again, later) == t.(sent := t.sent + [first.value])
            && Processed(t.handled, request.endpoint, request.messageId)
               == Processed(s.handled, request.endpoint, request.messageId)
  {
    hide Cached, Processed, Kept;
    AnsweredIsCached(s, request, answer, now, request.endpoint, request.messageId);
    var s1 := Answered(s, request, answer, now);
    StepMadeBy(s, Respond(request, answer, now), now);
    RunMadeBy(s1, events, Receive(again, later), now);
    RunWhileCached(s1, events, now, request.endpoint, request.messageId);
    StepWhileCached(Run(s1, events), Receive(again, later), request.endpoint, request.messageId);
  }

  lemma {:induction false} RunMadeBy(s: Server, events: seq<Event>, last: Event, now: int)
    requires MadeBy(s, now) && Clocked(events + [last], now)
    ensures Clocked(events, now) && MadeBy(Run(s, events), last.now)
    decreases |events|
  {
    hide Step;
    if events == [] {
      assert events + [last] == [last];
    } else {
      assert (events + [last])[0] == events[0] && (events + [last])[1..] == events[1..] + [last];
      StepMadeBy(s, events[0], now);
      RunMadeBy(Step(s, events[0]), events[1..], last, events[0].now);
    }
  }
}
