/**
 The transaction engine as an object that is updated in place, method by method as in
 src/library/coap.cpp. Every method is proved to take the engine from one state to the
 next as module `Requests` specifies.
 */
module RequestEngine {
  import opened Bytes
  import opened Timers
  import opened Requests

  class Coap {
    var messageId: Word
    var cache: seq<Holder>
    var timer: Timer

    // What the engine has done to its surroundings so far.
    var issued: seq<Issue>
    var calls: seq<Call>
    var sent: seq<Transmission>
    var empties: seq<Empty>

    ghost function Now(): State
      reads this
    {
      State(messageId, cache, timer, issued, calls, sent, empties)
    }

    constructor ()
      ensures Now() == State(0, [], Stopped, [], [], [], [])
    {
      messageId, cache, timer := 0, [], Stopped;
      issued, calls, sent, empties := [], [], [], [];
    }

    method UpdateTimer()
      modifies this
      ensures Now() == Updated(old(Now()))
    {
      if |cache| == 0 {
        timer := Stopped;
      } else if timer.Stopped? || cache[0].nextShot < timer.fireTime {
        timer := Running(cache[0].nextShot);
      }
    }

    method Put(h: Holder)
      modifies this
      ensures Now() == WithPut(old(Now()), h)
    {
      var i := 0;
      while i < |cache| && cache[i].nextShot <= h.nextShot
        invariant 0 <= i <= |cache| && forall k :: 0 <= k < i ==> cache[k].nextShot <= h.nextShot
      {
        i := i + 1;
      }
      InsertedAt(cache, h, i);
      cache := cache[..i] + [h] + cache[i..];
      UpdateTimer();
    }

    /** Remove and return the earliest request. */
    method EliminateFirst() returns (h: Holder)
      requires cache != []
      modifies this
      ensures h == old(cache[0])
      ensures Now() == Updated(old(Now()).(cache := old(cache[1..])))
    {
      h := cache[0];
      cache := cache[1..];
      UpdateTimer();
    }

    /** Find and remove the specified request. */
    method Eliminate(id: nat)
      modifies this
      ensures Now() == Eliminated(old(Now()), id)
    {
      var i := 0;
      while i < |cache| && cache[i].request.id != id
        invariant 0 <= i <= |cache| && forall k :: 0 <= k < i ==> cache[k].request.id != id
      {
        i := i + 1;
      }
      RemovedAt(cache, id, i);
      if i < |cache| {
        cache := cache[..i] + cache[i + 1..];
      }
      UpdateTimer();
    }

    /** Call a handler; one that stops the engine comes back through `CancelRequests`. */
    method Invoke(id: nat, stops: bool, result: Result)
      modifies this
      ensures Now() == Called(old(Now()), id, stops, result)
      decreases Handlers(cache), |cache|, 2
    {
      calls := calls + [Call(id, result)];
      if stops {
        CancelRequests();
      }
    }

    method FinalizeTransaction(i: nat, result: Result)
      requires i < |cache|
      modifies this
      ensures Now() == Finalized(old(Now()), i, result)
      decreases Handlers(cache), |cache|, 0
    {
      var h := cache[i];
      if h.handler {
        HandlersUpdate(cache, i);
        cache := cache[i := h.(handler := false)];
        Invoke(h.request.id, h.request.stops, result);
      }
      Eliminate(h.request.id);
    }

    method CancelRequests()
      modifies this
      ensures Now() == CancelAll(old(Now()))
      decreases Handlers(cache), |cache|, 1
    {
      while |cache| > 0
        invariant CancelAll(Now()) == CancelAll(old(Now()))
        invariant Handlers(cache) <= Handlers(old(cache)) && |cache| <= |old(cache)|
        decreases Handlers(cache), |cache|
      {
        FinalizeTransaction(0, Cancelled);
      }
    }

    /** `FinalizeTransaction` on a holder that `Retransmit` has copied out of the cache. */
    method FinalizeCopy(h: Holder, result: Result)
      modifies this
      ensures Now() == FinalizedCopy(old(Now()), h, result)
    {
      if h.handler {
        Invoke(h.request.id, h.request.stops, result);
      }
      Eliminate(h.request.id);
    }

    method SendRequest(out: Outgoing, now: int, link: Link)
      modifies this
      ensures Now() == SentRequest(old(Now()), out, now, link)
    {
      var id := |issued|;
      if !out.typ.Confirmable? && !out.typ.NonConfirmable? {
        issued := issued + [Issue(out.typ, out.handler, out.stops, false)];
        if out.handler {
          Invoke(id, out.stops, Refused);
        }
        return;
      }
      messageId := Wrap16(messageId + 1);
      var request := Request(id, out.typ, out.endpoint, messageId, out.token, out.stops, now, out.first);
      issued := issued + [Issue(out.typ, out.handler, out.stops, link(id, 0))];
      sent := sent + [Transmission(request, 0, now)];
      if !link(id, 0) {
        if out.handler {
          Invoke(id, out.stops, SendFailed);
        }
        return;
      }
      if out.typ.Confirmable? {
        Put(Holder(request, out.handler, 0, out.first, now + out.first, false));
      }
    }

    method Match(r: Response) returns (i: nat)
      ensures i == MatchIndex(cache, r)
    {
      i := 0;
      assert cache[0..] == cache;
      while i < |cache| && !Matches(cache[i], r)
        invariant i <= |cache| && i + MatchIndex(cache[i..], r) == MatchIndex(cache, r)
      {
        assert cache[i..][1..] == cache[i + 1..];
        i := i + 1;
      }
    }

    method HandleResponse(r: Response)
      modifies this
      ensures Now() == Received(old(Now()), r)
    {
      var i := Match(r);
      if i == |cache| {
        if r.typ.Confirmable? {
          empties := empties + [Empty(Reset, r.endpoint, r.messageId)];
        }
        return;
      }
      match r.typ {
        case Reset =>
          if r.empty {
            FinalizeTransaction(i, WasReset);
          }
        case Acknowledgment =>
          if r.empty {
            var h := cache[i];
            if h.request.typ.Confirmable? {
              cache := cache[i := h.(acked := true)];
            }
            assert cache == old(cache)[i := h.(acked := h.acked || h.request.typ.Confirmable?)];
            if !h.handler {
              Eliminate(h.request.id);
            }
          } else if cache[i].request.token == r.token {
            FinalizeTransaction(i, Replied);
          }
        case Confirmable =>
          empties := empties + [Empty(Acknowledgment, r.endpoint, r.messageId)];
          FinalizeTransaction(i, Replied);
        case NonConfirmable =>
          FinalizeTransaction(i, Replied);
      }
    }

    method Retransmit(now: int, link: Link)
      modifies this
      ensures Now() == Retransmitted(old(Now()), now, link)
    {
      hide Inserted, Removed, Called;
      while |cache| > 0 && cache[0].nextShot < now
        invariant Retransmitted(Now(), now, link) == Retransmitted(old(Now()), now, link)
        decreases Due(cache, now)
      {
        DueFalls(Now(), now, link);
        RetransmitFirst(now, link);
      }
      UpdateTimer();
    }

    /** One round of the loop of `Retransmit`. */
    method RetransmitFirst(now: int, link: Link)
      requires cache != []
      modifies this
      ensures Now() == RetransmittedFirst(old(Now()), now, link)
    {
      hide Updated, WithPut, FinalizedCopy;
      var h := EliminateFirst();
      if h.request.typ.Confirmable? && h.count < MAX_RETRANSMIT {
        h := BackedOff(h, now);
        Put(h);
        if !h.acked {
          sent := sent + [Transmission(h.request, h.count, now)];
          if !link(h.request.id, h.count) {
            FinalizeCopy(h, SendFailed);
          }
        }
      } else {
        FinalizeCopy(h, TimedOut);
      }
    }

    method HandleTimer(now: int, link: Link)
      modifies this
      ensures Now() == Fired(old(Now()), now, link)
    {
      if timer.Running? && timer.fireTime <= now {
        timer := Stopped;
        Retransmit(now, link);
      }
    }
  }
}
