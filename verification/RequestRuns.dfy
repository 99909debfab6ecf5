/**
 Laws over every run of the transaction engine: how often handlers are called, when
 the timer is armed, and how often and how late a request is transmitted.
 */
module RequestRuns {
  import opened Bytes
  import opened Timers
  import opened Requests
  import opened RequestLaws

  // ---------------------------------------------------------------------------
  // Counting
  // ---------------------------------------------------------------------------

  /** How often the handler of request `id` has been called. */
  function Calls(calls: seq<Call>, id: nat): nat {
    if calls == [] then 0
    else Calls(calls[..|calls| - 1], id) + if calls[|calls| - 1].id == id then 1 else 0
  }

  function Owes(h: Holder, id: nat): nat {
    if h.handler && h.request.id == id then 1 else 0
  }

  /** How many holders wait to call the handler of request `id`. */
  function Owed(cache: seq<Holder>, id: nat): nat {
    if cache == [] then 0 else Owes(cache[0], id) + Owed(cache[1..], id)
  }

  /** How often request `id` has been handed to the endpoint. */
  function Tries(sent: seq<Transmission>, id: nat): nat {
    if sent == [] then 0
    else Tries(sent[..|sent| - 1], id) + if sent[|sent| - 1].request.id == id then 1 else 0
  }

  predicate Failed(t: Transmission, link: Link, id: nat) {
    t.request.id == id && t.attempt > 0 && !link(id, t.attempt)
  }

  /** How many retransmissions of request `id` the endpoint has refused. */
  function Failures(sent: seq<Transmission>, link: Link, id: nat): (n: nat)
    ensures n <= Tries(sent, id)
  {
    if sent == [] then 0
    else Failures(sent[..|sent| - 1], link, id) + if Failed(sent[|sent| - 1], link, id) then 1 else 0
  }

  lemma AppendCall(calls: seq<Call>, c: Call, id: nat)
    ensures Calls(calls + [c], id) == Calls(calls, id) + if c.id == id then 1 else 0
  {
    assert (calls + [c])[..|calls|] == calls;
  }

  lemma AppendTry(sent: seq<Transmission>, t: Transmission, link: Link, id: nat)
    ensures Tries(sent + [t], id) == Tries(sent, id) + if t.request.id == id then 1 else 0
    ensures Failures(sent + [t], link, id) == Failures(sent, link, id) + if Failed(t, link, id) then 1 else 0
  {
    assert (sent + [t])[..|sent|] == sent;
  }

  /** Cancelling turns every call owed into a call made. */
  lemma {:induction false} CancelPays(calls: seq<Call>, cache: seq<Holder>, id: nat)
    ensures Calls(calls + CancelCalls(cache), id) == Calls(calls, id) + Owed(cache, id)
    decreases |cache|
  {
    if cache == [] {
      assert calls + [] == calls;
    } else {
      var c, rest := Call(cache[0].request.id, Cancelled), CancelCalls(cache[1..]);
      if cache[0].handler {
        assert calls + ([c] + rest) == calls + [c] + rest;
        CancelPays(calls + [c], cache[1..], id);
        AppendCall(calls, c, id);
      } else {
        assert [] + rest == rest;
        CancelPays(calls, cache[1..], id);
      }
    }
  }

  lemma {:induction false} OwedInserted(cache: seq<Holder>, h: Holder, id: nat)
    ensures Owed(Inserted(cache, h), id) == Owed(cache, id) + Owes(h, id)
  {
    var r := Inserted(cache, h);
    if cache == [] || h.nextShot < cache[0].nextShot {
      assert r[1..] == cache;
    } else {
      assert r[1..] == Inserted(cache[1..], h);
      OwedInserted(cache[1..], h, id);
    }
  }

  lemma {:induction false} OwedRemoved(cache: seq<Holder>, i: nat, id: nat)
    requires i < |cache| && Distinct(cache)
    ensures Owed(cache, id) == Owed(Removed(cache, cache[i].request.id), id) + Owes(cache[i], id)
  {
    if i == 0 {
    } else {
      assert cache[1..][i - 1] in cache[1..];
      OwedRemoved(cache[1..], i - 1, id);
      assert Removed(cache, cache[i].request.id)[1..] == Removed(cache[1..], cache[i].request.id);
    }
  }

  lemma {:induction false} OwedChanged(cache: seq<Holder>, i: nat, h: Holder, id: nat)
    requires i < |cache|
    ensures Owed(cache[i := h], id) + Owes(cache[i], id) == Owed(cache, id) + Owes(h, id)
  {
    if i == 0 {
      assert cache[i := h][1..] == cache[1..];
    } else {
      assert cache[i := h][1..] == cache[1..][i - 1 := h];
      OwedChanged(cache[1..], i - 1, h, id);
    }
  }

  // ---------------------------------------------------------------------------
  // Invariants
  // ---------------------------------------------------------------------------

  /** A holder keeps to its back-off schedule and knows how it was issued. */
  ghost predicate OnSchedule(h: Holder, issued: seq<Issue>, sent: seq<Transmission>, link: Link) {
    var id := h.request.id;
    && id < |issued| && issued[id] == Issue(Confirmable, h.handler, h.request.stops, true)
    && h.request.typ.Confirmable?
    && h.count <= MAX_RETRANSMIT && h.delay == h.request.first * Pow2(h.count)
    && Tries(sent, id) <= h.count + 1 && Failures(sent, link, id) == 0
  }

  ghost predicate Tracked(s: State, link: Link) {
    && Ordered(s.cache) && Distinct(s.cache)
    && (forall h :: h in s.cache ==> OnSchedule(h, s.issued, s.sent, link))
  }

  /** A running timer fires no later than the first holder is due; it is stopped exactly when there is none. */
  predicate TimerArmed(s: State) {
    && (s.timer.Stopped? <==> s.cache == [])
    && (s.timer.Running? ==> s.timer.fireTime <= s.cache[0].nextShot)
  }

  /**
   A confirmable request is handed over at most five times, any other at most once, and a
   retransmission is refused at most once, since the request is then over.
   */
  predicate TriedAtMost(s: State, link: Link, id: nat) {
    && Tries(s.sent, id)
       <= (if id >= |s.issued| then 0 else if s.issued[id].typ.Confirmable? then MAX_RETRANSMIT + 1 else 1)
    && Failures(s.sent, link, id) <= 1
  }

  /**
   How often a handler should be called: once, unless there is none, or the request was
   non-confirmable and could be sent.
   */
  function Expected(issued: seq<Issue>, id: nat): nat {
    if id < |issued| && issued[id].handler && !(issued[id].typ.NonConfirmable? && issued[id].accepted) then 1 else 0
  }

  /** Calls made twice: a refused retransmission finalises a copy, and the handler cancels the original. */
  function Doubled(s: State, link: Link, id: nat): nat {
    if id < |s.issued| && s.issued[id].typ.Confirmable? && s.issued[id].handler && s.issued[id].stops
    then Failures(s.sent, link, id) else 0
  }

  /** Calls made and calls owed add up to the calls expected, plus the doubled ones. */
  predicate Conserved(s: State, link: Link, id: nat) {
    Calls(s.calls, id) + Owed(s.cache, id) == Expected(s.issued, id) + Doubled(s, link, id)
  }

  ghost predicate Inv(s: State, link: Link) {
    Tracked(s, link) && TimerArmed(s) && forall id :: TriedAtMost(s, link, id) && Conserved(s, link, id)
  }

  // ---------------------------------------------------------------------------
  // Preservation
  // ---------------------------------------------------------------------------

  /** The same requests, transmissions, calls and calls owed. */
  predicate SameBooks(a: State, b: State, id: nat) {
    && a.issued == b.issued && a.sent == b.sent
    && Calls(a.calls, id) + Owed(a.cache, id) == Calls(b.calls, id) + Owed(b.cache, id)
  }

  lemma EliminatedTracked(s: State, id: nat, link: Link)
    requires Tracked(s, link)
    ensures Tracked(Eliminated(s, id), link)
  {
    hide OnSchedule;
    RemovedMembers(s.cache, id);
  }

  lemma FinalizedKeeps(s: State, i: nat, result: Result, link: Link, id: nat)
    requires Tracked(s, link) && TimerArmed(s) && i < |s.cache|
    ensures var r := Finalized(s, i, result);
            Tracked(r, link) && TimerArmed(r) && SameBooks(r, s, id)
  {
    hide OnSchedule, Finalized, Removed, Calls, Owed;
    var h := s.cache[i];
    var cleared := h.(handler := false);
    var calls := s.calls + [Call(h.request.id, result)];
    FinalizedIs(s, i, result);
    AppendCall(s.calls, Call(h.request.id, result), id);
    OwedRemoved(s.cache, i, id);
    OwedChanged(s.cache, i, cleared, id);
    CancelPays(calls, s.cache[i := cleared], id);
    EliminatedTracked(s, h.request.id, link);
    OwedNothing(id);
  }

  lemma OwedNothing(id: nat)
    ensures Owed([], id) == 0
  {
  }

  lemma EmptyTracked(s: State, link: Link)
    requires s.cache == []
    ensures Tracked(s, link)
  {
  }

  lemma {:induction false} MarkedKeepsOrder(cache: seq<Holder>, i: nat, h: Holder)
    requires Ordered(cache) && Distinct(cache) && i < |cache|
    requires h.request == cache[i].request && h.nextShot == cache[i].nextShot
    ensures Ordered(cache[i := h]) && Distinct(cache[i := h])
  {
    var c := cache[i := h];
    if i == 0 {
      assert c[1..] == cache[1..];
    } else {
      var rest := cache[1..];
      assert c[1..] == rest[i - 1 := h] && rest[i - 1] in rest;
      MarkedKeepsOrder(rest, i - 1, h);
      assert forall x :: x in rest[i - 1 := h] ==> x == h || x in rest;
    }
  }

  lemma AcknowledgedKeeps(s: State, i: nat, link: Link, id: nat)
    requires Tracked(s, link) && TimerArmed(s) && i < |s.cache|
    ensures var r := Acknowledged(s, i);
            Tracked(r, link) && TimerArmed(r) && SameBooks(r, s, id)
  {
    hide Ordered, Distinct, Removed, Calls, Owed;
    var h := s.cache[i];
    var acked := h.(acked := h.acked || h.request.typ.Confirmable?);
    var marked := s.(cache := s.cache[i := acked]);
    MarkedKeepsOrder(s.cache, i, acked);
    OwedChanged(s.cache, i, acked, id);
    assert forall x :: x in marked.cache ==> x == acked || x in s.cache;
    assert h in s.cache;
    assert Tracked(marked, link);
    EliminatedTracked(marked, h.request.id, link);
    OwedRemoved(marked.cache, i, id);
  }

  lemma ReceivedKeeps(s: State, r: Response, link: Link, id: nat)
    requires Tracked(s, link) && TimerArmed(s)
    ensures var t := Received(s, r);
            Tracked(t, link) && TimerArmed(t) && SameBooks(t, s, id)
  {
    hide OnSchedule, Finalized, Acknowledged, Calls, Owed;
    var i := MatchIndex(s.cache, r);
    if i < |s.cache| {
      AcknowledgedKeeps(s, i, link, id);
      FinalizedKeeps(s, i, WasReset, link, id);
      FinalizedKeeps(s, i, Replied, link, id);
      var replied := s.(empties := s.empties + [Empty(Acknowledgment, r.endpoint, r.messageId)]);
      FinalizedKeeps(replied, i, Replied, link, id);
    }
  }

  lemma CancelKeeps(s: State, link: Link, id: nat)
    requires Tracked(s, link) && TimerArmed(s)
    ensures var r := CancelAll(s);
            Tracked(r, link) && TimerArmed(r) && SameBooks(r, s, id)
  {
    CancelAllIs(s);
    CancelPays(s.calls, s.cache, id);
  }

  // ---------------------------------------------------------------------------
  // Sending
  // ---------------------------------------------------------------------------

  /** A new request and its first transmission do not disturb the holders of others. */
  lemma IssuedTracked(s: State, issue: Issue, t: Transmission, link: Link)
    requires Tracked(s, link) && t.request.id == |s.issued|
    ensures Tracked(s.(issued := s.issued + [issue]), link)
    ensures Tracked(s.(issued := s.issued + [issue], sent := s.sent + [t]), link)
  {
    hide Ordered, Distinct, Tries, Failures;
    forall h | h in s.cache
      ensures OnSchedule(h, s.issued + [issue], s.sent, link) && OnSchedule(h, s.issued + [issue], s.sent + [t], link)
    {
      AppendTry(s.sent, t, link, h.request.id);
    }
  }

  /** Calling the handler of a request that is not in the cache. */
  lemma ReportedKeeps(s: State, n: nat, out: Outgoing, result: Result, link: Link, id: nat)
    requires Tracked(s, link) && TimerArmed(s)
    ensures var r := Reported(s, n, out, result);
            && Tracked(r, link) && TimerArmed(r) && r.issued == s.issued && r.sent == s.sent
            && Calls(r.calls, id) + Owed(r.cache, id)
               == Calls(s.calls, id) + Owed(s.cache, id) + if out.handler && id == n then 1 else 0
  {
    hide OnSchedule, Ordered, Distinct, CancelAll, Calls, Owed;
    AppendCall(s.calls, Call(n, result), id);
    CancelKeeps(s.(calls := s.calls + [Call(n, result)]), link, id);
  }

  lemma PutTracked(s: State, h: Holder, link: Link)
    requires Tracked(s, link) && Absent(s.cache, h.request.id) && OnSchedule(h, s.issued, s.sent, link)
    ensures Tracked(WithPut(s, h), link)
  {
    hide OnSchedule, Ordered, Distinct;
    InsertedMembers(s.cache, h);
    InsertedKeepsOrder(s.cache, h);
    InsertedKeepsDistinct(s.cache, h);
  }

  /** `SendRequest` keeps everything in order, for its own request and for all others. */
  lemma SendKeeps(s: State, out: Outgoing, now: int, link: Link, id: nat)
    requires Tracked(s, link) && TimerArmed(s)
    requires TriedAtMost(s, link, id) && TriedAtMost(s, link, |s.issued|) && Conserved(s, link, id)
    ensures var r := SentRequest(s, out, now, link);
            Tracked(r, link) && TimerArmed(r) && TriedAtMost(r, link, id) && Conserved(r, link, id)
  {
    hide OnSchedule, Reported, WithPut, Calls, Owed, Tries, Failures, Ordered, Distinct;
    var n := |s.issued|;
    var request := Request(n, out.typ, out.endpoint, Wrap16(s.messageId + 1), out.token, out.stops, now, out.first);
    var t := Transmission(request, 0, now);
    AppendTry(s.sent, t, link, id);
    if !out.typ.Confirmable? && !out.typ.NonConfirmable? {
      var issue := Issue(out.typ, out.handler, out.stops, false);
      IssuedTracked(s, issue, t, link);
      ReportedKeeps(s.(issued := s.issued + [issue]), n, out, Refused, link, id);
    } else {
      var issue := Issue(out.typ, out.handler, out.stops, link(n, 0));
      var tried := s.(messageId := Wrap16(s.messageId + 1), issued := s.issued + [issue], sent := s.sent + [t]);
      IssuedTracked(s, issue, t, link);
      ReportedKeeps(tried, n, out, SendFailed, link, id);
      if link(n, 0) && out.typ.Confirmable? {
        FirstPut(s, out, tried, request, now, link, id);
      }
    }
  }

  lemma FirstPut(s: State, out: Outgoing, tried: State, request: Request, now: int, link: Link, id: nat)
    requires Tracked(s, link) && Tracked(tried, link) && TriedAtMost(s, link, |s.issued|) && tried.cache == s.cache
    requires request.id == |s.issued| && request.typ.Confirmable? && request.stops == out.stops && request.first == out.first
    requires tried.issued == s.issued + [Issue(Confirmable, out.handler, out.stops, true)]
    requires tried.sent == s.sent + [Transmission(request, 0, now)]
    ensures var h := Holder(request, out.handler, 0, out.first, now + out.first, false);
            var r := WithPut(tried, h);
            && Tracked(r, link) && TimerArmed(r) && r.issued == tried.issued && r.sent == tried.sent && r.calls == tried.calls
            && Owed(r.cache, id) == Owed(s.cache, id) + if out.handler && id == request.id then 1 else 0
  {
    hide Calls, Owed, Tries, Failures, Ordered, Distinct, Inserted;
    var h := Holder(request, out.handler, 0, out.first, now + out.first, false);
    AppendTry(s.sent, Transmission(request, 0, now), link, request.id);
    assert OnSchedule(h, tried.issued, tried.sent, link);
    assert Absent(s.cache, request.id);
    PutTracked(tried, h, link);
    OwedInserted(s.cache, h, id);
  }

  // ---------------------------------------------------------------------------
  // Retransmitting
  // ---------------------------------------------------------------------------

  /** Without its first holder, which is owed one call less. */
  lemma RestTracked(s: State, link: Link, id: nat)
    requires Tracked(s, link) && s.cache != []
    ensures var rest := Updated(s.(cache := s.cache[1..]));
            && Tracked(rest, link) && TimerArmed(rest) && Absent(rest.cache, s.cache[0].request.id)
            && Owed(s.cache, id) == Owes(s.cache[0], id) + Owed(rest.cache, id)
  {
    Members(s.cache);
  }

  /** A request that is given up: it is no longer in the cache, and its handler is called. */
  lemma TimeoutKeeps(s: State, link: Link, id: nat)
    requires Tracked(s, link) && s.cache != []
    ensures var r := FinalizedCopy(Updated(s.(cache := s.cache[1..])), s.cache[0], TimedOut);
            Tracked(r, link) && TimerArmed(r) && SameBooks(r, s, id)
  {
    hide OnSchedule, Ordered, Distinct, FinalizedCopy, Removed, Calls, Owed;
    var h, rest := s.cache[0], Updated(s.(cache := s.cache[1..]));
    RestTracked(s, link, id);
    FinalizedCopyIs(rest, h, TimedOut);
    RemovedAbsent(rest.cache, h.request.id);
    AppendCall(s.calls, Call(h.request.id, TimedOut), id);
    CancelPays(s.calls + [Call(h.request.id, TimedOut)], rest.cache, id);
    EmptyTracked(Emptied(rest.(calls := s.calls + [Call(h.request.id, TimedOut)])), link);
    OwedNothing(id);
  }

  lemma BackedOffOnSchedule(h: Holder, s: State, sent: seq<Transmission>, now: int, link: Link)
    requires OnSchedule(h, s.issued, s.sent, link) && h.count < MAX_RETRANSMIT
    requires sent == s.sent || (sent == s.sent + [Transmission(h.request, h.count + 1, now)]
                                && link(h.request.id, h.count + 1))
    ensures OnSchedule(BackedOff(h, now), s.issued, sent, link)
  {
    AppendTry(s.sent, Transmission(h.request, h.count + 1, now), link, h.request.id);
    Doubles(h.request.first, h.count, h.delay);
  }

  lemma Doubles(first: nat, n: nat, delay: nat)
    requires delay == first * Pow2(n)
    ensures 2 * delay == first * Pow2(n + 1)
  {
    calc {
      first * Pow2(n + 1);
      first * (2 * Pow2(n));
      2 * (first * Pow2(n));
    }
  }

  /** The holder is put back; its request was sent again, or needs not be. */
  lemma PutBackKeeps(s: State, now: int, link: Link, sent: seq<Transmission>, id: nat)
    requires Tracked(s, link) && s.cache != [] && s.cache[0].count < MAX_RETRANSMIT
    requires var h := s.cache[0];
             sent == s.sent || (sent == s.sent + [Transmission(h.request, h.count + 1, now)]
                                && link(h.request.id, h.count + 1))
    ensures var put := WithPut(Updated(s.(cache := s.cache[1..])), BackedOff(s.cache[0], now));
            && Tracked(put.(sent := sent), link) && TimerArmed(put.(sent := sent)) && put.issued == s.issued
            && put.calls == s.calls && Owed(put.cache, id) == Owed(s.cache, id)
  {
    hide Ordered, Distinct, Inserted, Calls, Owed, Tries, Failures, OnSchedule;
    var h, rest := s.cache[0], Updated(s.(cache := s.cache[1..]));
    var again := BackedOff(h, now);
    RestTracked(s, link, id);
    assert h in s.cache;
    BackedOffOnSchedule(h, s, sent, now, link);
    OthersOnSchedule(rest, h, now, link, sent);
    PutTracked(rest.(sent := sent), again, link);
    OwedInserted(rest.cache, again, id);
  }

  lemma OthersOnSchedule(rest: State, h: Holder, now: int, link: Link, sent: seq<Transmission>)
    requires Tracked(rest, link) && Absent(rest.cache, h.request.id)
    requires sent == rest.sent || sent == rest.sent + [Transmission(h.request, h.count + 1, now)]
    ensures Tracked(rest.(sent := sent), link)
  {
    hide Ordered, Distinct, Tries, Failures;
    forall x | x in rest.cache ensures OnSchedule(x, rest.issued, sent, link) {
      AppendTry(rest.sent, Transmission(h.request, h.count + 1, now), link, x.request.id);
    }
  }

  /** A refused retransmission: the request leaves the cache; a handler that stops the engine is called twice. */
  lemma RefusedKeeps(s: State, now: int, link: Link, id: nat)
    requires Tracked(s, link) && s.cache != [] && s.cache[0].count < MAX_RETRANSMIT
    requires !link(s.cache[0].request.id, s.cache[0].count + 1)
    ensures var h, again := s.cache[0], BackedOff(s.cache[0], now);
            var put := WithPut(Updated(s.(cache := s.cache[1..])), again);
            var tried := put.(sent := put.sent + [Transmission(h.request, again.count, now)]);
            var r := FinalizedCopy(tried, again, SendFailed);
            && Tracked(r, link) && TimerArmed(r) && r.issued == s.issued && r.sent == tried.sent
            && Calls(r.calls, id) + Owed(r.cache, id) == Calls(s.calls, id) + Owed(s.cache, id)
               + if h.handler && h.request.stops && h.request.id == id then 1 else 0
  {
    hide Ordered, Distinct, FinalizedCopy, Inserted, Removed, Calls, Owed, Tries, Failures, OnSchedule;
    var h, rest := s.cache[0], Updated(s.(cache := s.cache[1..]));
    var again := BackedOff(h, now);
    var put := WithPut(rest, again);
    var tried := put.(sent := put.sent + [Transmission(h.request, again.count, now)]);
    RestTracked(s, link, id);
    InsertedMembers(rest.cache, again);
    FinalizedCopyIs(tried, again, SendFailed);
    RemovedInserted(rest.cache, again);
    OthersOnSchedule(rest, h, now, link, tried.sent);
    var call := Call(h.request.id, SendFailed);
    AppendCall(s.calls, call, id);
    CancelPays(s.calls + [call], tried.cache, id);
    EmptyTracked(Emptied(tried.(calls := s.calls + [call])), link);
    OwedInserted(rest.cache, again, id);
    OwedNothing(id);
  }

  /** One round of the `Retransmit` loop. */
  lemma FirstKeeps(s: State, now: int, link: Link, id: nat)
    requires Tracked(s, link) && s.cache != [] && TriedAtMost(s, link, id) && Conserved(s, link, id)
    ensures var r := RetransmittedFirst(s, now, link);
            Tracked(r, link) && TimerArmed(r) && TriedAtMost(r, link, id) && Conserved(r, link, id)
  {
    hide Ordered, Distinct, FinalizedCopy, WithPut, Updated, Calls, Owed, Tries, Failures;
    var h := s.cache[0];
    assert h in s.cache;
    if h.count >= MAX_RETRANSMIT {
      TimeoutKeeps(s, link, id);
    } else {
      var t := Transmission(h.request, h.count + 1, now);
      AppendTry(s.sent, t, link, id);
      PutBackFrame(s, now);
      if h.acked {
        PutBackKeeps(s, now, link, s.sent, id);
      } else if link(h.request.id, h.count + 1) {
        PutBackKeeps(s, now, link, s.sent + [t], id);
      } else {
        RefusedKeeps(s, now, link, id);
      }
    }
  }

  lemma PutBackFrame(s: State, now: int)
    requires s.cache != []
    ensures var put := WithPut(Updated(s.(cache := s.cache[1..])), BackedOff(s.cache[0], now));
            put.sent == s.sent && put.issued == s.issued && put.calls == s.calls
  {
  }

  lemma {:induction false} RetransmittedKeeps(s: State, now: int, link: Link, id: nat)
    requires Tracked(s, link) && TriedAtMost(s, link, id) && Conserved(s, link, id)
    ensures var r := Retransmitted(s, now, link);
            Tracked(r, link) && TimerArmed(r) && TriedAtMost(r, link, id) && Conserved(r, link, id)
    decreases Due(s.cache, now)
  {
    hide RetransmittedFirst, OnSchedule, Calls, Owed, Tries, Failures;
    if s.cache != [] && s.cache[0].nextShot < now {
      DueFalls(s, now, link);
      FirstKeeps(s, now, link, id);
      RetransmittedKeeps(RetransmittedFirst(s, now, link), now, link, id);
    }
  }

  lemma FiredKeeps(s: State, now: int, link: Link, id: nat)
    requires Tracked(s, link) && TimerArmed(s) && TriedAtMost(s, link, id) && Conserved(s, link, id)
    ensures var r := Fired(s, now, link);
            Tracked(r, link) && TimerArmed(r) && TriedAtMost(r, link, id) && Conserved(r, link, id)
  {
    hide Retransmitted, OnSchedule, Ordered, Distinct;
    RetransmittedKeeps(s.(timer := Stopped), now, link, id);
  }

  // ---------------------------------------------------------------------------
  // Runs
  // ---------------------------------------------------------------------------

  datatype Event = Send(out: Outgoing, now: int) | Receive(response: Response) | Fire(now: int) | Cancel

  function Step(s: State, e: Event, link: Link): State {
    match e
    case Send(out, now) => SentRequest(s, out, now, link)
    case Receive(response) => Received(s, response)
    case Fire(now) => Fired(s, now, link)
    case Cancel => CancelAll(s)
  }

  const INITIAL := State(0, [], Stopped, [], [], [], [])

  function Run(events: seq<Event>, link: Link): State {
    if events == [] then INITIAL else Step(Run(events[..|events| - 1], link), events[|events| - 1], link)
  }

  lemma StepKeeps(s: State, e: Event, link: Link)
    requires Inv(s, link)
    ensures Inv(Step(s, e, link), link)
  {
    hide SentRequest, Received, Fired, CancelAll, Tracked, TimerArmed;
    forall id: nat
      ensures Tracked(Step(s, e, link), link) && TimerArmed(Step(s, e, link))
      ensures TriedAtMost(Step(s, e, link), link, id) && Conserved(Step(s, e, link), link, id)
    {
      assert TriedAtMost(s, link, id) && Conserved(s, link, id) && TriedAtMost(s, link, |s.issued|);
      match e
      case Send(out, now) => SendKeeps(s, out, now, link, id);
      case Receive(response) => ReceivedKeeps(s, response, link, id);
      case Fire(now) => FiredKeeps(s, now, link, id);
      case Cancel => CancelKeeps(s, link, id);
    }
    assert TriedAtMost(Step(s, e, link), link, 0);
  }

  /** Every invariant holds after every run. */
  lemma {:induction false} RunKeeps(events: seq<Event>, link: Link)
    ensures Inv(Run(events, link), link)
  {
    hide Step, Tracked, Conserved, TriedAtMost;
    if events == [] {
      Initially(link);
    } else {
      RunKeeps(events[..|events| - 1], link);
      StepKeeps(Run(events[..|events| - 1], link), events[|events| - 1], link);
    }
  }

  lemma Initially(link: Link)
    ensures Inv(INITIAL, link)
  {
  }

  // ---------------------------------------------------------------------------
  // Consequences
  // ---------------------------------------------------------------------------

  lemma {:induction false} OwedByAbsent(cache: seq<Holder>, id: nat)
    requires Absent(cache, id)
    ensures Owed(cache, id) == 0
  {
    if cache == [] {
    } else {
      assert cache[0] in cache;
      OwedByAbsent(cache[1..], id);
    }
  }

  lemma {:induction false} OwedByPresent(cache: seq<Holder>, h: Holder)
    requires h in cache && Distinct(cache)
    ensures Owed(cache, h.request.id) == Owes(h, h.request.id)
  {
    Members(cache);
    if h == cache[0] {
      OwedByAbsent(cache[1..], h.request.id);
    } else {
      OwedByPresent(cache[1..], h);
    }
  }

  /**
   Over every run: a handler has not been called while its request is in the cache, and after
   that it has been called as often as expected, and once more exactly when a retransmission of
   its request was refused and it cancels all requests. It is then called twice, and in no other
   case more than once.
   */
  lemma HandlerCalls(events: seq<Event>, link: Link, id: nat)
    ensures var s := Run(events, link);
            && Doubled(s, link, id) <= Expected(s.issued, id) <= 1
            && Calls(s.calls, id) ==
               (if Absent(s.cache, id) then Expected(s.issued, id) + Doubled(s, link, id) else 0)
            && (Calls(s.calls, id) <= 1 <==> Doubled(s, link, id) == 0)
            && (Calls(s.calls, id) == 2 <==> Doubled(s, link, id) == 1)
  {
    hide Run, Calls, Owed, Failures;
    var s := Run(events, link);
    RunKeeps(events, link);
    assert Conserved(s, link, id) && TriedAtMost(s, link, id);
    if Absent(s.cache, id) {
      OwedByAbsent(s.cache, id);
    } else {
      var h :| h in s.cache && h.request.id == id;
      assert OnSchedule(h, s.issued, s.sent, link);
      OwedByPresent(s.cache, h);
    }
  }

  /** A handler that leaves the engine alone is called exactly once when its confirmable request is over. */
  lemma ExactlyOnce(events: seq<Event>, link: Link, id: nat)
    requires var s := Run(events, link);
             id < |s.issued| && s.issued[id].typ.Confirmable? && s.issued[id].handler && !s.issued[id].stops
    ensures var s := Run(events, link);
            Calls(s.calls, id) == if Absent(s.cache, id) then 1 else 0
  {
    HandlerCalls(events, link, id);
  }

  /** The timer between operations. */
  lemma TimerAfterRun(events: seq<Event>, link: Link)
    ensures var s := Run(events, link);
            && (s.timer.Stopped? <==> s.cache == [])
            && (s.timer.Running? ==> forall h :: h in s.cache ==> s.timer.fireTime <= h.nextShot)
            && forall i, j :: 0 <= i < j < |s.cache| ==> s.cache[i].request.id != s.cache[j].request.id
  {
    hide Run, OnSchedule, Conserved, TriedAtMost;
    RunKeeps(events, link);
    var s := Run(events, link);
    forall i, j | 0 <= i < j < |s.cache|
      ensures s.cache[i].request.id != s.cache[j].request.id && s.cache[i].nextShot <= s.cache[j].nextShot
    {
      OrderedAndDistinct(s.cache, i, j);
    }
  }

  /** Back-off and number of transmissions. */
  lemma BackOffAfterRun(events: seq<Event>, link: Link, id: nat)
    ensures var s := Run(events, link);
            && Tries(s.sent, id) <= 5
            && forall h :: h in s.cache ==> h.count <= MAX_RETRANSMIT && h.delay == h.request.first * Pow2(h.count)
  {
    hide Run, Ordered, Distinct, Conserved, Tries, Failures;
    RunKeeps(events, link);
    assert TriedAtMost(Run(events, link), link, id);
  }

  /**
   One confirmable request whose handler cancels all requests, and a refused retransmission
   two seconds later: the handler is called a second time from within its first call.
   */
  lemma StoppingHandlerIsCalledTwice()
    ensures var out := Outgoing(Confirmable, 0, [], true, true, 2000);
            var s := Run([Send(out, 0), Fire(2001)], (id, attempt) => attempt == 0);
            Calls(s.calls, 0) == 2 && s.cache == []
  {
    var link: Link := (id, attempt) => attempt == 0;
    var out := Outgoing(Confirmable, 0, [], true, true, 2000);
    var events := [Send(out, 0), Fire(2001)];
    assert events[..1] == [Send(out, 0)] && events[..1][..0] == [];
    var s := Run(events[..1], link);
    var request := Request(0, Confirmable, 0, 1, [], true, 0, 2000);
    var h := Holder(request, true, 0, 2000, 2000, false);
    assert s.cache == [h] && s.timer == Running(2000) by {
      assert s == Step(Run([], link), Send(out, 0), link);
      assert Inserted([], h) == [h];
    }
    var stopped := s.(timer := Stopped);
    assert Run(events, link) == Retransmitted(stopped, 2001, link);
    HandlerCalls(events, link, 0);
    RunKeeps(events[..1], link);
    assert s.sent == [Transmission(request, 0, 0)];
    var r := RetransmittedFirst(stopped, 2001, link);
    RefusedKeeps(stopped, 2001, link, 0);
    assert Tracked(stopped, link);
    assert r.cache == [];
  }
}
