/**
 How late a request is transmitted for the last time (MAX_TRANSMIT_SPAN, section 4.8.2
 of RFC 7252), when every expiry of the timer is handled within `e` of its due time.
 */
module RequestTiming {
  import opened Bytes
  import opened Timers
  import opened Requests
  import opened RequestLaws
  import opened RequestRuns

  /** The due time of a holder: the sum of all back-off delays so far, and `e` for every one that has expired. */
  predicate Punctual(h: Holder, e: nat) {
    h.nextShot <= h.request.start + 2 * h.delay - h.request.first + h.count * e
  }

  predicate InTime(t: Transmission, e: nat) {
    && t.attempt <= MAX_RETRANSMIT
    && t.time <= t.request.start + t.request.first * Pow2(t.attempt) - t.request.first + t.attempt * e
  }

  ghost predicate Prompt(s: State, e: nat) {
    (forall h :: h in s.cache ==> Punctual(h, e)) && forall t :: t in s.sent ==> InTime(t, e)
  }

  /** Every holder of `a` has a counterpart in `b` with the same schedule. */
  ghost predicate NoNewSchedules(a: seq<Holder>, b: seq<Holder>) {
    forall h :: h in a ==> exists g :: g in b && SameSchedule(g, h)
  }

  predicate SameSchedule(g: Holder, h: Holder) {
    g.request == h.request && g.count == h.count && g.delay == h.delay && g.nextShot == h.nextShot
  }

  lemma StillPrompt(s: State, r: State, e: nat)
    requires Prompt(s, e) && r.sent == s.sent && NoNewSchedules(r.cache, s.cache)
    ensures Prompt(r, e)
  {
    hide InTime;
  }

  lemma {:induction false} RemovedSubset(cache: seq<Holder>, id: nat)
    ensures forall h :: h in Removed(cache, id) ==> h in cache
  {
    if cache == [] {
    } else {
      RemovedSubset(cache[1..], id);
      Members(cache);
    }
  }

  lemma SubsetHasNoNewSchedules(a: seq<Holder>, b: seq<Holder>)
    requires forall h :: h in a ==> h in b
    ensures NoNewSchedules(a, b)
  {
    forall h | h in a ensures exists g :: g in b && SameSchedule(g, h) {
      assert SameSchedule(h, h);
    }
  }

  lemma FinalizedSchedules(s: State, i: nat, result: Result)
    requires Distinct(s.cache) && i < |s.cache|
    ensures NoNewSchedules(Finalized(s, i, result).cache, s.cache) && Finalized(s, i, result).sent == s.sent
  {
    hide Finalized;
    FinalizedIs(s, i, result);
    RemovedSubset(s.cache, s.cache[i].request.id);
    SubsetHasNoNewSchedules(Finalized(s, i, result).cache, s.cache);
  }

  lemma AcknowledgedSchedules(s: State, i: nat)
    requires i < |s.cache|
    ensures NoNewSchedules(Acknowledged(s, i).cache, s.cache) && Acknowledged(s, i).sent == s.sent
  {
    var h := s.cache[i];
    var acked := h.(acked := h.acked || h.request.typ.Confirmable?);
    var marked := s.cache[i := acked];
    RemovedSubset(marked, h.request.id);
    forall x | x in marked ensures exists g :: g in s.cache && SameSchedule(g, x) {
      if x == acked {
        assert h in s.cache && SameSchedule(h, x);
      } else {
        assert x in s.cache && SameSchedule(x, x);
      }
    }
  }

  lemma ReceivedSchedules(s: State, r: Response)
    requires Distinct(s.cache)
    ensures NoNewSchedules(Received(s, r).cache, s.cache) && Received(s, r).sent == s.sent
  {
    hide Finalized, Acknowledged, NoNewSchedules, Distinct;
    SubsetHasNoNewSchedules(s.cache, s.cache);
    var i := MatchIndex(s.cache, r);
    if i < |s.cache| {
      AcknowledgedSchedules(s, i);
      FinalizedSchedules(s, i, WasReset);
      FinalizedSchedules(s, i, Replied);
      FinalizedSchedules(s.(empties := s.empties + [Empty(Acknowledgment, r.endpoint, r.messageId)]), i, Replied);
    }
  }

  lemma CancelPrompt(s: State, e: nat)
    requires Prompt(s, e) && TimerArmed(s)
    ensures Prompt(CancelAll(s), e)
  {
    CancelAllIs(s);
  }

  lemma SendPrompt(s: State, out: Outgoing, now: int, link: Link, e: nat)
    requires Prompt(s, e) && TimerArmed(s)
    ensures Prompt(SentRequest(s, out, now, link), e)
  {
    hide CancelAll;
    var n := |s.issued|;
    var request := Request(n, out.typ, out.endpoint, Wrap16(s.messageId + 1), out.token, out.stops, now, out.first);
    var t := Transmission(request, 0, now);
    assert InTime(t, e) by { assert Pow2(0) == 1; }
    var refused := s.(issued := s.issued + [Issue(out.typ, out.handler, out.stops, false)]);
    var tried := s.(messageId := Wrap16(s.messageId + 1), sent := s.sent + [t],
                    issued := s.issued + [Issue(out.typ, out.handler, out.stops, link(n, 0))]);
    assert Prompt(refused, e) && Prompt(tried, e);
    CancelPrompt(refused.(calls := s.calls + [Call(n, Refused)]), e);
    CancelPrompt(tried.(calls := s.calls + [Call(n, SendFailed)]), e);
    InsertedMembers(s.cache, Holder(request, out.handler, 0, out.first, now + out.first, false));
  }

  /** The timer is handled in time for every holder it finds. */
  ghost predicate Within(s: State, now: int, e: nat) {
    forall h :: h in s.cache ==> now <= h.nextShot + e
  }

  lemma BackedOffPrompt(h: Holder, now: int, e: nat)
    requires Punctual(h, e) && now <= h.nextShot + e && h.count < MAX_RETRANSMIT
    requires h.delay == h.request.first * Pow2(h.count)
    ensures Punctual(BackedOff(h, now), e) && InTime(Transmission(h.request, h.count + 1, now), e)
  {
    Doubles(h.request.first, h.count, h.delay);
    assert (h.count + 1) * e == h.count * e + e;
  }

  lemma FinalizedCopyPrompt(s: State, h: Holder, result: Result, now: int, e: nat)
    requires Prompt(s, e) && Within(s, now, e) && (s.cache == [] ==> s.timer.Stopped?)
    ensures Prompt(FinalizedCopy(s, h, result), e) && Within(FinalizedCopy(s, h, result), now, e)
  {
    hide FinalizedCopy, Punctual, InTime;
    FinalizedCopyIs(s, h, result);
    RemovedSubset(s.cache, h.request.id);
  }

  lemma FirstPrompt(s: State, now: int, link: Link, e: nat)
    requires Prompt(s, e) && Within(s, now, e) && Tracked(s, link) && s.cache != []
    ensures var r := RetransmittedFirst(s, now, link);
            Prompt(r, e) && Within(r, now, e)
  {
    hide FinalizedCopy, Punctual, InTime, Inserted, Tries, Failures, Ordered, Distinct;
    var h := s.cache[0];
    Members(s.cache);
    assert OnSchedule(h, s.issued, s.sent, link);
    var rest, again := Updated(s.(cache := s.cache[1..])), BackedOff(h, now);
    var put := WithPut(rest, again);
    InsertedMembers(rest.cache, again);
    if h.count >= MAX_RETRANSMIT {
      FinalizedCopyPrompt(rest, h, TimedOut, now, e);
    } else {
      BackedOffPrompt(h, now, e);
      FinalizedCopyPrompt(put.(sent := put.sent + [Transmission(h.request, again.count, now)]), again, SendFailed, now, e);
    }
  }

  lemma {:induction false} RetransmittedPrompt(s: State, now: int, link: Link, e: nat)
    requires Prompt(s, e) && Within(s, now, e) && Tracked(s, link)
    requires forall id :: TriedAtMost(s, link, id) && Conserved(s, link, id)
    ensures Prompt(Retransmitted(s, now, link), e)
    decreases Due(s.cache, now)
  {
    hide RetransmittedFirst, Tracked, TriedAtMost, Conserved, Punctual, InTime;
    if s.cache != [] && s.cache[0].nextShot < now {
      DueFalls(s, now, link);
      FirstPrompt(s, now, link, e);
      forall id: nat
        ensures Tracked(RetransmittedFirst(s, now, link), link)
        ensures TriedAtMost(RetransmittedFirst(s, now, link), link, id) && Conserved(RetransmittedFirst(s, now, link), link, id)
      {
        assert TriedAtMost(s, link, id);
        FirstKeeps(s, now, link, id);
      }
      assert TriedAtMost(RetransmittedFirst(s, now, link), link, 0);
      RetransmittedPrompt(RetransmittedFirst(s, now, link), now, link, e);
    }
  }

  /** A firing is timely when it is handled within `e` of the time the first holder is due. */
  predicate TimelyEvent(s: State, event: Event, e: nat) {
    event.Fire? && s.timer.Running? && s.timer.fireTime <= event.now && s.cache != []
    ==> event.now <= s.cache[0].nextShot + e
  }

  predicate Timely(events: seq<Event>, link: Link, e: nat) {
    events != [] ==>
      var before := events[..|events| - 1];
      Timely(before, link, e) && TimelyEvent(Run(before, link), events[|events| - 1], e)
  }

  lemma FiredPrompt(s: State, now: int, link: Link, e: nat)
    requires Prompt(s, e) && Inv(s, link) && TimelyEvent(s, Fire(now), e)
    ensures Prompt(Fired(s, now, link), e)
  {
    hide Retransmitted, OnSchedule, Punctual, InTime;
    if s.timer.Running? && s.timer.fireTime <= now {
      var stopped := s.(timer := Stopped);
      Members(s.cache);
      forall id: nat ensures TriedAtMost(stopped, link, id) && Conserved(stopped, link, id) {
        assert TriedAtMost(s, link, id) && Conserved(s, link, id);
      }
      RetransmittedPrompt(stopped, now, link, e);
    }
  }

  lemma StepPrompt(s: State, event: Event, link: Link, e: nat)
    requires Prompt(s, e) && Inv(s, link) && TimelyEvent(s, event, e)
    ensures Prompt(Step(s, event, link), e)
  {
    hide SentRequest, Received, Fired, CancelAll, Prompt, Conserved, TriedAtMost, OnSchedule;
    match event
    case Send(out, now) => SendPrompt(s, out, now, link, e);
    case Receive(r) =>
      ReceivedSchedules(s, r);
      StillPrompt(s, Received(s, r), e);
    case Fire(now) => FiredPrompt(s, now, link, e);
    case Cancel => CancelPrompt(s, e);
  }

  lemma {:induction false} RunPrompt(events: seq<Event>, link: Link, e: nat)
    requires Timely(events, link, e)
    ensures Prompt(Run(events, link), e)
  {
    hide Step, Inv, Punctual, InTime;
    if events == [] {
    } else {
      var before := events[..|events| - 1];
      RunPrompt(before, link, e);
      RunKeeps(before, link);
      StepPrompt(Run(before, link), events[|events| - 1], link, e);
    }
  }

  /** Over every timely run, no transmission comes MAX_TRANSMIT_SPAN plus 4e or more after the first. */
  lemma TransmitSpan(events: seq<Event>, link: Link, e: nat)
    requires Timely(events, link, e)
    ensures forall t :: t in Run(events, link).sent ==> t.time < t.request.start + MAX_TRANSMIT_SPAN + 4 * e
  {
    hide Run, Timely;
    RunPrompt(events, link, e);
    forall t | t in Run(events, link).sent ensures t.time < t.request.start + MAX_TRANSMIT_SPAN + 4 * e {
      assert InTime(t, e);
      SpanOf(t.request.first, t.attempt, e);
    }
  }

  lemma SpanOf(first: InitialDelay, n: nat, e: nat)
    requires n <= MAX_RETRANSMIT
    ensures first * Pow2(n) - first + n * e < MAX_TRANSMIT_SPAN + 4 * e
  {
    assert Pow2(1) == 2 && Pow2(2) == 4 && Pow2(3) == 8 && Pow2(4) == 16;
  }
}
