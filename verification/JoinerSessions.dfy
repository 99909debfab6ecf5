/**
 The joiner sessions of src/library/commissioner_impl.cpp and the timer that expires
 them. Times are milliseconds.

 A session is known by the time it expires at. Whether its DTLS session has been
 closed, and whether the application admits a joiner, are inputs.
 */
module JoinerSessions {
  import opened Bytes
  import opened Timers

  /** A DTLS handshake of at most 60 seconds, and 20 seconds for the joiner to finish. */
  const SESSION_LIFETIME := 80000

  type JoinerId = ByteArray

  datatype State = State(sessions: map<JoinerId, int>, timer: Timer)

  // ---------------------------------------------------------------------------
  // Operations
  // ---------------------------------------------------------------------------

  /** A session whose DTLS session has been closed makes room for a new one. */
  function Usable(s: State, id: JoinerId, disabled: bool): map<JoinerId, int> {
    if disabled then s.sessions - {id} else s.sessions
  }

  /** `HandleRlyRx`: the session of a joiner is found or, when it is admitted, started. */
  function Relayed(s: State, id: JoinerId, disabled: bool, admitted: bool, now: int): State {
    var usable := Usable(s, id, disabled);
    if id in usable || !admitted then s.(sessions := usable)
    else State(usable[id := now + SESSION_LIFETIME], Running(now + SESSION_LIFETIME))
  }

  function Unexpired(sessions: map<JoinerId, int>, now: int): map<JoinerId, int> {
    map id | id in sessions && now < sessions[id] :: sessions[id]
  }

  /** `t` is the earliest of the expiry times. */
  ghost predicate IsEarliest(sessions: map<JoinerId, int>, t: int) {
    (exists id :: id in sessions && sessions[id] == t) && forall id :: id in sessions ==> t <= sessions[id]
  }

  /** What a firing of the timer at `now` does. */
  ghost predicate Expires(s: State, now: int, r: State) {
    && r.sessions == Unexpired(s.sessions, now)
    && (r.timer.Stopped? <==> r.sessions == map[])
    && (r.timer.Running? ==> IsEarliest(r.sessions, r.timer.fireTime))
  }

  class Sessions {
    var sessions: map<JoinerId, int>
    var timer: Timer

    ghost function Now(): State
      reads this
    {
      State(sessions, timer)
    }

    constructor ()
      ensures Now() == State(map[], Stopped)
    {
      sessions, timer := map[], Stopped;
    }

    method HandleRlyRx(id: JoinerId, disabled: bool, admitted: bool, now: int)
      modifies this
      ensures Now() == Relayed(old(Now()), id, disabled, admitted, now)
    {
      if id in sessions && disabled {
        sessions := sessions - {id};
      }
      assert sessions == Usable(old(Now()), id, disabled);
      if id !in sessions {
        if !admitted {
          return;
        }
        sessions := sessions[id := now + SESSION_LIFETIME];
        timer := Running(now + SESSION_LIFETIME);
      }
    }

    /** `HandleJoinerSessionTimer`, which visits the sessions one by one. */
    method HandleTimer(now: int)
      requires timer.Running?
      modifies this
      ensures Expires(old(Now()), now, Now())
      ensures timer.Running? ==> now < timer.fireTime
    {
      timer := Stopped;
      var hasNextShot, nextShot, toVisit := false, 0, sessions.Keys;
      while toVisit != {}
        invariant timer == Stopped
        invariant forall id :: id in sessions <==> id in old(sessions) && (id in toVisit || now < old(sessions[id]))
        invariant forall id :: id in sessions ==> sessions[id] == old(sessions)[id]
        invariant toVisit <= sessions.Keys
        invariant hasNextShot <==> sessions.Keys != toVisit
        invariant hasNextShot ==> exists id :: id in sessions && id !in toVisit && sessions[id] == nextShot
        invariant hasNextShot ==> forall id :: id in sessions && id !in toVisit ==> nextShot <= sessions[id]
        decreases toVisit
      {
        var id :| id in toVisit;
        toVisit := toVisit - {id};
        if now >= sessions[id] {
          sessions := sessions - {id};
        } else {
          if !hasNextShot || sessions[id] < nextShot {
            nextShot := sessions[id];
          }
          hasNextShot := true;
        }
      }
      assert sessions == Unexpired(old(sessions), now);
      if hasNextShot {
        timer := Running(nextShot);
      }
    }
  }

  // ---------------------------------------------------------------------------
  // Runs
  // ---------------------------------------------------------------------------

  datatype Event = Relay(id: JoinerId, disabled: bool, admitted: bool, now: int) | Fire(now: int)

  ghost predicate Step(s: State, e: Event, r: State) {
    match e
    case Relay(id, disabled, admitted, now) => r == Relayed(s, id, disabled, admitted, now)
    case Fire(now) => if s.timer.Running? && s.timer.fireTime <= now then Expires(s, now, r) else r == s
  }

  /** The states that a run can end in. */
  ghost predicate Reached(events: seq<Event>, s: State) {
    if events == [] then s == State(map[], Stopped)
    else
      var n := |events| - 1;
      exists before :: Reached(events[..n], before) && Step(before, events[n], s)
  }

  /** A step is always possible, and its result is determined. */
  lemma StepIsFunction(s: State, e: Event)
    ensures exists r :: Step(s, e, r)
    ensures forall r, q :: Step(s, e, r) && Step(s, e, q) ==> r == q
  {
    match e
    case Relay(id, disabled, admitted, now) => assert Step(s, e, Relayed(s, id, disabled, admitted, now));
    case Fire(now) =>
      if s.timer.Running? && s.timer.fireTime <= now {
        var left := Unexpired(s.sessions, now);
        if left == map[] {
          assert Step(s, e, State(left, Stopped));
        } else {
          var t := EarliestOf(left);
          assert Step(s, e, State(left, Running(t)));
        }
      } else {
        assert Step(s, e, s);
      }
  }

  lemma {:induction false} EarliestOf(sessions: map<JoinerId, int>) returns (t: int)
    requires sessions != map[]
    ensures IsEarliest(sessions, t)
    decreases |sessions|
  {
    var id :| id in sessions;
    var rest := sessions - {id};
    t := sessions[id];
    assert forall k :: k in sessions ==> k == id || k in rest;
    if rest != map[] {
      assert rest.Keys == sessions.Keys - {id};
      var u := EarliestOf(rest);
      t := if u < t then u else t;
    }
  }

  /** After every run, the timer is running while there is a session. */
  lemma {:induction false} TimerRunsWhileSessionsLast(events: seq<Event>, s: State)
    requires Reached(events, s)
    ensures s.sessions != map[] ==> s.timer.Running?
  {
    if events == [] {
    } else {
      var n := |events| - 1;
      var before :| Reached(events[..n], before) && Step(before, events[n], s);
      TimerRunsWhileSessionsLast(events[..n], before);
    }
  }

  /** No session lasts longer, and the timer fires no later, than a lifetime after the last relayed message. */
  lemma {:induction false} LastExpiry(events: seq<Event>, s: State, t: int)
    requires Reached(events, s) && forall e :: e in events && e.Relay? ==> e.now <= t
    ensures forall id :: id in s.sessions ==> s.sessions[id] <= t + SESSION_LIFETIME
    ensures s.timer.Running? ==> s.timer.fireTime <= t + SESSION_LIFETIME
  {
    if events == [] {
    } else {
      var n := |events| - 1;
      var before :| Reached(events[..n], before) && Step(before, events[n], s);
      assert forall e :: e in events[..n] ==> e in events;
      assert events[n] in events;
      LastExpiry(events[..n], before, t);
    }
  }

  /** So when joiners fall silent for a lifetime, the next firing leaves no session. */
  lemma SilenceEndsAllSessions(events: seq<Event>, s: State, t: int, now: int, r: State)
    requires Reached(events, s) && forall e :: e in events && e.Relay? ==> e.now <= t
    requires now >= t + SESSION_LIFETIME && Step(s, Fire(now), r)
    ensures r.sessions == map[]
  {
    LastExpiry(events, s, t);
    TimerRunsWhileSessionsLast(events, s);
  }

  // ---------------------------------------------------------------------------
  // How late a session can be removed
  // ---------------------------------------------------------------------------

  /** The timer fires no later than any session expires. */
  ghost predicate InTime(s: State) {
    s.timer.Running? && forall id :: id in s.sessions ==> s.timer.fireTime <= s.sessions[id]
  }

  /** When the session was started. */
  function StartOf(sessions: map<JoinerId, int>, id: JoinerId): int
    requires id in sessions
  {
    sessions[id] - SESSION_LIFETIME
  }

  /**
   After any run under a clock that does not go back, a newly started session leaves the timer in
   time if and only if no session is left that was started at an earlier instant.
   */
  lemma StartMovesTheTimer(events: seq<Event>, s: State, id: JoinerId, disabled: bool, now: int)
    requires Reached(events, s) && forall e :: e in events && e.Relay? ==> e.now <= now
    requires id !in Usable(s, id, disabled)
    ensures var usable := Usable(s, id, disabled);
            InTime(Relayed(s, id, disabled, true, now)) <==> !exists k :: k in usable && StartOf(usable, k) < now
  {
    var (r, usable) := (Relayed(s, id, disabled, true, now), Usable(s, id, disabled));
    LastExpiry(events, s, now);
    assert forall k :: k in usable ==> k in r.sessions && r.sessions[k] == usable[k] <= now + SESSION_LIFETIME;
  }

  /** Two joiners one second apart: the session of the first outlives its expiry by that second. */
  lemma SecondJoinerDelaysTheFirst()
    ensures var s := Relayed(State(map[], Stopped), [1], false, true, 0);
            var r := Relayed(s, [2], false, true, 1000);
            r.sessions[[1]] == 80000 && r.timer == Running(81000)
  {
    var s := Relayed(State(map[], Stopped), [1], false, true, 0);
    assert s.sessions == map[[1] := 80000] && [1][0] != [2][0];
  }

  /** Joiners 0 to n - 1, `gap` apart, each of them admitted. */
  function Arrivals(ids: nat -> JoinerId, gap: nat, n: nat): seq<Event> {
    if n == 0 then [] else Arrivals(ids, gap, n - 1) + [Relay(ids(n - 1), false, true, gap * (n - 1))]
  }

  ghost predicate Injective(ids: nat -> JoinerId) {
    forall i: nat, j: nat :: i != j ==> ids(i) != ids(j)
  }

  /** What the first n joiners leave behind. */
  ghost predicate AfterArrivals(s: State, ids: nat -> JoinerId, gap: nat, n: nat) {
    && (forall i: nat :: i < n ==> ids(i) in s.sessions && s.sessions[ids(i)] == SESSION_LIFETIME + gap * i)
    && (forall i: nat :: i >= n ==> ids(i) !in s.sessions)
    && (n > 0 ==> s.timer == Running(SESSION_LIFETIME + gap * (n - 1)))
  }

  lemma {:induction false} ArrivalsReach(ids: nat -> JoinerId, gap: nat, n: nat) returns (s: State)
    requires Injective(ids)
    ensures Reached(Arrivals(ids, gap, n), s) && AfterArrivals(s, ids, gap, n)
  {
    if n == 0 {
      s := State(map[], Stopped);
    } else {
      var before := ArrivalsReach(ids, gap, n - 1);
      var e := Relay(ids(n - 1), false, true, gap * (n - 1));
      s := Relayed(before, ids(n - 1), false, true, gap * (n - 1));
      var events := Arrivals(ids, gap, n);
      assert events[..|events| - 1] == Arrivals(ids, gap, n - 1) && events[|events| - 1] == e;
      assert Step(before, e, s);
    }
  }

  /**
   Joiners that arrive less than a lifetime apart keep the timer from ever firing: however many
   have come, all their sessions are still there, also those long expired, and nothing happens when
   the timer is looked at at any time up to the next arrival.
   */
  lemma ArrivalsStarveTheTimer(ids: nat -> JoinerId, gap: nat, n: nat) returns (s: State)
    requires Injective(ids) && gap < SESSION_LIFETIME && n > 0
    ensures Reached(Arrivals(ids, gap, n), s)
    ensures forall i: nat :: i < n ==> ids(i) in s.sessions && s.sessions[ids(i)] == SESSION_LIFETIME + gap * i
    ensures s.timer == Running(SESSION_LIFETIME + gap * (n - 1))
    ensures forall now, r :: now <= gap * n && Step(s, Fire(now), r) ==> r == s
  {
    s := ArrivalsReach(ids, gap, n);
    assert gap * n == gap * (n - 1) + gap;
  }

  /** So for every delay there is a run after which the first session has outlived its expiry by more. */
  lemma SessionsOutliveAnyDelay(ids: nat -> JoinerId, gap: nat, delay: nat) returns (n: nat, s: State)
    requires Injective(ids) && 0 < gap < SESSION_LIFETIME
    ensures n > 0 && Reached(Arrivals(ids, gap, n), s)
    ensures ids(0) in s.sessions && s.sessions[ids(0)] + delay < gap * n
    ensures forall r :: Step(s, Fire(gap * n), r) ==> r == s
  {
    n := SESSION_LIFETIME + delay + 1;
    assert gap * n >= n by { AtLeastOnce(gap, n); }
    s := ArrivalsStarveTheTimer(ids, gap, n);
    assert ids(0) in s.sessions && s.sessions[ids(0)] == SESSION_LIFETIME + gap * 0;
  }

  lemma AtLeastOnce(gap: nat, n: nat)
    requires gap >= 1
    ensures gap * n >= n
  {
  }
}
