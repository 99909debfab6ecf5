/**
 The loop of `Coap::CancelRequests` when handlers answer a cancellation with a new request, which
 goes into the cache that the loop is emptying. Each handler may do so a number of times, or always.
 The loop runs in one go, so the endpoint takes every request (`up`) or none.
 */
module CancelLoop {
  import opened Outcomes
  import opened Bytes
  import opened Requests
  import opened RequestLaws

  /** For each request, how many more requests its handler sends on cancellation; `None` stands for no end. */
  type Chains = seq<Option<nat>>

  datatype Loop = Loop(engine: State, chains: Chains)

  /** What the handlers send, by the number of the new request. */
  datatype FollowUp = FollowUp(endpoint: nat, token: ByteArray, first: InitialDelay, now: int)
  type Plan = nat -> FollowUp

  predicate Known(cache: seq<Holder>, chains: Chains) {
    forall h :: h in cache ==> h.request.id < |chains| && !h.request.stops
  }

  predicate Valid(l: Loop) {
    && |l.chains| == |l.engine.issued| && Known(l.engine.cache, l.chains)
    && Ordered(l.engine.cache) && Distinct(l.engine.cache)
  }

  /** The handler of a holder is there and sends another request. */
  predicate SendsAgain(h: Holder, chains: Chains)
    requires h.request.id < |chains|
  {
    h.handler && chains[h.request.id] != Some(0)
  }

  function OneLess(chain: Option<nat>): Option<nat> {
    if chain.Some? && chain.value > 0 then Some(chain.value - 1) else chain
  }

  /** One round of the loop: the handler of the first holder is cleared and called, and the holder removed. */
  function Round(l: Loop, plan: Plan, up: bool): Loop
    requires Valid(l) && l.engine.cache != []
  {
    var (s, h) := (l.engine, l.engine.cache[0]);
    var id := h.request.id;
    if !h.handler then l.(engine := Eliminated(s, id))
    else
      var cleared := s.(cache := s.cache[0 := h.(handler := false)]);
      var called := Called(cleared, id, false, Cancelled);
      if !SendsAgain(h, l.chains) then l.(engine := Eliminated(called, id))
      else
        var f := plan(|s.issued|);
        var out := Outgoing(Confirmable, f.endpoint, f.token, true, false, f.first);
        Loop(Eliminated(SentRequest(called, out, f.now, (_, _) => up), id), l.chains + [OneLess(l.chains[id])])
  }

  function Rounds(l: Loop, n: nat, plan: Plan, up: bool): (r: Loop)
    requires Valid(l)
    ensures Valid(r)
    decreases n
  {
    if n == 0 || l.engine.cache == [] then l
    else
      RoundIs(l, plan, up);
      Rounds(Round(l, plan, up), n - 1, plan, up)
  }

  // ---------------------------------------------------------------------------
  // One round
  // ---------------------------------------------------------------------------

  lemma ReplacedFirst(cache: seq<Holder>, h: Holder)
    requires cache != [] && Ordered(cache) && h.nextShot == cache[0].nextShot
    ensures cache[0 := h][1..] == cache[1..] && Ordered(cache[0 := h])
  {
    assert cache[0 := h][1..] == cache[1..];
  }

  /** Inserting before the first holder is removed is inserting afterwards. */
  lemma RemovedBehind(cache: seq<Holder>, h: Holder)
    requires cache != [] && Ordered(cache) && h.request.id != cache[0].request.id
    ensures Removed(Inserted(cache, h), cache[0].request.id) == Inserted(cache[1..], h)
  {
    hide Handlers;
    if h.nextShot < cache[0].nextShot {
      assert cache[1..] != [] ==> cache[1] in cache[1..];
      assert ([h] + cache)[1..] == cache;
    } else {
      assert Inserted(cache, h)[1..] == Inserted(cache[1..], h);
    }
  }

  /** The holder of the request that the first handler sends. */
  function Follower(l: Loop, plan: Plan): Holder {
    var (n, f) := (|l.engine.issued|, plan(|l.engine.issued|));
    Holder(Request(n, Confirmable, f.endpoint, Wrap16(l.engine.messageId + 1), f.token, false, f.now, f.first),
           true, 0, f.first, f.now + f.first, false)
  }

  /** What is sent to an endpoint that takes requests goes into the cache. */
  lemma SentFollower(l: Loop, plan: Plan, called: State)
    requires called.issued == l.engine.issued && called.messageId == l.engine.messageId
    ensures var f := plan(|called.issued|);
            var out := Outgoing(Confirmable, f.endpoint, f.token, true, false, f.first);
            && (var r := SentRequest(called, out, f.now, (_, _) => true);
                r.cache == Inserted(called.cache, Follower(l, plan)) && |r.issued| == |called.issued| + 1)
            && (var r := SentRequest(called, out, f.now, (_, _) => false);
                r.cache == called.cache && |r.issued| == |called.issued| + 1)
  {
    hide Inserted;
  }

  lemma RoundCache(l: Loop, plan: Plan, up: bool)
    requires Valid(l) && l.engine.cache != [] && l.engine.cache[0] in l.engine.cache
    ensures var (r, h, rest) := (Round(l, plan, up), l.engine.cache[0], l.engine.cache[1..]);
            && |r.chains| == |r.engine.issued|
            && r.chains == (if SendsAgain(h, l.chains) then l.chains + [OneLess(l.chains[h.request.id])] else l.chains)
            && r.engine.cache == if up && SendsAgain(h, l.chains) then Inserted(rest, Follower(l, plan)) else rest
  {
    hide Ordered, Distinct, Handlers, Inserted, SentRequest, OneLess;
    var (s, h) := (l.engine, l.engine.cache[0]);
    var cleared := s.(cache := s.cache[0 := h.(handler := false)]);
    ReplacedFirst(s.cache, h.(handler := false));
    if SendsAgain(h, l.chains) {
      SentFollower(l, plan, Called(cleared, h.request.id, false, Cancelled));
      RemovedBehind(cleared.cache, Follower(l, plan));
    }
  }

  /** A round takes out the first holder and, if the endpoint takes requests, puts in what its handler sends. */
  lemma RoundIs(l: Loop, plan: Plan, up: bool)
    requires Valid(l) && l.engine.cache != []
    ensures var (r, h, rest) := (Round(l, plan, up), l.engine.cache[0], l.engine.cache[1..]);
            && h in l.engine.cache && Valid(r)
            && r.chains == (if SendsAgain(h, l.chains) then l.chains + [OneLess(l.chains[h.request.id])] else l.chains)
            && r.engine.cache == if up && SendsAgain(h, l.chains) then Inserted(rest, Follower(l, plan)) else rest
  {
    hide Ordered, Distinct, Handlers, Inserted, Round, OneLess;
    RestIs(l.engine.cache);
    RoundCache(l, plan, up);
    var (rest, h) := (l.engine.cache[1..], Follower(l, plan));
    InsertedMembers(rest, h);
    InsertedKeepsOrder(rest, h);
    assert Absent(rest, h.request.id);
    InsertedKeepsDistinct(rest, h);
  }

  lemma RestIs(cache: seq<Holder>)
    requires cache != [] && Ordered(cache) && Distinct(cache)
    ensures Ordered(cache[1..]) && Distinct(cache[1..]) && Absent(cache[1..], cache[0].request.id)
    ensures forall h :: h in cache <==> h == cache[0] || h in cache[1..]
  {
    Members(cache);
  }

  /** Without a further request a round is the finalisation of the first holder. */
  lemma RoundIsFinalized(l: Loop, plan: Plan, up: bool)
    requires Valid(l) && l.engine.cache != [] && l.engine.cache[0] in l.engine.cache
    requires !SendsAgain(l.engine.cache[0], l.chains)
    ensures Round(l, plan, up).engine == Finalized(l.engine, 0, Cancelled)
  {
  }

  /** If no handler sends anything, the loop does what `CancelAll` says. */
  lemma {:induction false} QuietLoopCancelsAll(l: Loop, plan: Plan, up: bool)
    requires Valid(l) && forall h :: h in l.engine.cache ==> !SendsAgain(h, l.chains)
    ensures Rounds(l, |l.engine.cache|, plan, up).engine == CancelAll(l.engine)
    decreases |l.engine.cache|
  {
    hide Round, Finalized, Ordered, Distinct;
    if l.engine.cache == [] {
    } else {
      RoundIs(l, plan, up);
      RoundIsFinalized(l, plan, up);
      QuietLoopCancelsAll(Round(l, plan, up), plan, up);
    }
  }

  // ---------------------------------------------------------------------------
  // What ends the loop
  // ---------------------------------------------------------------------------

  /** Some handler in the cache answers every cancellation with a request. */
  predicate Endless(l: Loop)
    requires Known(l.engine.cache, l.chains)
  {
    exists h :: h in l.engine.cache && h.handler && l.chains[h.request.id].None?
  }

  function Share(h: Holder, chains: Chains): nat
    requires h.request.id < |chains|
  {
    1 + if h.handler && chains[h.request.id].Some? then chains[h.request.id].value else 0
  }

  /** One round for every request in the cache and for every request that follows one of them. */
  function Weight(cache: seq<Holder>, chains: Chains): nat
    requires Known(cache, chains)
  {
    if cache == [] then 0 else
    assert cache[0] in cache;
    Share(cache[0], chains) + Weight(cache[1..], chains)
  }

  lemma {:induction false} WeightInserted(cache: seq<Holder>, h: Holder, chains: Chains)
    requires Known(cache, chains) && h.request.id < |chains| && !h.request.stops
    ensures Known(Inserted(cache, h), chains)
    ensures Weight(Inserted(cache, h), chains) == Share(h, chains) + Weight(cache, chains)
  {
    hide Share;
    InsertedMembers(cache, h);
    if cache == [] || h.nextShot < cache[0].nextShot {
      assert ([h] + cache)[1..] == cache;
    } else {
      WeightInserted(cache[1..], h, chains);
      assert Inserted(cache, h)[1..] == Inserted(cache[1..], h);
    }
  }

  lemma {:induction false} WeightExtended(cache: seq<Holder>, chains: Chains, chain: Option<nat>)
    requires Known(cache, chains)
    ensures Known(cache, chains + [chain]) && Weight(cache, chains + [chain]) == Weight(cache, chains)
  {
    if cache == [] {
    } else {
      assert cache[0] in cache;
      WeightExtended(cache[1..], chains, chain);
    }
  }

  /** The rounds that the loop takes if it ends. */
  function Needed(l: Loop, up: bool): nat
    requires Valid(l)
  {
    if up then Weight(l.engine.cache, l.chains) else |l.engine.cache|
  }

  lemma RoundNeedsOneLess(l: Loop, plan: Plan, up: bool)
    requires Valid(l) && l.engine.cache != [] && (up ==> !Endless(l))
    ensures Valid(Round(l, plan, up)) && Needed(Round(l, plan, up), up) == Needed(l, up) - 1
    ensures up ==> !Endless(Round(l, plan, up))
  {
    hide Round, Ordered, Distinct, Inserted;
    RoundIs(l, plan, up);
    var (cache, r) := (l.engine.cache, Round(l, plan, up));
    var h := cache[0];
    Members(cache);
    if up && SendsAgain(h, l.chains) {
      WeightExtended(cache[1..], l.chains, OneLess(l.chains[h.request.id]));
      WeightInserted(cache[1..], Follower(l, plan), r.chains);
      InsertedMembers(cache[1..], Follower(l, plan));
    }
  }

  /** A handler that always sends has a follower that always sends. */
  lemma RoundStaysEndless(l: Loop, plan: Plan)
    requires Valid(l) && l.engine.cache != [] && Endless(l)
    ensures Valid(Round(l, plan, true)) && Endless(Round(l, plan, true))
  {
    hide Round, Ordered, Distinct, Inserted;
    RoundIs(l, plan, true);
    var (cache, r) := (l.engine.cache, Round(l, plan, true));
    var e :| e in cache && e.handler && l.chains[e.request.id].None?;
    Members(cache);
    InsertedMembers(cache[1..], Follower(l, plan));
    if e == cache[0] {
      assert Follower(l, plan) in r.engine.cache;
    } else {
      assert e in r.engine.cache;
    }
  }

  /** A loop that ends takes exactly the rounds it needs. */
  lemma {:induction false} RoundsNeeded(l: Loop, n: nat, plan: Plan, up: bool)
    requires Valid(l) && (up ==> !Endless(l))
    ensures Rounds(l, n, plan, up).engine.cache == [] <==> n >= Needed(l, up)
    decreases n
  {
    hide Round, Endless;
    if n == 0 || l.engine.cache == [] {
    } else {
      RoundNeedsOneLess(l, plan, up);
      RoundsNeeded(Round(l, plan, up), n - 1, plan, up);
    }
  }

  lemma {:induction false} EndlessRounds(l: Loop, n: nat, plan: Plan)
    requires Valid(l) && Endless(l)
    ensures Rounds(l, n, plan, true).engine.cache != []
    decreases n
  {
    hide Round;
    if n == 0 {
    } else {
      RoundStaysEndless(l, plan);
      EndlessRounds(Round(l, plan, true), n - 1, plan);
    }
  }

  /** The loop ends if and only if the endpoint takes no requests or every handler stops sending at some point. */
  lemma LoopEndsIff(l: Loop, plan: Plan, up: bool)
    requires Valid(l)
    ensures (exists n :: Rounds(l, n, plan, up).engine.cache == []) <==> !up || !Endless(l)
  {
    hide Rounds, Endless, Ordered, Distinct, Needed;
    if !up || !Endless(l) {
      RoundsNeeded(l, Needed(l, up), plan, up);
    } else {
      forall n ensures Rounds(l, n, plan, up).engine.cache != [] {
        EndlessRounds(l, n, plan);
      }
    }
  }
}
