/**
 What cancelling and finalising amount to, and what inserting and removing holders
 preserves: the groundwork for the laws over runs of the transaction engine.
 */
module RequestLaws {
  import opened Timers
  import opened Requests

  // ---------------------------------------------------------------------------
  // The order of the cache
  // ---------------------------------------------------------------------------

  predicate Ordered(cache: seq<Holder>) {
    cache != [] ==> Ordered(cache[1..]) && forall h :: h in cache[1..] ==> cache[0].nextShot <= h.nextShot
  }

  predicate Absent(cache: seq<Holder>, id: nat) {
    forall h :: h in cache ==> h.request.id != id
  }

  predicate Distinct(cache: seq<Holder>) {
    cache != [] ==> Distinct(cache[1..]) && Absent(cache[1..], cache[0].request.id)
  }

  /** No request has two holders, and the earliest one is due first. */
  lemma {:induction false} OrderedAndDistinct(cache: seq<Holder>, i: nat, j: nat)
    requires Ordered(cache) && Distinct(cache) && i < j < |cache|
    ensures cache[i].nextShot <= cache[j].nextShot && cache[i].request.id != cache[j].request.id
  {
    if i == 0 {
      assert cache[1..][j - 1] in cache[1..];
    } else {
      OrderedAndDistinct(cache[1..], i - 1, j - 1);
    }
  }

  lemma Members(cache: seq<Holder>)
    requires cache != []
    ensures forall h :: h in cache <==> h == cache[0] || h in cache[1..]
  {
    assert cache == [cache[0]] + cache[1..];
  }

  lemma {:induction false} InsertedMembers(cache: seq<Holder>, h: Holder)
    ensures forall x :: x in Inserted(cache, h) <==> x == h || x in cache
  {
    if cache != [] && !(h.nextShot < cache[0].nextShot) {
      InsertedMembers(cache[1..], h);
      assert cache == [cache[0]] + cache[1..];
    }
  }

  lemma {:induction false} InsertedKeepsOrder(cache: seq<Holder>, h: Holder)
    requires Ordered(cache)
    ensures Ordered(Inserted(cache, h))
  {
    var r := Inserted(cache, h);
    Members(r);
    if cache == [] {
      assert r[1..] == [];
    } else {
      Members(cache);
      if h.nextShot < cache[0].nextShot {
        assert r[1..] == cache;
      } else {
        assert r[1..] == Inserted(cache[1..], h);
        InsertedKeepsOrder(cache[1..], h);
        InsertedMembers(cache[1..], h);
      }
    }
  }

  lemma {:induction false} InsertedKeepsDistinct(cache: seq<Holder>, h: Holder)
    requires Distinct(cache) && Absent(cache, h.request.id)
    ensures Distinct(Inserted(cache, h))
  {
    var r := Inserted(cache, h);
    Members(r);
    if cache == [] {
      assert r[1..] == [];
    } else {
      Members(cache);
      if h.nextShot < cache[0].nextShot {
        assert r[1..] == cache;
      } else {
        assert r[1..] == Inserted(cache[1..], h);
        InsertedKeepsDistinct(cache[1..], h);
        InsertedMembers(cache[1..], h);
      }
    }
  }

  lemma {:induction false} RemovedMembers(cache: seq<Holder>, id: nat)
    requires Ordered(cache) && Distinct(cache)
    ensures forall h :: h in Removed(cache, id) <==> h in cache && h.request.id != id
    ensures Ordered(Removed(cache, id)) && Distinct(Removed(cache, id))
  {
    if cache == [] {
    } else {
      Members(cache);
      if cache[0].request.id != id {
        RemovedMembers(cache[1..], id);
        var r := Removed(cache, id);
        assert r[1..] == Removed(cache[1..], id);
        Members(r);
      }
    }
  }

  lemma {:induction false} RemovedAbsent(cache: seq<Holder>, id: nat)
    requires Absent(cache, id)
    ensures Removed(cache, id) == cache
  {
    if cache == [] {
    } else {
      assert cache[0] in cache;
      RemovedAbsent(cache[1..], id);
      assert cache == [cache[0]] + cache[1..];
    }
  }

  /** Taking out what was just put in. */
  lemma {:induction false} RemovedInserted(cache: seq<Holder>, h: Holder)
    requires Absent(cache, h.request.id)
    ensures Removed(Inserted(cache, h), h.request.id) == cache
  {
    var r := Inserted(cache, h);
    if cache == [] || h.nextShot < cache[0].nextShot {
      assert r[1..] == cache;
    } else {
      assert cache[0] in cache && r[1..] == Inserted(cache[1..], h);
      RemovedInserted(cache[1..], h);
      assert cache == [cache[0]] + cache[1..];
    }
  }

  /** Changing a holder in place does not matter when it is removed. */
  lemma {:induction false} RemovedChanged(cache: seq<Holder>, i: nat, h: Holder)
    requires i < |cache| && Distinct(cache) && h.request.id == cache[i].request.id
    ensures Removed(cache[i := h], h.request.id) == Removed(cache, h.request.id)
  {
    var c := cache[i := h];
    if i == 0 {
      assert c[1..] == cache[1..];
    } else {
      assert c[1..] == cache[1..][i - 1 := h];
      Members(cache);
      RemovedChanged(cache[1..], i - 1, h);
    }
  }

  // ---------------------------------------------------------------------------
  // Cancelling
  // ---------------------------------------------------------------------------

  /** The calls that cancelling makes, in the order of the cache. */
  function CancelCalls(cache: seq<Holder>): seq<Call> {
    if cache == [] then []
    else (if cache[0].handler then [Call(cache[0].request.id, Cancelled)] else []) + CancelCalls(cache[1..])
  }

  function Emptied(s: State): State {
    s.(cache := [], timer := Stopped, calls := s.calls + CancelCalls(s.cache))
  }

  /**
   `CancelRequests` calls every waiting handler once, in order, and empties the cache,
   even when handlers call `CancelRequests` themselves.
   */
  lemma {:induction false} CancelAllIs(s: State)
    requires s.cache == [] ==> s.timer.Stopped?
    ensures CancelAll(s) == Emptied(s)
    decreases Handlers(s.cache), |s.cache|
  {
    if s.cache == [] {
      assert s.calls + CancelCalls(s.cache) == s.calls;
    } else {
      FinalizedFirst(s, Cancelled);
      var h, rest := s.cache[0], s.cache[1..];
      var call := Call(h.request.id, Cancelled);
      assert s.calls + [call] + CancelCalls(rest) == s.calls + ([call] + CancelCalls(rest));
      assert s.calls + ([] + CancelCalls(rest)) == s.calls + CancelCalls(rest);
      CancelAllIs(Finalized(s, 0, Cancelled));
    }
  }

  lemma FinalizedFirst(s: State, result: Result)
    requires s.cache != []
    ensures var h := s.cache[0];
            var called := s.(calls := s.calls + [Call(h.request.id, result)], cache := s.cache[1..]);
            Finalized(s, 0, result) ==
            if !h.handler then Updated(s.(cache := s.cache[1..]))
            else if !h.request.stops then Updated(called)
            else Emptied(called)
    decreases Handlers(s.cache), |s.cache|, 0
  {
    var h := s.cache[0];
    var changed := s.cache[0 := h.(handler := false)];
    assert changed[1..] == s.cache[1..];
    if h.handler && h.request.stops {
      HandlersUpdate(s.cache, 0);
      var called := s.(cache := changed, calls := s.calls + [Call(h.request.id, result)]);
      CancelAllIs(called);
      assert [] + CancelCalls(changed[1..]) == CancelCalls(changed[1..]);
      assert CancelCalls(changed) == CancelCalls(s.cache[1..]);
    }
  }

  /** Finalising a holder in the cache. */
  lemma FinalizedIs(s: State, i: nat, result: Result)
    requires i < |s.cache| && Distinct(s.cache)
    ensures var h := s.cache[i];
            var called := s.(calls := s.calls + [Call(h.request.id, result)]);
            Finalized(s, i, result) ==
            if !h.handler then Eliminated(s, h.request.id)
            else if !h.request.stops then Eliminated(called, h.request.id)
            else Emptied(called.(cache := s.cache[i := h.(handler := false)]))
  {
    var h := s.cache[i];
    RemovedChanged(s.cache, i, h.(handler := false));
    if h.handler && h.request.stops {
      CancelAllIs(s.(cache := s.cache[i := h.(handler := false)], calls := s.calls + [Call(h.request.id, result)]));
    }
  }

  /** Finalising a copy of a holder. */
  lemma FinalizedCopyIs(s: State, h: Holder, result: Result)
    requires s.cache == [] ==> s.timer.Stopped?
    ensures var called := s.(calls := s.calls + [Call(h.request.id, result)]);
            FinalizedCopy(s, h, result) ==
            if !h.handler then Eliminated(s, h.request.id)
            else if !h.request.stops then Eliminated(called, h.request.id)
            else Emptied(called)
  {
    var called := s.(calls := s.calls + [Call(h.request.id, result)]);
    if h.handler && h.request.stops {
      CancelAllIs(called);
    }
  }
}
