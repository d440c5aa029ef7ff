/** What the protocol guarantees on every run, and when the server leaves the protocol. */
module SharingTheorems {
  import opened Wrappers
  import opened CacheSpec
  import opened Sharing
  import opened SharingInvariant
  import opened SharingSteps
  import CP = CacheProperties

  /** `states` is a run of the server under `events`, starting with no client and an empty cache. */
  ghost predicate Run(origin: Origin, capacity: nat, events: seq<Event>, states: seq<State>) {
    && |states| == |events| + 1 && states[0] == Start(capacity)
    && forall n :: 0 <= n < |events| ==>
                     Enabled(origin, states[n], events[n]) && states[n + 1] == Next(origin, states[n], events[n])
  }

  lemma {:induction false} RunInv(origin: Origin, capacity: nat, events: seq<Event>, states: seq<State>, n: nat)
    requires Run(origin, capacity, events, states) && n <= |events|
    ensures Inv(origin, states[n])
  {
    hide Inv, Enabled, Next;
    if n == 0 {
      StartInv(origin, capacity);
    } else {
      RunInv(origin, capacity, events, states, n - 1);
      assert Enabled(origin, states[n - 1], events[n - 1]);
      NextKeeps(origin, states[n - 1], events[n - 1]);
    }
  }

  lemma RunExtends(origin: Origin, capacity: nat, events: seq<Event>, states: seq<State>, e: Event)
    requires Run(origin, capacity, events, states) && Enabled(origin, states[|events|], e)
    ensures Run(origin, capacity, events + [e], states + [Next(origin, states[|events|], e)])
  {
    hide Enabled, Next;
    var more, after := events + [e], states + [Next(origin, states[|events|], e)];
    forall n | 0 <= n < |more|
      ensures Enabled(origin, after[n], more[n]) && after[n + 1] == Next(origin, after[n], more[n])
    {
      if n < |events| {
        assert Enabled(origin, states[n], events[n]) && states[n + 1] == Next(origin, states[n], events[n]);
      }
    }
  }

  // ----- delivery -----

  /** The part of the response between `base` and `base + |bytes|`. */
  ghost predicate IsPartOf(bytes: Bytes, resp: Bytes, base: nat) {
    base + |bytes| <= |resp| && bytes == resp[base..base + |bytes|]
  }

  /** On every run, the bytes delivered to a client are consecutive bytes of the response to its request,
      starting at its base; a client that did not join a broadcast has a prefix. */
  lemma DeliveredInOrder(origin: Origin, capacity: nat, events: seq<Event>, states: seq<State>, n: nat, k: Key, i: nat)
    requires Run(origin, capacity, events, states) && n <= |events| && Listed(states[n], k, i)
    ensures var c := Group(states[n], k)[i];
            && IsPartOf(c.delivered, origin(k), c.base)
            && c.sent == |c.delivered|
            && (c.base == 0 ==> c.delivered <= origin(k))
  {
    RunInv(origin, capacity, events, states, n);
    assert KeyInv(origin, states[n], k);
    var c := Group(states[n], k)[i];
    DeliveredPart(origin(k), Group(states[n], k), Lookup(states[n].cache, k), i);
  }

  lemma DeliveredPart(resp: Bytes, g: seq<Client>, e: Option<Entry>, i: nat)
    requires GroupInv(resp, g, e) && i < |g|
    ensures IsPartOf(g[i].delivered, resp, g[i].base) && g[i].sent == |g[i].delivered|
  {
    var c := g[i];
    match e {
      case Some(entry) => assert Reader(c, entry);
      case None =>
        if !Fetching(c) {
          assert Faithful(resp, c);
          assert c.delivered == Stream(c)[..|c.delivered|];
        }
    }
  }

  /** Whoever leaves through a DONE path has been sent everything from its base to the end of the response. */
  lemma FinishedFromBase(origin: Origin, capacity: nat, events: seq<Event>, states: seq<State>, n: nat, f: Finished)
    requires Run(origin, capacity, events, states) && n <= |events| && f in states[n].finished
    ensures f.base <= |origin(f.key)| && f.delivered == origin(f.key)[f.base..]
  {
    RunInv(origin, capacity, events, states, n);
    assert FinishedInv(origin, f);
  }

  lemma BroadcastPositive(resp: Bytes, g: seq<Client>, e: Option<Entry>)
    requires GroupInv(resp, g, e)
    ensures forall i :: 0 <= i < |g| && IsBroadcasting(g[i]) ==> g[i].server.value > 0
  {
    assert e.Some? ==> forall i :: 0 <= i < |g| ==> Reader(g[i], e.value);
    assert e.None? && IsOk(resp) ==> forall i :: 0 <= i < |g| ==> Fetching(g[i]) || Fed(resp, g[i]);
    assert e.None? && !IsOk(resp) ==> forall i :: 0 <= i < |g| ==> Fetching(g[i]) || Alone(resp, g[i]);
  }

  // ----- use counts and eviction -----

  /** On every run, an entry counts exactly the clients of its request, all of whom read it; without an
      entry nobody reads one; and an entry that nobody uses is complete. */
  lemma UseCounts(origin: Origin, capacity: nat, events: seq<Event>, states: seq<State>, n: nat, k: Key)
    requires Run(origin, capacity, events, states) && n <= |events|
    ensures var g, e := Group(states[n], k), Lookup(states[n].cache, k);
            && (e.Some? ==> e.value.inUse == |g|)
            && (forall i :: 0 <= i < |g| ==> (g[i].readCache <==> e.Some?))
            && (e.Some? && e.value.inUse == 0 ==> e.value.completed)
  {
    RunInv(origin, capacity, events, states, n);
    assert KeyInv(origin, states[n], k);
    var g, e := Group(states[n], k), Lookup(states[n].cache, k);
    forall i | 0 <= i < |g|
      ensures g[i].readCache <==> e.Some?
    {
      NotReading(origin(k), g, e, i);
    }
  }

  /** A complete entry is the whole response, an incomplete one a prefix of it. */
  lemma EntryIsResponse(origin: Origin, capacity: nat, events: seq<Event>, states: seq<State>, n: nat, k: Key)
    requires Run(origin, capacity, events, states) && n <= |events| && Contains(states[n].cache, k)
    ensures var e := Lookup(states[n].cache, k).value;
            e.buffer <= origin(k) && (e.completed ==> e.buffer == origin(k))
  {
    RunInv(origin, capacity, events, states, n);
    assert KeyInv(origin, states[n], k);
  }

  /** The byte count of the cache is exact and within the budget on every run. */
  lemma CacheSound(origin: Origin, capacity: nat, events: seq<Event>, states: seq<State>, n: nat)
    requires Run(origin, capacity, events, states) && n <= |events|
    ensures TotalSize(states[n].cache.items) == states[n].cache.current <= states[n].cache.max
  {
    RunInv(origin, capacity, events, states, n);
  }

  /** Whenever a client writes to the cache, be it the first chunk of a response or a later one, the entry is
      present and in use, so that the write neither evicts nor misses it; whenever a listed client leaves, its
      entry is absent or counts it. */
  lemma CacheCallsAllowed(origin: Origin, capacity: nat, events: seq<Event>, states: seq<State>, n: nat, k: Key, i: nat,
                          chunk: Bytes)
    requires Run(origin, capacity, events, states) && n <= |events| && Listed(states[n], k, i)
    ensures var c, s := Group(states[n], k)[i], states[n].cache;
            && (c.phase == WaitingResponse && c.writeCache ==> WriteAllowed(s, k, chunk))
            && (c.phase == WaitingStatus ==> WriteAllowed(Started(states[n], k, i, chunk).cache, k, chunk))
            && (Contains(s, k) ==> Lookup(s, k).value.inUse >= 1)
  {
    RunInv(origin, capacity, events, states, n);
    var s := states[n];
    assert KeyInv(origin, s, k);
    var g := Group(s, k);
    if g[i].phase == WaitingStatus {
      FetchingGroup(origin(k), g, Lookup(s.cache, k), i);
      UseEffect(s.cache, k);
      CP.WriteInUse(UseEntry(s.cache, k), k, chunk);
    } else if g[i].phase == WaitingResponse && g[i].writeCache {
      if Lookup(s.cache, k) == None {
        WriterNeedsEntry(origin(k), g, i);
      }
      CP.WriteInUse(s.cache, k, chunk);
    }
  }

  /** The entry of `k` is present and in use, and a write finds it. */
  ghost predicate WriteAllowed(s: Store, k: Key, chunk: Bytes) {
    && Contains(s, k) && Lookup(s, k).value.inUse > 0
    && Write(s, k, chunk).1 != KeyNotFound && Contains(Write(s, k, chunk).0, k)
  }

  lemma WriterNeedsEntry(resp: Bytes, g: seq<Client>, i: nat)
    requires GroupInv(resp, g, None) && i < |g|
    ensures !(g[i].phase == WaitingResponse && g[i].writeCache)
  {
    if IsOk(resp) {
      assert Gathering(g) ==> Fetching(g[i]);
    } else {
      assert Fetching(g[i]) || Alone(resp, g[i]);
    }
  }

  // ----- connections -----

  /** On every run, a client that waits for its origin owns a connection to it; one that writes to the
      cache stands exactly where the entry ends. */
  lemma ConnectionsOwned(origin: Origin, capacity: nat, events: seq<Event>, states: seq<State>, n: nat, k: Key, i: nat)
    requires Run(origin, capacity, events, states) && n <= |events| && Listed(states[n], k, i)
    ensures var c := Group(states[n], k)[i];
            && (c.phase in {SendingRequest, WaitingStatus, WaitingResponse} ==> c.server.Some?)
            && (c.phase in {SendingRequest, WaitingStatus} ==> c.server == Some(0))
            && (c.phase == WaitingResponse && Contains(states[n].cache, k) ==>
                  c.server == Some(|Lookup(states[n].cache, k).value.buffer|))
  {
    RunInv(origin, capacity, events, states, n);
    assert KeyInv(origin, states[n], k);
    var g, e := Group(states[n], k), Lookup(states[n].cache, k);
    ConnectionOwned(origin(k), g, e, i);
  }

  lemma ConnectionOwned(resp: Bytes, g: seq<Client>, e: Option<Entry>, i: nat)
    requires GroupInv(resp, g, e) && i < |g|
    ensures var c := g[i];
            && (c.phase in {SendingRequest, WaitingStatus, WaitingResponse} ==> c.server.Some?)
            && (c.phase in {SendingRequest, WaitingStatus} ==> c.server == Some(0))
            && (c.phase == WaitingResponse && e.Some? ==> c.server == Some(|e.value.buffer|))
  {
    if e.Some? {
      assert Reader(g[i], e.value);
    } else if IsOk(resp) {
      assert Fetching(g[i]) || Fed(resp, g[i]);
    } else {
      assert Fetching(g[i]) || Alone(resp, g[i]);
    }
  }

  /** On every run, an event changes the clients of no request but its own; another request's entry is
      unchanged, or it was complete and unused and is evicted. */
  lemma EventsIsolated(origin: Origin, capacity: nat, events: seq<Event>, states: seq<State>, n: nat, k: Key)
    requires Run(origin, capacity, events, states) && n < |events| && k != About(events[n])
    ensures Group(states[n + 1], k) == Group(states[n], k)
    ensures var e := Lookup(states[n].cache, k);
            Lookup(states[n + 1].cache, k) == e
            || (Lookup(states[n + 1].cache, k) == None && e.Some? && e.value.inUse == 0
                && e.value.completed && Group(states[n], k) == [])
  {
    RunInv(origin, capacity, events, states, n);
    NextKeeps(origin, states[n], events[n]);
    assert KeyInv(origin, states[n], k);
  }

  // ----- the first chunk: exactly when the server can open an entry -----

  /** The leader's first write raises no exception if and only if its chunk fits or the leader is alone:
      with others waiting, the fallback loses the entry after its first client. */
  lemma FirstChunkIff(origin: Origin, s: State, k: Key, i: nat, chunk: Bytes)
    requires Inv(origin, s) && Listed(s, k, i) && Group(s, k)[i].phase == WaitingStatus
    requires Receives(origin(k), Group(s, k)[i], chunk) && IsOk(chunk)
    ensures WriteToCache(Started(s, k, i, chunk), k, i, chunk).1 <==> FirstChunkFits(s, k, chunk)
  {
    hide Lookup, IsOk, Receives, Started, Inv, Write, Opened, Sound, UseEntry;
    GatheringFacts(origin, s, k, i, chunk);
    if FirstChunkFits(s, k, chunk) {
      FirstWrite(s, k, i, chunk);
    } else {
      FirstWriteFails(s, k, chunk);
      var started := Started(s, k, i, chunk);
      StartedGroup(s, k, i, chunk);
      UseEffect(s.cache, k);
      UsedWrite(started.cache, k, chunk);
      FallbackLoopEffect(Group(started, k), 0, Write(started.cache, k, chunk).0, k, chunk);
    }
  }

  // ----- the status: exactly when the server stays in the protocol -----

  /** After a failing second try the client still waits for a status, with a chunk of the response in its queue:
      the next chunk will be taken for another status. */
  lemma NoSecondTry(s: State, k: Key, i: nat, chunk: Bytes, reach: nat, again: nat)
    requires Listed(s, k, i) && Group(s, k)[i].phase == WaitingStatus && !IsOk(chunk)
    requires !AllReached(Group(s, k), reach) && !AllReached(Group(s, k), again)
    ensures var t := ReadStatus(s, k, i, chunk, reach, again);
            Listed(t, k, i) && Group(t, k)[i] == Queued(Advanced(Group(s, k)[i], |chunk|), chunk)
  {
    var g := Group(s, k);
    var u := PrepareSome(Received(s, k, i, chunk), k, reach);
    hide IsOk, StatusFailed;
    var m := if again < reach then reach else again;
    var j :| m <= j < |g| && g[j].phase == WaitingForAnother;
    assert Group(u, k)[j].phase == WaitingForAnother;
  }

  /** Reading a status leaves the server in a state that the protocol knows, whoever can be connected, if and only if a
      chunk of a response 200 is stored or safely lost, and one of the two tries to connect everyone who waits succeeds
      for any other response. */
  lemma StatusIff(origin: Origin, s: State, k: Key, i: nat, chunk: Bytes, reach: nat, again: nat)
    requires Inv(origin, s) && Listed(s, k, i) && Group(s, k)[i].phase == WaitingStatus
    requires Receives(origin(k), Group(s, k)[i], chunk) && StatusReadable(chunk)
    ensures Inv(origin, ReadStatus(s, k, i, chunk, reach, again)) <==> StatusSafe(s, k, i, chunk, reach, again)
  {
    hide IsOk, Receives, AllReached, StatusOk, StatusFailing, StatusOther, StatusFailed, Inv, FirstChunkFits, LossSafe;
    if StatusSafe(s, k, i, chunk, reach, again) {
      StatusKeeps(origin, s, k, i, chunk, reach, again);
    } else if IsOk(chunk) {
      StatusOkLost(origin, s, k, i, chunk, again);
    } else {
      NoSecondTry(s, k, i, chunk, reach, again);
      NotFetching(origin, ReadStatus(s, k, i, chunk, reach, again), k, i);
    }
  }

  /** Whoever waits for a status has nothing queued. */
  lemma NotFetching(origin: Origin, s: State, k: Key, i: nat)
    requires Listed(s, k, i) && Group(s, k)[i].phase == WaitingStatus && Group(s, k)[i].chunks != []
    ensures !Inv(origin, s)
  {
    if Inv(origin, s) {
      assert KeyInv(origin, s, k);
      FetchingGroup(origin(k), Group(s, k), Lookup(s.cache, k), i);
    }
  }
}
