/** The stream of a client over a whole run: it begins where the client joined, and the events carry it on. */
module SharingStreams {
  import opened Wrappers
  import opened CacheSpec
  import opened Sharing
  import opened SharingInvariant
  import opened SharingSteps
  import opened SharingTheorems
  import opened SharingWriters

  // ----- one event -----

  /** What a step keeps of a client: where its stream begins, and what it has been sent. */
  ghost predicate Continues(c: Client, d: Client) {
    d.base == c.base && c.delivered <= d.delivered
  }

  ghost predicate AllContinue(g: seq<Client>, h: seq<Client>) {
    |h| == |g| && forall j :: 0 <= j < |g| ==> Continues(g[j], h[j])
  }

  /** Client `i` has left, the others go on. */
  ghost predicate AllButContinue(g: seq<Client>, h: seq<Client>, i: nat) {
    && i < |g| && |h| == |g| - 1
    && forall j :: 0 <= j < |g| && j != i ==> Continues(g[j], h[Shifted(j, i)])
  }

  /** A client has joined at the end. */
  ghost predicate OneJoins(g: seq<Client>, h: seq<Client>) {
    |h| == |g| + 1 && AllContinue(g, h[..|g|])
  }

  lemma ContinueThen(f: seq<Client>, g: seq<Client>, h: seq<Client>)
    requires AllContinue(f, g)
    ensures AllContinue(g, h) ==> AllContinue(f, h)
    ensures forall i: nat :: AllButContinue(g, h, i) ==> AllButContinue(f, h, i)
  {
  }

  lemma LeavingContinues(g: seq<Client>, i: nat)
    requires i < |g|
    ensures AllButContinue(g, AfterLeaving(g, i), i)
  {
    hide FirstReader;
  }

  lemma {:induction false} FallbackContinues(g: seq<Client>, j: nat, cache: Store, k: Key, chunk: Bytes)
    requires j <= |g|
    ensures AllContinue(g, FallbackLoop(g, j, cache, k, chunk).0)
    decreases |g| - j
  {
    hide Lookup, Touch, DisuseEntry;
    if j < |g| && Lookup(cache, k).Some? {
      var c := g[j].(readCache := false, phase := GettingFromAnother);
      var d := FellBack(c, Lookup(cache, k).value.buffer, chunk);
      FallbackContinues(g[j := d], j + 1, DisuseEntry(Touch(cache, k), k), k, chunk);
      ContinueThen(g, g[j := d], FallbackLoop(g, j, cache, k, chunk).0);
    }
  }

  lemma WriteContinues(s: State, k: Key, i: nat, chunk: Bytes)
    requires Listed(s, k, i)
    ensures AllContinue(Group(s, k), Group(WriteToCache(s, k, i, chunk).0, k))
  {
    FallbackContinues(Group(s, k), 0, Write(s.cache, k, chunk).0, k, chunk);
    hide Write, FallbackLoop;
  }

  lemma FailureContinues(s: State, k: Key, i: nat)
    requires Listed(s, k, i)
    ensures AllButContinue(Group(s, k), Group(StatusFailed(s, k, i), k), i)
  {
    LeavingContinues(PrepareWaiting(Group(s, k)), i);
    ContinueThen(Group(s, k), PrepareWaiting(Group(s, k)), Group(StatusFailed(s, k, i), k));
    hide AfterLeaving, DisuseEntry;
  }

  /** A step of the clients of `k` lets them go on; client `i` may leave. */
  ghost predicate StreamsKept(s: State, t: State, k: Key, i: nat) {
    && t.finished == s.finished
    && (AllContinue(Group(s, k), Group(t, k)) || AllButContinue(Group(s, k), Group(t, k), i))
  }

  /** Once everyone reads the entry and the leader waits for more. */
  lemma SettleContinues(g: seq<Client>, i: nat)
    requires i < |g|
    ensures var h := OthersRead(g, i); AllContinue(g, h[i := h[i].(phase := WaitingResponse)])
  {
  }

  lemma KeptThen(s: State, t: State, u: State, k: Key, i: nat)
    requires AllContinue(Group(s, k), Group(t, k)) && t.finished == s.finished && StreamsKept(t, u, k, i)
    ensures StreamsKept(s, u, k, i)
  {
    ContinueThen(Group(s, k), Group(t, k), Group(u, k));
  }

  lemma FailingContinues(s: State, k: Key, i: nat, again: nat)
    requires Listed(s, k, i)
    ensures StreamsKept(s, StatusFailing(s, k, i, again), k, i)
  {
    hide StatusFailed, AllReached;
    FailureContinues(s, k, i);
    FinishedKept(s, k, i, "");
  }

  lemma OkContinues(s: State, k: Key, i: nat, chunk: Bytes, again: nat)
    requires Listed(s, k, i)
    ensures StreamsKept(s, StatusOk(s, k, i, chunk, again), k, i)
  {
    var started := Started(s, k, i, chunk);
    assert AllContinue(Group(s, k), Group(started, k)) && started.finished == s.finished;
    hide WriteToCache, StatusFailing, UseEntry, UseTimes, Started, AllContinue, AllButContinue, OthersRead;
    WriteContinues(started, k, i, chunk);
    FinishedKept(started, k, i, chunk);
    var t := WriteToCache(started, k, i, chunk).0;
    FailingContinues(t, k, i, again);
    SettleContinues(Group(t, k), i);
    ContinueThen(Group(s, k), Group(started, k), Group(t, k));
    KeptThen(s, t, StatusOk(s, k, i, chunk, again), k, i);
  }

  lemma StatusContinues(s: State, k: Key, i: nat, chunk: Bytes, reach: nat, again: nat)
    requires Listed(s, k, i)
    ensures StreamsKept(s, ReadStatus(s, k, i, chunk, reach, again), k, i)
  {
    var u := PrepareSome(Received(s, k, i, chunk), k, reach);
    assert AllContinue(Group(s, k), Group(u, k)) && u.finished == s.finished;
    assert StreamsKept(s, StatusOther(s, k, i, chunk), k, i);
    hide StatusOk, IsOk, StatusFailing, AllReached, StatusOther, StreamsKept, AllContinue, PrepareSome, Received;
    OkContinues(s, k, i, chunk, again);
    FailingContinues(u, k, i, again);
    KeptThen(s, u, StatusFailing(u, k, i, again), k, i);
  }

  lemma FinishedKept(s: State, k: Key, i: nat, chunk: Bytes)
    requires Listed(s, k, i)
    ensures WriteToCache(s, k, i, chunk).0.finished == s.finished
    ensures Discard(s, k, i).finished == s.finished && StatusFailed(s, k, i).finished == s.finished
    ensures StatusFailed(WriteToCache(s, k, i, chunk).0, k, i).finished == s.finished
    ensures Discard(WriteToCache(s, k, i, chunk).0, k, i).finished == s.finished
  {
    hide Write, FallbackLoop, AfterLeaving, DisuseEntry;
  }

  lemma ChunkContinues(s: State, k: Key, i: nat, chunk: Bytes)
    requires Listed(s, k, i)
    ensures StreamsKept(s, ReadChunk(s, k, i, chunk), k, i)
  {
    hide WriteToCache, AfterLeaving, DisuseEntry;
    var advanced := SetGroup(s, k, Group(s, k)[i := Advanced(Group(s, k)[i], |chunk|)]);
    WriteContinues(advanced, k, i, chunk);
    FinishedKept(advanced, k, i, chunk);
    var t := WriteToCache(advanced, k, i, chunk).0;
    LeavingContinues(Group(t, k), i);
    ContinueThen(Group(s, k), Group(advanced, k), Group(t, k));
    ContinueThen(Group(s, k), Group(t, k), Group(ReadChunk(s, k, i, chunk), k));
  }

  /** Client `i` is finished: it leaves, and what it was sent is recorded. */
  ghost predicate Finishes(s: State, t: State, k: Key, i: nat) {
    && AllButContinue(Group(s, k), Group(t, k), i)
    && t.finished == s.finished + [Finished(k, Group(s, k)[i].delivered, Group(s, k)[i].base)]
  }

  lemma SendContinues(s: State, k: Key, i: nat, room: nat)
    requires Listed(s, k, i)
    ensures var t := Send(s, k, i, room); StreamsKept(s, t, k, i) || Finishes(s, t, k, i)
  {
    hide AfterLeaving, DisuseEntry, Touch, Lookup;
    LeavingContinues(Group(s, k), i);
  }

  /** The client that an event is about. */
  ghost function ClientOf(e: Event): nat {
    match e
    case RequestSent(_, i) => i
    case NoStatus(_, i, _) => i
    case Status(_, i, _, _, _) => i
    case Chunk(_, i, _) => i
    case Eof(_, i) => i
    case Writable(_, i, _) => i
    case Drop(_, i) => i
    case _ => 0
  }

  /** An event lets the clients of its request go on, lets one join, lets its client leave, or finishes it. */
  ghost predicate StreamsStep(s: State, e: Event, t: State) {
    var k, i := About(e), ClientOf(e);
    if e.Writable? then StreamsKept(s, t, k, i) || Finishes(s, t, k, i)
    else StreamsKept(s, t, k, i) || (e.Request? && t.finished == s.finished && OneJoins(Group(s, k), Group(t, k)))
  }

  lemma OwnStreams(origin: Origin, s: State, e: Event)
    requires Enabled(origin, s, e)
    ensures StreamsStep(s, e, Next(origin, s, e))
  {
    hide AfterLeaving, DisuseEntry, UseEntry, StatusFailing, ReadStatus, ReadChunk, Send, Receives, StatusReadable,
      StatusSafe;
    match e
    case NoStatus(k, i, again) => FailingContinues(s, k, i, again);
    case Status(k, i, chunk, reach, again) => StatusContinues(s, k, i, chunk, reach, again);
    case Chunk(k, i, chunk) => ChunkContinues(s, k, i, chunk);
    case Writable(k, i, room) => SendContinues(s, k, i, room);
    case Drop(k, i) => LeavingContinues(Group(s, k), i);
    case _ =>
  }

  // ----- a whole run -----

  ghost predicate SomebodyBroadcasts(s: State, k: Key) {
    exists i :: 0 <= i < |Group(s, k)| && IsBroadcasting(Group(s, k)[i])
  }

  /** Event `m` is a request of `k`, and its client is listed last from then on. */
  ghost predicate JoinsAt(events: seq<Event>, states: seq<State>, k: Key, m: nat) {
    && m < |events| && |states| == |events| + 1 && events[m].Request? && events[m].key == k
    && OneJoins(Group(states[m], k), Group(states[m + 1], k))
  }

  /** What becomes of place `j` in the list of `k` when `e` takes the server from `s` to `t`. */
  ghost function Moved(s: State, e: Event, t: State, k: Key, j: nat): Option<nat> {
    if |Group(t, k)| >= |Group(s, k)| then Some(j)
    else if j == ClientOf(e) then None
    else Some(Shifted(j, ClientOf(e)))
  }

  /** The place, after `n` events, of the client that joined at event `m`; None once it has left. */
  ghost function Place(events: seq<Event>, states: seq<State>, k: Key, m: nat, n: nat): Option<nat>
    requires JoinsAt(events, states, k, m) && m < n <= |events|
    decreases n
  {
    if n == m + 1 then Some(|Group(states[m], k)|)
    else
      match Place(events, states, k, m, n - 1)
      case None => None
      case Some(j) => Moved(states[n - 1], events[n - 1], states[n], k, j)
  }

  /** How the list of `k` changes. */
  ghost predicate StreamsMoved(s: State, e: Event, t: State, k: Key) {
    var g, h := Group(s, k), Group(t, k);
    || AllContinue(g, h)
    || (k == About(e) && e.Request? && OneJoins(g, h))
    || (k == About(e) && AllButContinue(g, h, ClientOf(e)))
  }

  lemma StreamsMove(origin: Origin, capacity: nat, events: seq<Event>, states: seq<State>, k: Key, n: nat)
    requires Run(origin, capacity, events, states) && n < |events|
    ensures StreamsMoved(states[n], events[n], states[n + 1], k)
  {
    var s, e, t := states[n], events[n], states[n + 1];
    RunInv(origin, capacity, events, states, n);
    assert Enabled(origin, s, e) && t == Next(origin, s, e);
    OwnStreams(origin, s, e);
    NextKeeps(origin, s, e);
    hide Inv, Enabled, Next, Run;
  }

  lemma MovedContinues(s: State, e: Event, t: State, k: Key, j: nat)
    requires StreamsMoved(s, e, t, k) && j < |Group(s, k)|
    ensures var place := Moved(s, e, t, k, j);
            place.Some? ==> place.value < |Group(t, k)| && Continues(Group(s, k)[j], Group(t, k)[place.value])
  {
  }

  /** A client that is listed goes on until it leaves. */
  lemma {:induction false} PlaceContinues(origin: Origin, capacity: nat, events: seq<Event>, states: seq<State>, k: Key,
                                          m: nat, n: nat)
    requires Run(origin, capacity, events, states) && JoinsAt(events, states, k, m) && m < n <= |events|
    ensures var place := Place(events, states, k, m, n);
            place.Some? ==> place.value < |Group(states[n], k)|
                            && Continues(Group(states[m + 1], k)[|Group(states[m], k)|],
                                 Group(states[n], k)[place.value])
    decreases n
  {
    hide Run, Moved, StreamsMoved;
    if n > m + 1 {
      PlaceContinues(origin, capacity, events, states, k, m, n - 1);
      var place := Place(events, states, k, m, n - 1);
      if place.Some? {
        StreamsMove(origin, capacity, events, states, k, n - 1);
        MovedContinues(states[n - 1], events[n - 1], states[n], k, place.value);
      }
    }
  }

  /** Where place `i` was before the event; None if its client has just joined. */
  lemma MovedFrom(s: State, e: Event, t: State, k: Key, i: nat) returns (j: Option<nat>)
    requires StreamsMoved(s, e, t, k) && i < |Group(t, k)|
    ensures j.Some? ==> j.value < |Group(s, k)| && Moved(s, e, t, k, j.value) == Some(i)
    ensures j.None? ==> e.Request? && e.key == k && OneJoins(Group(s, k), Group(t, k)) && i == |Group(s, k)|
  {
    var g := Group(s, k);
    if |Group(t, k)| < |g| {
      j := Some(if i < ClientOf(e) then i else i + 1);
    } else {
      j := if i < |g| then Some(i) else None;
    }
  }

  lemma RunStarts(origin: Origin, capacity: nat, events: seq<Event>, states: seq<State>, k: Key, n: nat, i: nat)
    requires Run(origin, capacity, events, states) && n <= |events| && Listed(states[n], k, i)
    ensures n > 0 && |states| == |events| + 1
  {
  }

  /** Everyone who is listed joined at some event. */
  lemma {:induction false} EveryoneJoined(origin: Origin, capacity: nat, events: seq<Event>, states: seq<State>, k: Key,
                                          n: nat, i: nat) returns (m: nat)
    requires Run(origin, capacity, events, states) && n <= |events| && Listed(states[n], k, i)
    ensures m < n && JoinsAt(events, states, k, m) && Place(events, states, k, m, n) == Some(i)
    decreases n
  {
    hide Run, Moved, StreamsMoved, OneJoins, Place, JoinsAt;
    RunStarts(origin, capacity, events, states, k, n, i);
    StreamsMove(origin, capacity, events, states, k, n - 1);
    var j := MovedFrom(states[n - 1], events[n - 1], states[n], k, i);
    if j.Some? {
      m := EveryoneJoined(origin, capacity, events, states, k, n - 1, j.value);
      PlaceMoves(events, states, k, m, n);
    } else {
      m := n - 1;
      JustJoined(events, states, k, m);
    }
  }

  lemma PlaceMoves(events: seq<Event>, states: seq<State>, k: Key, m: nat, n: nat)
    requires JoinsAt(events, states, k, m) && m + 1 < n <= |events| && Place(events, states, k, m, n - 1).Some?
    ensures Place(events, states, k, m, n)
            == Moved(states[n - 1], events[n - 1], states[n], k, Place(events, states, k, m, n - 1).value)
  {
    hide Moved, OneJoins;
  }

  lemma JustJoined(events: seq<Event>, states: seq<State>, k: Key, m: nat)
    requires m < |events| && |states| == |events| + 1 && events[m].Request? && events[m].key == k
    requires OneJoins(Group(states[m], k), Group(states[m + 1], k))
    ensures JoinsAt(events, states, k, m) && Place(events, states, k, m, m + 1) == Some(|Group(states[m], k)|)
  {
    hide OneJoins;
  }

  /** A client that joins has been sent nothing. Its stream begins at the start of the response if and only if
      nobody is broadcasting to its request at that moment. */
  lemma JoinBaseIff(origin: Origin, capacity: nat, events: seq<Event>, states: seq<State>, k: Key, m: nat)
    requires Run(origin, capacity, events, states) && JoinsAt(events, states, k, m)
    ensures var c := Group(states[m + 1], k)[|Group(states[m], k)|];
            c.delivered == "" && (c.base == 0 <==> !SomebodyBroadcasts(states[m], k))
  {
    RunInv(origin, capacity, events, states, m);
    var s, g := states[m], Group(states[m], k);
    assert KeyInv(origin, s, k) && Enabled(origin, s, events[m]);
    BroadcastPositive(origin(k), g, Lookup(s.cache, k));
    if Contains(s.cache, k) {
      assert forall i :: 0 <= i < |g| ==> Reader(g[i], Lookup(s.cache, k).value);
    }
    hide Lookup, GroupInv, UseEntry, DisuseEntry, Inv, Reader;
  }

  /** The record `f` is that of the client that joined at event `m` and was finished at event `l`. */
  ghost predicate Journey(events: seq<Event>, states: seq<State>, f: Finished, m: nat, l: nat) {
    && JoinsAt(events, states, f.key, m) && m < l < |events|
    && var place := Place(events, states, f.key, m, l);
       place.Some? && events[l].Writable? && events[l].key == f.key && events[l].i == place.value
       && Listed(states[l], f.key, place.value)
       && f.delivered == Group(states[l], f.key)[place.value].delivered
       && f.base == Group(states[l], f.key)[place.value].base
  }

  /** A record that an event adds is that of the client that it sends to. */
  lemma NewRecord(origin: Origin, s: State, e: Event, f: Finished)
    requires Enabled(origin, s, e) && f in Next(origin, s, e).finished && f !in s.finished
    ensures e.Writable? && e.key == f.key && Listed(s, f.key, e.i)
    ensures f.delivered == Group(s, f.key)[e.i].delivered && f.base == Group(s, f.key)[e.i].base
  {
    OwnStreams(origin, s, e);
    hide Next, AllContinue, AllButContinue, OneJoins;
  }

  /** Every record is that of a client that joined. */
  lemma {:induction false} RecordOfSomeone(origin: Origin, capacity: nat, events: seq<Event>, states: seq<State>,
                                           n: nat, f: Finished)
    returns (m: nat, l: nat)
    requires Run(origin, capacity, events, states) && n <= |events| && f in states[n].finished
    ensures m < l < n && Journey(events, states, f, m, l)
    decreases n
  {
    hide Enabled, Next, Place, JoinsAt;
    assert n > 0;
    var s, e := states[n - 1], events[n - 1];
    assert Enabled(origin, s, e) && states[n] == Next(origin, s, e);
    if f in s.finished {
      m, l := RecordOfSomeone(origin, capacity, events, states, n - 1, f);
    } else {
      NewRecord(origin, s, e, f);
      l := n - 1;
      m := EveryoneJoined(origin, capacity, events, states, f.key, l, e.i);
    }
  }

  /** Whoever is finished was sent the whole response if and only if, when it made its request, nobody was
      broadcasting to that request. Otherwise it was sent the rest from some later byte on. */
  lemma FinishedWholeIff(origin: Origin, capacity: nat, events: seq<Event>, states: seq<State>, n: nat, f: Finished)
    requires Run(origin, capacity, events, states) && n <= |events| && f in states[n].finished
    ensures exists m: nat, l: nat :: m < l < n && Journey(events, states, f, m, l)
    ensures forall m: nat, l: nat :: Journey(events, states, f, m, l) ==>
                             (f.delivered == origin(f.key) <==> !SomebodyBroadcasts(states[m], f.key))
  {
    var m0, l0 := RecordOfSomeone(origin, capacity, events, states, n, f);
    FinishedFromBase(origin, capacity, events, states, n, f);
    hide Run, Place, SomebodyBroadcasts;
    forall m: nat, l: nat | Journey(events, states, f, m, l)
      ensures f.delivered == origin(f.key) <==> !SomebodyBroadcasts(states[m], f.key)
    {
      PlaceContinues(origin, capacity, events, states, f.key, m, l);
      JoinBaseIff(origin, capacity, events, states, f.key, m);
    }
  }
}
