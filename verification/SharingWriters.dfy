/** Who writes an entry: how the connection is handed over, and exactly when the writer is lost. */
module SharingWriters {
  import opened Wrappers
  import opened CacheSpec
  import opened Sharing
  import opened SharingInvariant
  import opened SharingSteps
  import opened SharingTheorems

  ghost predicate IsWriter(g: seq<Client>, i: int) {
    0 <= i < |g| && g[i].phase == WaitingResponse
  }

  ghost predicate OthersAreReaders(g: seq<Client>, i: nat) {
    forall j :: 0 <= j < |g| && j != i ==> g[j].phase == GotResponse && g[j].readCache
  }

  lemma OnlyReadersRemain(g: seq<Client>, i: nat)
    requires i < |g| && OthersAreReaders(g, i)
    ensures forall r :: r in WithoutClient(g, i) ==> r.phase == GotResponse && r.readCache
  {
    var rest := WithoutClient(g, i);
    forall j | 0 <= j < |rest|
      ensures rest[j].phase == GotResponse && rest[j].readCache
    {
      CameFrom(g, i, j);
    }
  }

  /** The others all read the entry: one of them can take the connection if and only if one has none. */
  lemma ReaderFoundIff(g: seq<Client>, i: nat)
    requires i < |g| && OthersAreReaders(g, i)
    ensures FirstReader(WithoutClient(g, i)) >= 0 <==> OtherLacksConnection(g, i)
  {
    var rest := WithoutClient(g, i);
    var r := FirstReader(rest);
    if r >= 0 {
      CameFrom(g, i, r);
      assert g[if r < i then r else r + 1].server == None;
    }
    if OtherLacksConnection(g, i) {
      var j :| 0 <= j < |g| && j != i && g[j].server == None;
      StaysAt(g, i, j);
      assert IsReadingFromCache(rest[Shifted(j, i)]);
    }
  }

  lemma HandOverWriter(g: seq<Client>, i: nat)
    requires IsWriter(g, i) && OthersAreReaders(g, i)
    ensures HasWriter(AfterLeaving(g, i)) <==> OtherLacksConnection(g, i)
    ensures forall j :: IsWriter(AfterLeaving(g, i), j) ==>
                          AfterLeaving(g, i)[j].writeCache && AfterLeaving(g, i)[j].server == g[i].server
  {
    OnlyReadersRemain(g, i);
    ReaderFoundIff(g, i);
    hide WithoutClient, FirstReader, OtherLacksConnection, OthersAreReaders;
    var rest := WithoutClient(g, i);
    var r := FirstReader(rest);
    if r >= 0 {
      assert AfterLeaving(g, i)[r].phase == WaitingResponse;
    }
  }

  lemma WriterLeaves(origin: Origin, s: State, k: Key, i: nat)
    requires Inv(origin, s) && Contains(s.cache, k) && IsWriter(Group(s, k), i)
    ensures var e, g, t := Lookup(s.cache, k).value, Group(s, k), Discard(s, k, i);
            && !e.completed && HasWriter(g)
            && (HasWriter(Group(t, k)) <==> OtherLacksConnection(g, i))
            && (forall j :: IsWriter(Group(t, k), j) ==>
                              Group(t, k)[j].writeCache && Group(t, k)[j].server == Some(|e.buffer|))
            && Lookup(t.cache, k) == if |g| == 1 then None else Some(e.(inUse := e.inUse - 1))
  {
    assert KeyInv(origin, s, k);
    var g := Group(s, k);
    var e := Lookup(s.cache, k).value;
    assert Reader(g[i], e) && !e.completed && e.inUse == |g| && HasWriter(g);
    assert OthersAreReaders(g, i) by {
      assert forall j :: 0 <= j < |g| ==> Reader(g[j], e);
    }
    DisuseEffect(s.cache, k);
    hide DisuseEntry, Lookup, Reader, AfterLeaving, Inv, KeyInv;
    HandOverWriter(g, i);
    assert Group(Discard(s, k, i), k) == AfterLeaving(g, i);
  }

  /** When the writer of an entry leaves, its connection is taken over if and only if another client of the
      request has none; the new writer stands at the byte where the entry ends, and the entry keeps its bytes.
      It vanishes only with the last client of the request. */
  lemma WriterReplacedIff(origin: Origin, capacity: nat, events: seq<Event>, states: seq<State>, n: nat, k: Key, i: nat)
    requires Run(origin, capacity, events, states) && n < |events| && events[n] == Drop(k, i)
    requires Contains(states[n].cache, k) && IsWriter(Group(states[n], k), i)
    ensures var e, g, t := Lookup(states[n].cache, k).value, Group(states[n], k), states[n + 1];
            && (HasWriter(Group(t, k)) <==> OtherLacksConnection(g, i))
            && (forall j :: IsWriter(Group(t, k), j) ==>
                              Group(t, k)[j].writeCache && Group(t, k)[j].server == Some(|e.buffer|))
            && Lookup(t.cache, k) == if |g| == 1 then None else Some(e.(inUse := e.inUse - 1))
  {
    RunInv(origin, capacity, events, states, n);
    assert Enabled(origin, states[n], events[n]) && states[n + 1] == Discard(states[n], k, i);
    WriterLeaves(origin, states[n], k, i);
  }

  /** The event takes the writer of the entry of `k` away, and everyone else of the request holds a connection
      of his own. */
  ghost predicate LosesWriter(s: State, e: Event, k: Key) {
    && e.Drop? && e.key == k && Contains(s.cache, k)
    && IsWriter(Group(s, k), e.i) && !OtherLacksConnection(Group(s, k), e.i)
  }

  /** The entry that `k` has after `n` events has lost its writer. */
  ghost predicate WriterLost(events: seq<Event>, states: seq<State>, n: nat, k: Key)
    requires n <= |events| && |states| == |events| + 1
  {
    && n > 0 && Contains(states[n].cache, k)
    && (LosesWriter(states[n - 1], events[n - 1], k) || WriterLost(events, states, n - 1, k))
  }

  /** What a step that does not lose the writer of `k` does about it. */
  ghost predicate WriterKept(s: State, t: State, k: Key) {
    Contains(t.cache, k) && !Lookup(t.cache, k).value.completed ==>
      if Contains(s.cache, k) then
        !Lookup(s.cache, k).value.completed && (HasWriter(Group(t, k)) <==> HasWriter(Group(s, k)))
      else HasWriter(Group(t, k))
  }

  lemma SamePhases(g: seq<Client>, h: seq<Client>)
    requires |g| <= |h| && forall j :: 0 <= j < |h| ==> h[j].phase == if j < |g| then g[j].phase else GotResponse
    ensures HasWriter(h) <==> HasWriter(g)
  {
    if HasWriter(g) {
      var w :| 0 <= w < |g| && g[w].phase == WaitingResponse;
      assert h[w].phase == WaitingResponse;
    }
  }

  lemma SoundCache(origin: Origin, s: State)
    requires Inv(origin, s)
    ensures Sound(s.cache)
  {
  }

  lemma RequestWriter(origin: Origin, s: State, k: Key, connected: bool)
    requires Inv(origin, s) && s.newcomers > 0 && k != ""
    ensures WriterKept(s, ReadRequest(s, k, connected), k)
  {
    hide UseEntry, DisuseEntry, Inv, HasWriter, NEWCOMER, JoinBase;
    SoundCache(origin, s);
    UseEffect(s.cache, k);
    DisuseEffect(s.cache, k);
    hide Lookup;
    if Contains(s.cache, k) {
      SamePhases(Group(s, k), Group(s, k) + [Reading(NEWCOMER)]);
    }
  }

  lemma UnlistedWriter(origin: Origin, s: State, k: Key, i: nat)
    requires Inv(origin, s) && Listed(s, k, i) && Group(s, k)[i].phase in {SendingRequest, WaitingStatus}
    ensures Lookup(s.cache, k) == None
    ensures WriterKept(s, SendRequest(s, k, i), k) && WriterKept(s, StatusFailed(s, k, i), k)
    ensures forall chunk :: WriterKept(s, StatusOther(s, k, i, chunk), k)
    ensures forall reach :: WriterKept(s, PrepareSome(s, k, reach), k)
  {
    assert KeyInv(origin, s, k);
    FetchingGroup(origin(k), Group(s, k), Lookup(s.cache, k), i);
    DisuseEffect(s.cache, k);
    hide Lookup, DisuseEntry, AfterLeaving;
  }

  /** A step that leaves no entry. */
  lemma OtherWriter(origin: Origin, s: State, k: Key, i: nat, chunk: Bytes, reach: nat, again: nat)
    requires Inv(origin, s) && Listed(s, k, i) && Group(s, k)[i].phase == WaitingStatus
    ensures WriterKept(s, StatusFailing(s, k, i, again), k)
    ensures !IsOk(chunk) ==> WriterKept(s, ReadStatus(s, k, i, chunk, reach, again), k)
  {
    UnlistedWriter(origin, s, k, i);
    DisuseEffect(s.cache, k);
    hide Lookup, DisuseEntry, AfterLeaving, IsOk, Inv, AllReached, PrepareBefore, PrepareWaiting;
  }

  lemma StatusOkWriter(origin: Origin, s: State, k: Key, i: nat, chunk: Bytes, again: nat)
    requires Inv(origin, s) && Listed(s, k, i) && Group(s, k)[i].phase == WaitingStatus
    requires Receives(origin(k), Group(s, k)[i], chunk) && IsOk(chunk)
    ensures WriterKept(s, StatusOk(s, k, i, chunk, again), k)
  {
    if !FirstChunkFits(s, k, chunk) {
      StatusOkLost(origin, s, k, i, chunk, again);
      return;
    }
    UnlistedWriter(origin, s, k, i);
    FirstWrite(s, k, i, chunk);
    StatusOkShape(s, k, i, chunk, again);
    hide Lookup, WriteToCache, Inv, Receives, FirstChunkFits, IsOk, StatusOk, UseTimes;
    var g := Group(StatusOk(s, k, i, chunk, again), k);
    assert g[i].phase == WaitingResponse;
  }

  lemma ChunkWriter(origin: Origin, s: State, k: Key, i: nat, chunk: Bytes)
    requires Inv(origin, s) && Listed(s, k, i)
    requires Group(s, k)[i].phase == WaitingResponse && Receives(origin(k), Group(s, k)[i], chunk)
    ensures WriterKept(s, ReadChunk(s, k, i, chunk), k)
  {
    assert KeyInv(origin, s, k);
    var g := Group(s, k);
    if Contains(s.cache, k) {
      WriterFacts(origin(k), g, i, Lookup(s.cache, k).value);
      var s' := SetGroup(s, k, g[i := Advanced(g[i], |chunk|)]);
      WriteToCacheEffect(s', k, i, chunk);
      hide Lookup, WriteToCache, Write, Inv, AllFellBack;
      assert g[i := Advanced(g[i], |chunk|)][i].phase == WaitingResponse;
    } else {
      UncachedChunk(origin(k), g, i, chunk);
      hide Lookup, GroupInv, Inv;
    }
  }

  lemma EofWriter(origin: Origin, s: State, k: Key, i: nat)
    requires Inv(origin, s) && Listed(s, k, i)
    requires Group(s, k)[i].phase == WaitingResponse && Group(s, k)[i].server == Some(|origin(k)|)
    ensures WriterKept(s, ReadEof(s, k, i), k)
  {
    assert KeyInv(origin, s, k);
    if Contains(s.cache, k) {
      WriterFacts(origin(k), Group(s, k), i, Lookup(s.cache, k).value);
      CompleteEffect(s.cache, k);
    } else {
      UncachedEof(origin(k), Group(s, k), i);
    }
    hide Lookup, GroupInv, Inv, Complete;
  }

  lemma WriterRemains(g: seq<Client>, i: nat)
    requires i < |g| && g[i].phase != WaitingResponse
    ensures HasWriter(WithoutClient(g, i)) <==> HasWriter(g)
  {
    var rest := WithoutClient(g, i);
    if HasWriter(g) {
      var w :| 0 <= w < |g| && g[w].phase == WaitingResponse;
      StaysAt(g, i, w);
      assert rest[Shifted(w, i)].phase == WaitingResponse;
    }
    if HasWriter(rest) {
      var w :| 0 <= w < |rest| && rest[w].phase == WaitingResponse;
      CameFrom(g, i, w);
      assert g[if w < i then w else w + 1].phase == WaitingResponse;
    }
  }

  /** Somebody who is not writing leaves. */
  lemma ReaderLeaves(origin: Origin, s: State, k: Key, i: nat)
    requires Inv(origin, s) && Listed(s, k, i) && Group(s, k)[i].phase != WaitingResponse
    ensures WriterKept(s, Discard(s, k, i), k)
  {
    hide Lookup, DisuseEntry, WithoutClient, HasWriter;
    DisuseEffect(s.cache, k);
    WriterRemains(Group(s, k), i);
    assert Group(Discard(s, k, i), k) == WithoutClient(Group(s, k), i);
  }

  /** A client is done: nobody else's phase changes, and an entry that it read is complete. */
  lemma FinishWriter(origin: Origin, s: State, k: Key, i: nat)
    requires Inv(origin, s) && Listed(s, k, i)
    requires Lookup(s.cache, k) == None || Lookup(s.cache, k).value.completed
    ensures WriterKept(s, Finish(s, k, i), k)
  {
    DisuseEffect(s.cache, k);
    hide Lookup, DisuseEntry, AfterLeaving, Inv;
  }

  lemma SendCachedWriter(origin: Origin, s: State, k: Key, i: nat, n: nat)
    requires Inv(origin, s) && Listed(s, k, i) && Group(s, k)[i].readCache && n <= |Offered(s, k, i)|
    ensures WriterKept(s, SendCached(s, k, i, n), k)
  {
    hide Lookup, Touch, Inv, Sound, DisuseEntry, HandOver, FirstReader;
    SoundCache(origin, s);
    TouchEffect(s.cache, k);
    var t := s.(cache := Touch(s.cache, k));
    TouchKeeps(origin, s, k);
    TouchEffect(t.cache, k);
    if Contains(s.cache, k) && Lookup(s.cache, k).value.completed {
      FinishWriter(origin, t, k, i);
    }
    assert |HandOver(WithoutClient(Group(s, k), i), Group(s, k)[i].server)| == |Group(s, k)| - 1 by {
      HandOverLength(WithoutClient(Group(s, k), i), Group(s, k)[i].server);
    }
    SamePhasesAt(s, SendCached(s, k, i, n), k);
  }

  lemma HandOverLength(g: seq<Client>, connection: Option<nat>)
    ensures |HandOver(g, connection)| == |g|
  {
  }

  lemma TouchKeeps(origin: Origin, s: State, k: Key)
    requires Inv(origin, s)
    ensures Inv(origin, s.(cache := Touch(s.cache, k)))
  {
    var t := s.(cache := Touch(s.cache, k));
    TouchEffect(s.cache, k);
    hide Lookup, Touch, Sound, GroupInv;
    assert forall k' :: KeyInv(origin, s, k') ==> KeyInv(origin, t, k');
  }

  lemma SamePhasesAt(s: State, t: State, k: Key)
    requires |Group(s, k)| == |Group(t, k)|
             ==> forall j :: 0 <= j < |Group(s, k)| ==> Group(t, k)[j].phase == Group(s, k)[j].phase
    ensures |Group(s, k)| == |Group(t, k)| ==> (HasWriter(Group(t, k)) <==> HasWriter(Group(s, k)))
  {
    if |Group(s, k)| == |Group(t, k)| {
      SamePhases(Group(s, k), Group(t, k));
    }
  }

  lemma SendWriter(origin: Origin, s: State, k: Key, i: nat, room: nat)
    requires Inv(origin, s) && Listed(s, k, i)
    ensures WriterKept(s, Send(s, k, i, room), k)
  {
    assert KeyInv(origin, s, k);
    NotReading(origin(k), Group(s, k), Lookup(s.cache, k), i);
    if Group(s, k)[i].readCache {
      SendCachedWriter(origin, s, k, i, Min(room, |Offered(s, k, i)|));
    } else {
      DisuseEffect(s.cache, k);
      hide Lookup, DisuseEntry, AfterLeaving, GroupInv, Inv;
    }
  }

  lemma DropWriter(origin: Origin, s: State, k: Key, i: nat)
    requires Inv(origin, s) && Listed(s, k, i)
    ensures if LosesWriter(s, Drop(k, i), k) then !HasWriter(Group(Discard(s, k, i), k))
            else WriterKept(s, Discard(s, k, i), k)
  {
    assert KeyInv(origin, s, k);
    if Group(s, k)[i].phase != WaitingResponse {
      ReaderLeaves(origin, s, k, i);
    } else if Contains(s.cache, k) {
      WriterLeaves(origin, s, k, i);
    } else {
      DisuseEffect(s.cache, k);
    }
  }

  lemma WriterStep(origin: Origin, s: State, e: Event, k: Key)
    requires Inv(origin, s) && Enabled(origin, s, e)
    ensures if LosesWriter(s, e, k) then !HasWriter(Group(Next(origin, s, e), k))
            else WriterKept(s, Next(origin, s, e), k)
  {
    NextKeeps(origin, s, e);
    hide Inv, Receives, WriterKept, HasWriter, OtherLacksConnection;
    if k != About(e) {
      WriterElsewhere(s, Next(origin, s, e), k, About(e));
    } else {
      match e
      case Accept => NoEmptyKey(origin, s, Next(origin, s, e));
      case BadRequest => NoEmptyKey(origin, s, Next(origin, s, e));
      case Request(_, connected) => RequestWriter(origin, s, k, connected);
      case RequestSent(_, i) => UnlistedWriter(origin, s, k, i);
      case NoStatus(_, i, again) => OtherWriter(origin, s, k, i, "", 0, again);
      case Status(_, i, chunk, reach, again) =>
        if IsOk(chunk) {
          StatusOkWriter(origin, s, k, i, chunk, again);
        } else {
          OtherWriter(origin, s, k, i, chunk, reach, again);
        }
      case Chunk(_, i, chunk) => ChunkWriter(origin, s, k, i, chunk);
      case Eof(_, i) => EofWriter(origin, s, k, i);
      case Writable(_, i, room) => SendWriter(origin, s, k, i, room);
      case Drop(_, i) => DropWriter(origin, s, k, i);
    }
  }

  lemma WriterElsewhere(s: State, t: State, k: Key, other: Key)
    requires Elsewhere(s, t, other) && k != other
    ensures WriterKept(s, t, k)
  {
  }

  lemma NoEmptyKey(origin: Origin, s: State, t: State)
    requires Inv(origin, t)
    ensures WriterKept(s, t, "")
  {
  }

  /** On every run, at most one client of a request writes its entry, and none a complete one; an incomplete
      entry has a writer if and only if none was lost since the entry was created. */
  lemma {:induction false} SingleWriter(origin: Origin, capacity: nat, events: seq<Event>, states: seq<State>, n: nat,
                                        k: Key)
    requires Run(origin, capacity, events, states) && n <= |events| && Contains(states[n].cache, k)
    ensures OneWriter(Group(states[n], k))
    ensures var e := Lookup(states[n].cache, k).value;
            if e.completed then !HasWriter(Group(states[n], k))
            else HasWriter(Group(states[n], k)) <==> !WriterLost(events, states, n, k)
    decreases n
  {
    WriterFollows(origin, capacity, events, states, n, k);
    hide Run, LosesWriter, HasWriter, OneWriter;
    if n > 0 && Contains(states[n - 1].cache, k) {
      SingleWriter(origin, capacity, events, states, n - 1, k);
    }
  }

  /** What the last event of a run means for the writer. */
  lemma WriterFollows(origin: Origin, capacity: nat, events: seq<Event>, states: seq<State>, n: nat, k: Key)
    requires Run(origin, capacity, events, states) && n <= |events| && Contains(states[n].cache, k)
    ensures |states| == |events| + 1 && n > 0
    ensures OneWriter(Group(states[n], k))
            && (Lookup(states[n].cache, k).value.completed ==> !HasWriter(Group(states[n], k)))
    ensures if LosesWriter(states[n - 1], events[n - 1], k) then !HasWriter(Group(states[n], k))
            else WriterKept(states[n - 1], states[n], k)
  {
    RunInv(origin, capacity, events, states, n);
    assert KeyInv(origin, states[n], k);
    assert n > 0;
    RunInv(origin, capacity, events, states, n - 1);
    var s, e := states[n - 1], events[n - 1];
    assert Enabled(origin, s, e) && states[n] == Next(origin, s, e);
    hide Inv, Enabled, Next, LosesWriter, HasWriter, WriterKept;
    WriterStep(origin, s, e, k);
  }

  // ----- an entry that has lost its writer -----

  /** The entry of `k` is incomplete and nobody writes it. */
  ghost predicate Abandoned(s: State, k: Key) {
    Contains(s.cache, k) && !Lookup(s.cache, k).value.completed && !HasWriter(Group(s, k))
  }

  /** The entry of `k` is there with the same bytes and still incomplete, or it is gone. */
  ghost predicate SameOrGone(s: State, t: State, k: Key) {
    Contains(s.cache, k) && (Contains(t.cache, k) ==>
      && Lookup(t.cache, k).value.buffer == Lookup(s.cache, k).value.buffer
      && Lookup(t.cache, k).value.completed == Lookup(s.cache, k).value.completed)
  }

  lemma OnlyReaders(origin: Origin, s: State, k: Key, i: nat)
    requires Inv(origin, s) && Abandoned(s, k) && Listed(s, k, i)
    ensures Group(s, k)[i].phase == GotResponse && Group(s, k)[i].readCache
  {
    assert KeyInv(origin, s, k);
    assert Reader(Group(s, k)[i], Lookup(s.cache, k).value);
  }

  lemma AbandonedSend(origin: Origin, s: State, k: Key, i: nat, room: nat)
    requires Inv(origin, s) && Abandoned(s, k) && Listed(s, k, i)
    ensures SameOrGone(s, Send(s, k, i, room), k)
  {
    OnlyReaders(origin, s, k, i);
    SoundCache(origin, s);
    TouchEffect(s.cache, k);
    var t := s.(cache := Touch(s.cache, k));
    TouchEffect(t.cache, k);
    DisuseEffect(s.cache, k);
    DisuseEffect(t.cache, k);
    hide Lookup, Touch, DisuseEntry, AfterLeaving, Inv, Sound;
  }

  /** No event of its own request completes it or adds to it. */
  lemma AbandonedStep(origin: Origin, s: State, e: Event, k: Key)
    requires Inv(origin, s) && Enabled(origin, s, e) && Abandoned(s, k) && k == About(e)
    ensures SameOrGone(s, Next(origin, s, e), k)
  {
    if e.RequestSent? || e.NoStatus? || e.Status? || e.Chunk? || e.Eof? {
      OnlyReaders(origin, s, k, e.i);
      assert false;
    } else if e.Writable? {
      AbandonedSend(origin, s, k, e.i, e.room);
    } else {
      SoundCache(origin, s);
      UseEffect(s.cache, k);
      DisuseEffect(s.cache, k);
      hide Lookup, UseEntry, DisuseEntry, AfterLeaving, Inv, Sound, JoinBase, HasWriter;
    }
  }

  lemma AbandonedAfter(origin: Origin, s: State, e: Event, k: Key)
    requires Inv(origin, s) && Enabled(origin, s, e) && Abandoned(s, k)
    ensures SameOrGone(s, Next(origin, s, e), k)
  {
    NextKeeps(origin, s, e);
    hide Enabled, Next, Inv, HasWriter;
    if k == About(e) {
      AbandonedStep(origin, s, e, k);
    }
  }

  /** The event that takes the writer away leaves the entry incomplete. */
  lemma LostIncomplete(origin: Origin, s: State, e: Event, k: Key)
    requires Inv(origin, s) && Enabled(origin, s, e) && LosesWriter(s, e, k) && Contains(Next(origin, s, e).cache, k)
    ensures Abandoned(Next(origin, s, e), k)
  {
    WriterLeaves(origin, s, k, e.i);
    hide Inv, Lookup, DisuseEntry, AfterLeaving, OtherLacksConnection, HasWriter;
  }

  /** On every run, an entry that has lost its writer is incomplete. */
  lemma {:induction false} LostStays(origin: Origin, capacity: nat, events: seq<Event>, states: seq<State>, n: nat,
                                     k: Key)
    requires Run(origin, capacity, events, states) && n <= |events| && WriterLost(events, states, n, k)
    ensures Abandoned(states[n], k)
    decreases n
  {
    var s, e := states[n - 1], events[n - 1];
    RunInv(origin, capacity, events, states, n - 1);
    assert Enabled(origin, s, e) && states[n] == Next(origin, s, e);
    hide Run, Inv, Enabled, Next, LosesWriter, HasWriter;
    if LosesWriter(s, e, k) {
      LostIncomplete(origin, s, e, k);
    } else {
      LostStays(origin, capacity, events, states, n - 1, k);
      AbandonedAfter(origin, s, e, k);
      SingleWriter(origin, capacity, events, states, n, k);
    }
  }

  /** Once an entry has lost its writer, nobody ever completes it or adds a byte to it, as long as it is there. */
  lemma {:induction false} NeverCompleted(origin: Origin, capacity: nat, events: seq<Event>, states: seq<State>, n: nat,
                                          m: nat, k: Key)
    requires Run(origin, capacity, events, states) && n <= m <= |events| && WriterLost(events, states, n, k)
    requires forall j :: n <= j <= m ==> Contains(states[j].cache, k)
    ensures WriterLost(events, states, m, k) && !HasWriter(Group(states[m], k))
    ensures !Lookup(states[m].cache, k).value.completed
    ensures Lookup(states[m].cache, k).value.buffer == Lookup(states[n].cache, k).value.buffer
    decreases m
  {
    hide Run, Inv, Enabled, Next, LosesWriter, HasWriter, SameOrGone, Abandoned;
    RunLength(origin, capacity, events, states);
    if n < m {
      NeverCompleted(origin, capacity, events, states, n, m - 1, k);
      LostStays(origin, capacity, events, states, m - 1, k);
      AbandonedNext(origin, capacity, events, states, m - 1, k);
    }
    LostStays(origin, capacity, events, states, m, k);
    ShowsAbandoned(states[m], k);
  }

  lemma RunLength(origin: Origin, capacity: nat, events: seq<Event>, states: seq<State>)
    requires Run(origin, capacity, events, states)
    ensures |states| == |events| + 1
  {
  }

  lemma ShowsAbandoned(s: State, k: Key)
    requires Abandoned(s, k)
    ensures Contains(s.cache, k) && !Lookup(s.cache, k).value.completed && !HasWriter(Group(s, k))
  {
  }

  lemma AbandonedNext(origin: Origin, capacity: nat, events: seq<Event>, states: seq<State>, n: nat, k: Key)
    requires Run(origin, capacity, events, states) && n < |events|
    requires Abandoned(states[n], k) && Contains(states[n + 1].cache, k)
    ensures Lookup(states[n + 1].cache, k).value.buffer == Lookup(states[n].cache, k).value.buffer
  {
    RunInv(origin, capacity, events, states, n);
    assert Enabled(origin, states[n], events[n]) && states[n + 1] == Next(origin, states[n], events[n]);
    hide Run, Inv, Enabled, Next, Abandoned;
    AbandonedAfter(origin, states[n], events[n], k);
  }
}
