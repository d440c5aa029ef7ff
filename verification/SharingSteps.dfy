/** Every event keeps the invariant. */
module SharingSteps {
  import opened Wrappers
  import opened CacheSpec
  import opened Sharing
  import opened SharingInvariant
  import CP = CacheProperties

  // ----- what the cache calls do to one key -----

  ghost function Disused(e: Option<Entry>): Option<Entry> {
    match e
    case None => None
    case Some(e) => if e.inUse == 1 && !e.completed then None else Some(e.(inUse := e.inUse - 1))
  }

  ghost predicate SameElsewhere(s: Store, t: Store, k: Key) {
    forall k' :: k' != k ==> Lookup(t, k') == Lookup(s, k')
  }

  lemma DisuseEffect(s: Store, k: Key)
    requires Sound(s)
    ensures var t := DisuseEntry(s, k);
            Sound(t) && Lookup(t, k) == Disused(Lookup(s, k)) && SameElsewhere(s, t, k) && t.max == s.max
  {
    CP.ApplyEffect(s, CP.Disuse(k));
  }

  lemma UseEffect(s: Store, k: Key)
    requires Sound(s)
    ensures var t := UseEntry(s, k);
            && Sound(t) && SameElsewhere(s, t, k) && t.max == s.max
            && Lookup(t, k) == Some(match Lookup(s, k)
                                    case None => FRESH_ENTRY
                                    case Some(e) => e.(inUse := e.inUse + 1))
  {
    CP.ApplyEffect(s, CP.Use(k));
  }

  lemma TouchEffect(s: Store, k: Key)
    requires Sound(s)
    ensures var t := Touch(s, k);
            Sound(t) && Lookup(t, k) == Lookup(s, k) && SameElsewhere(s, t, k) && t.max == s.max
  {
    CP.ApplyEffect(s, CP.Get(k));
  }

  lemma CompleteEffect(s: Store, k: Key)
    requires Sound(s) && Contains(s, k)
    ensures var t := Complete(s, k);
            && Sound(t) && SameElsewhere(s, t, k)
            && Lookup(t, k) == Some(Lookup(s, k).value.(completed := true))
  {
    CP.ApplyEffect(s, CP.Finish(k));
  }

  lemma {:induction false} UseTimesEffect(s: Store, k: Key, n: nat)
    requires Sound(s) && Contains(s, k)
    ensures var t := UseTimes(s, k, n);
            && Sound(t) && SameElsewhere(s, t, k)
            && Lookup(t, k) == Some(Lookup(s, k).value.(inUse := Lookup(s, k).value.inUse + n))
  {
    hide UseEntry, Lookup, Sound;
    if n > 0 {
      UseTimesEffect(s, k, n - 1);
      UseEffect(UseTimes(s, k, n - 1), k);
    }
  }

  // ----- a client leaves -----

  /** Where client `j` is once client `i` has left. */
  ghost function Shifted(j: nat, i: nat): nat
    requires j != i
  {
    if j < i then j else j - 1
  }

  lemma StaysAt(g: seq<Client>, i: nat, j: nat)
    requires i < |g| && j < |g| && j != i
    ensures WithoutClient(g, i)[Shifted(j, i)] == g[j]
  {
  }

  lemma CameFrom(g: seq<Client>, i: nat, j: nat)
    requires i < |g| && j < |g| - 1
    ensures WithoutClient(g, i)[j] == g[if j < i then j else j + 1]
  {
  }

  lemma ReadersLeft(resp: Bytes, g: seq<Client>, i: nat, e: Entry)
    requires Cached(resp, g, e) && i < |g|
    ensures GroupInv(resp, AfterLeaving(g, i), Disused(Some(e)))
  {
    var rest := WithoutClient(g, i);
    assert forall j :: 0 <= j < |rest| ==> rest[j] == g[if j < i then j else j + 1];
    if |g| == 1 {
      assert rest == [];
    } else if g[i].phase == WaitingResponse {
      WriterLeft(resp, g, i, e);
    } else if HasWriter(g) {
      var w :| 0 <= w < |g| && g[w].phase == WaitingResponse;
      assert rest[if w < i then w else w - 1] == g[w];
    }
  }

  lemma ReadersRemain(resp: Bytes, g: seq<Client>, i: nat, e: Entry)
    requires Cached(resp, g, e) && i < |g| && g[i].phase == WaitingResponse
    ensures forall c :: c in WithoutClient(g, i) ==> Reader(c, e) && c.phase == GotResponse
    ensures g[i].server == Some(|e.buffer|) && !e.completed
  {
    var rest := WithoutClient(g, i);
    assert Reader(g[i], e);
    forall j | 0 <= j < |rest|
      ensures Reader(rest[j], e) && rest[j].phase == GotResponse
    {
      CameFrom(g, i, j);
      assert Reader(g[if j < i then j else j + 1], e);
    }
  }

  /** The writer leaves: the connection goes to the first reader without one, at the very byte where the
      entry ends. */
  lemma WriterLeft(resp: Bytes, g: seq<Client>, i: nat, e: Entry)
    requires Cached(resp, g, e) && i < |g| && |g| > 1 && g[i].phase == WaitingResponse
    ensures Cached(resp, AfterLeaving(g, i), e.(inUse := e.inUse - 1))
  {
    ReadersRemain(resp, g, i, e);
    var rest := WithoutClient(g, i);
    assert |rest| == |g| - 1;
    hide WithoutClient, FirstReader;
    assert forall j :: 0 <= j < |rest| ==> rest[j] in rest;
    var h := AfterLeaving(g, i);
    var r := FirstReader(rest);
    assert h == if r < 0 then rest else rest[r := Obtained(rest[r], g[i].server)];
    hide AfterLeaving;
    assert forall j :: 0 <= j < |h| ==>
                         Reader(h[j], e.(inUse := e.inUse - 1)) && (h[j].phase == WaitingResponse ==> j == r);
  }

  lemma NoHandover(g: seq<Client>, i: nat)
    requires i < |g| && forall j :: 0 <= j < |g| ==> !g[j].readCache
    ensures AfterLeaving(g, i) == WithoutClient(g, i)
  {
    var rest := WithoutClient(g, i);
    assert forall j :: 0 <= j < |rest| ==> rest[j] == g[if j < i then j else j + 1];
    assert FirstReader(rest) == -1;
  }

  lemma FedLeft(resp: Bytes, g: seq<Client>, i: nat)
    requires i < |g| && GroupInv(resp, g, None)
    ensures GroupInv(resp, AfterLeaving(g, i), None)
  {
    var rest := WithoutClient(g, i);
    NoHandover(g, i);
    hide Fetching, Fed, Alone, Reached, AfterLeaving;
    assert forall j :: 0 <= j < |rest| ==> rest[j] == g[if j < i then j else j + 1];
  }

  lemma GroupLeft(resp: Bytes, g: seq<Client>, i: nat, e: Option<Entry>)
    requires GroupInv(resp, g, e) && i < |g|
    ensures GroupInv(resp, AfterLeaving(g, i), Disused(e))
  {
    match e
    case Some(entry) => ReadersLeft(resp, g, i, entry);
    case None => FedLeft(resp, g, i);
  }

  lemma DiscardKeeps(origin: Origin, s: State, k: Key, i: nat)
    requires Inv(origin, s) && Listed(s, k, i)
    ensures Inv(origin, Discard(s, k, i)) && Elsewhere(s, Discard(s, k, i), k)
  {
    hide Lookup, Sound, DisuseEntry, GroupInv, AfterLeaving;
    assert KeyInv(origin, s, k);
    DisuseEffect(s.cache, k);
    GroupLeft(origin(k), Group(s, k), i, Lookup(s.cache, k));
    StepOn(origin, s, Discard(s, k, i), k);
  }

  // ----- a newcomer -----

  lemma DiscardFreshKeeps(origin: Origin, s: State, k: Key)
    requires Inv(origin, s) && s.newcomers > 0 && Lookup(s.cache, k) == None
    ensures Inv(origin, DiscardFresh(s, k)) && Elsewhere(s, DiscardFresh(s, k), k)
  {
    var t := DiscardFresh(s, k);
    DisuseEffect(s.cache, k);
    forall k'
      ensures KeyInv(origin, t, k')
    {
      assert KeyInv(origin, s, k');
    }
  }

  lemma JoinReaders(resp: Bytes, g: seq<Client>, e: Entry)
    requires Cached(resp, g, e)
    ensures Cached(resp, g + [Reading(NEWCOMER)], e.(inUse := e.inUse + 1))
  {
    var h := g + [Reading(NEWCOMER)];
    if HasWriter(g) {
      var w :| 0 <= w < |g| && g[w].phase == WaitingResponse;
      assert h[w].phase == WaitingResponse;
    }
  }

  lemma JoinFetching(g: seq<Client>)
    requires forall i :: 0 <= i < |g| ==> !IsBroadcasting(g[i])
    ensures Fetching(NEWCOMER.(phase := WaitingForAnother, base := JoinBase(g)))
  {
  }

  lemma JoinBroadcast(resp: Bytes, g: seq<Client>)
    requires Broadcast(resp, g)
    ensures var h := g + [NEWCOMER.(phase := WaitingForAnother, base := JoinBase(g))];
            Broadcast(resp, h) || Gathering(h)
  {
    var c := NEWCOMER.(phase := WaitingForAnother, base := JoinBase(g));
    assert Stream(c) == "" && Faithful(resp, c) && Reached(c) == JoinBase(g);
    hide Faithful, Stream, Reached;
    assert Fed(resp, c);
  }

  lemma JoinWaiting(resp: Bytes, g: seq<Client>)
    requires GroupInv(resp, g, None)
    ensures GroupInv(resp, g + [NEWCOMER.(phase := WaitingForAnother, base := JoinBase(g))], None)
  {
    hide Fetching, Fed, Alone, JoinBase, IsOk;
    if Gathering(g) || !IsOk(resp) {
      NobodyBroadcasts(resp, g);
      JoinFetching(g);
    } else {
      JoinBroadcast(resp, g);
    }
  }

  lemma NobodyBroadcasts(resp: Bytes, g: seq<Client>)
    requires Gathering(g) || Private(resp, g)
    ensures forall i :: 0 <= i < |g| ==> !IsBroadcasting(g[i])
  {
  }

  lemma RequestKeeps(origin: Origin, s: State, k: Key, connected: bool)
    requires Inv(origin, s) && s.newcomers > 0 && k != ""
    ensures Inv(origin, ReadRequest(s, k, connected)) && Elsewhere(s, ReadRequest(s, k, connected), k)
  {
    hide UseEntry, Lookup, Sound, DisuseEntry, Cached;
    assert KeyInv(origin, s, k);
    var g, t := Group(s, k), ReadRequest(s, k, connected);
    if Contains(s.cache, k) {
      UseEffect(s.cache, k);
      JoinReaders(origin(k), g, Lookup(s.cache, k).value);
      StepOn(origin, s, t, k);
    } else if g != [] {
      JoinWaiting(origin(k), g);
      StepOn(origin, s, t, k);
    } else if connected {
      assert Fetching(Prepared(NEWCOMER));
      StepOn(origin, s, t, k);
    } else {
      DiscardFreshKeeps(origin, s, k);
    }
  }

  // ----- sending the request, and failing to read the status -----

  lemma FetchingGroup(resp: Bytes, g: seq<Client>, e: Option<Entry>, i: nat)
    requires GroupInv(resp, g, e) && i < |g|
    requires g[i].phase in {SendingRequest, WaitingStatus}
    ensures e == None && Fetching(g[i])
    ensures if IsOk(resp) then Gathering(g) else Private(resp, g)
  {
  }

  lemma RequestSentKeeps(origin: Origin, s: State, k: Key, i: nat)
    requires Inv(origin, s) && Listed(s, k, i) && Group(s, k)[i].phase == SendingRequest
    ensures Inv(origin, SendRequest(s, k, i)) && Elsewhere(s, SendRequest(s, k, i), k)
  {
    assert KeyInv(origin, s, k);
    FetchingGroup(origin(k), Group(s, k), Lookup(s.cache, k), i);
    StepOn(origin, s, SendRequest(s, k, i), k);
  }

  lemma NoStatusKeeps(origin: Origin, s: State, k: Key, i: nat)
    requires Inv(origin, s) && Listed(s, k, i) && Group(s, k)[i].phase == WaitingStatus
    ensures Inv(origin, StatusFailed(s, k, i)) && Elsewhere(s, StatusFailed(s, k, i), k)
  {
    assert KeyInv(origin, s, k);
    FetchingGroup(origin(k), Group(s, k), Lookup(s.cache, k), i);
    var t := SetGroup(s, k, PrepareWaiting(Group(s, k)));
    StepOn(origin, s, t, k);
    DiscardKeeps(origin, t, k, i);
  }

  /** No status, whoever can be connected. */
  lemma StatusFailingKeeps(origin: Origin, s: State, k: Key, i: nat, again: nat)
    requires Inv(origin, s) && Listed(s, k, i) && Group(s, k)[i].phase == WaitingStatus
    ensures Inv(origin, StatusFailing(s, k, i, again)) && Elsewhere(s, StatusFailing(s, k, i, again), k)
  {
    hide Inv, Elsewhere, StatusFailed, PrepareSome;
    if AllReached(Group(s, k), again) {
      NoStatusKeeps(origin, s, k, i);
    } else {
      UnreachableKeeps(origin, s, k, i, again);
    }
  }

  lemma UnreachableKeeps(origin: Origin, s: State, k: Key, i: nat, reach: nat)
    requires Inv(origin, s) && Listed(s, k, i) && Group(s, k)[i].phase == WaitingStatus
    ensures Inv(origin, PrepareSome(s, k, reach)) && Elsewhere(s, PrepareSome(s, k, reach), k)
  {
    hide Lookup, Sound, Receives;
    assert KeyInv(origin, s, k);
    FetchingGroup(origin(k), Group(s, k), Lookup(s.cache, k), i);
    StepOn(origin, s, PrepareSome(s, k, reach), k);
  }

  // ----- the fallback -----

  lemma FallbackRound(cache: Store, k: Key)
    requires Sound(cache)
    ensures var t := DisuseEntry(Touch(cache, k), k);
            Sound(t) && Lookup(t, k) == Disused(Lookup(cache, k)) && SameElsewhere(cache, t, k) && t.max == cache.max
  {
    hide Lookup, Sound, Touch, DisuseEntry;
    TouchEffect(cache, k);
    DisuseEffect(Touch(cache, k), k);
  }

  /** The loop reaches every client if and only if the entry counts at least as many users as there are
      clients; the entry is dropped by the last user it counts. */
  lemma {:induction false} FallbackLoopEffect(g: seq<Client>, j: nat, cache: Store, k: Key, chunk: Bytes)
    requires j <= |g| && Sound(cache) && Contains(cache, k)
    requires var e := Lookup(cache, k).value; e.inUse >= 1 && !e.completed
    ensures var e := Lookup(cache, k).value;
            var (h, t, ok) := FallbackLoop(g, j, cache, k, chunk);
            && Sound(t) && SameElsewhere(cache, t, k) && t.max == cache.max
            && (ok <==> |g| - j <= e.inUse)
            && (Contains(t, k) <==> |g| - j < e.inUse)
            && (ok ==> forall n :: 0 <= n < |g| ==>
                                     h[n] == if n < j then g[n] else FellBack(g[n], e.buffer, chunk))
    decreases |g| - j
  {
    hide Sound, Touch, DisuseEntry;
    if j < |g| {
      var e := Lookup(cache, k).value;
      var g' := g[j := FellBack(g[j], e.buffer, chunk)];
      var t := DisuseEntry(Touch(cache, k), k);
      FallbackRound(cache, k);
      if e.inUse > 1 {
        FallbackLoopEffect(g', j + 1, t, k, chunk);
      }
    }
  }

  /** Falling back keeps a reader's stream and extends it by the new chunk. */
  lemma FellBackStream(c: Client, buffer: Bytes, chunk: Bytes)
    requires c.chunks == [] && c.sent == |c.delivered| && c.delivered <= buffer
    ensures Stream(FellBack(c, buffer, chunk)) == buffer + chunk
  {
    FlatOne(chunk);
    if c.sent < |buffer| {
      FlatOne(buffer[c.sent..]);
      FlatAppend([buffer[c.sent..]], [chunk]);
      assert c.chunks + [buffer[c.sent..]] + [chunk] == [buffer[c.sent..]] + [chunk];
      assert buffer == c.delivered + buffer[c.sent..];
    } else {
      assert buffer == c.delivered;
      assert c.chunks + [] + [chunk] == [chunk];
    }
  }

  // ----- a chunk of the response -----

  lemma QueuedFaithful(resp: Bytes, c: Client, chunk: Bytes)
    requires Faithful(resp, c) && Reached(c) + |chunk| <= |resp|
    requires chunk == resp[Reached(c)..Reached(c) + |chunk|]
    ensures Faithful(resp, Queued(c, chunk)) && Reached(Queued(c, chunk)) == Reached(c) + |chunk|
  {
    FlatAppend(c.chunks, [chunk]);
    FlatOne(chunk);
    hide Flat;
    assert Stream(Queued(c, chunk)) == Stream(c) + chunk;
    assert resp[c.base..Reached(c)] + resp[Reached(c)..Reached(c) + |chunk|] == resp[c.base..Reached(c) + |chunk|];
  }

  lemma WriterReads(resp: Bytes, g: seq<Client>, i: nat, e: Entry, chunk: Bytes)
    requires Cached(resp, g, e) && i < |g| && g[i].phase == WaitingResponse
    requires Receives(resp, g[i], chunk)
    ensures Cached(resp, g[i := Advanced(g[i], |chunk|)], e.(buffer := e.buffer + chunk))
  {
    var h := g[i := Advanced(g[i], |chunk|)];
    assert e.buffer + chunk <= resp;
    assert h[i].phase == WaitingResponse;
  }

  ghost predicate AllFellBack(h: seq<Client>, g: seq<Client>, i: nat, buffer: Bytes, chunk: Bytes) {
    && |h| == |g| && i < |g|
    && forall n :: 0 <= n < |g| ==>
                     h[n] == if n == i then Broadcaster(FellBack(g[n], buffer, chunk))
                             else FellBack(g[n], buffer, chunk)
  }

  /** A group that falls back becomes a broadcast: every stream reaches the end of the new chunk. */
  lemma GroupFellBack(resp: Bytes, g: seq<Client>, i: nat, buffer: Bytes, chunk: Bytes, h: seq<Client>)
    requires AllFellBack(h, g, i, buffer, chunk)
    requires chunk != "" && buffer + chunk <= resp
    requires g[i].server == Some(|buffer| + |chunk|)
    requires forall n :: 0 <= n < |g| ==>
                           && g[n].chunks == [] && g[n].base == 0
                           && g[n].sent == |g[n].delivered| && g[n].delivered <= buffer
    ensures Broadcast(resp, h)
  {
    forall n | 0 <= n < |g|
      ensures Fed(resp, h[n]) && Reached(h[n]) == |buffer| + |chunk|
      ensures h[n].phase == if n == i then WaitingResponse else GettingFromAnother
    {
      FellBackStream(g[n], buffer, chunk);
      assert Stream(h[n]) == Stream(FellBack(g[n], buffer, chunk));
    }
  }

  /** Outcome of a write to the entry of `k`, which is in use. */
  lemma UsedWrite(s: Store, k: Key, chunk: Bytes)
    requires Sound(s) && Contains(s, k) && Lookup(s, k).value.inUse != 0
    ensures var (t, status) := Write(s, k, chunk);
            && Sound(t) && t.max == s.max && status != KeyNotFound
            && (var e := Lookup(s, k).value;
                Lookup(t, k) == Some(if status == Ok then e.(buffer := e.buffer + chunk) else e))
            && forall k' :: k' != k ==>
                              Lookup(t, k') == Lookup(s, k')
                              || (Lookup(t, k') == None && Lookup(s, k').value.inUse == 0)
  {
    hide FreeSpace, AppendTo, Lookup;
    CP.WriteEffect(s, k, chunk);
    CP.WriteInUse(s, k, chunk);
  }

  /** A fallback in which the entry counts every client of the request. */
  lemma FallbackEffect(s: State, k: Key, i: nat, chunk: Bytes)
    requires Sound(s.cache) && Listed(s, k, i) && Contains(s.cache, k)
    requires var e := Lookup(s.cache, k).value; !e.completed && e.inUse == |Group(s, k)|
    ensures var (t, ok) := Fallback(s, k, i, chunk);
            && ok && Sound(t.cache) && SameElsewhere(s.cache, t.cache, k)
            && t.finished == s.finished
            && (forall k' :: k' != k ==> Group(t, k') == Group(s, k'))
            && AllFellBack(Group(t, k), Group(s, k), i, Lookup(s.cache, k).value.buffer, chunk)
            && Lookup(t.cache, k) == None
  {
    FallbackLoopEffect(Group(s, k), 0, s.cache, k, chunk);
    hide Lookup, Sound, FellBack, Broadcaster, FallbackLoop;
  }

  /** What a write to a used entry does to the server: it appends, or every client falls back. */
  lemma WriteToCacheEffect(s: State, k: Key, i: nat, chunk: Bytes)
    requires Sound(s.cache) && Listed(s, k, i) && Contains(s.cache, k)
    requires var e := Lookup(s.cache, k).value; !e.completed && e.inUse >= 1
    requires Lookup(s.cache, k).value.inUse == |Group(s, k)| || Write(s.cache, k, chunk).1 != AllInUse
    ensures var e := Lookup(s.cache, k).value;
            var (t, ok) := WriteToCache(s, k, i, chunk);
            && ok && Sound(t.cache) && Elsewhere(s, t, k) && t.finished == s.finished
            && if Write(s.cache, k, chunk).1 == Ok
               then Group(t, k) == Group(s, k) && Lookup(t.cache, k) == Some(e.(buffer := e.buffer + chunk))
               else AllFellBack(Group(t, k), Group(s, k), i, e.buffer, chunk) && Lookup(t.cache, k) == None
  {
    hide Lookup, Sound, Write, Fallback, AllFellBack;
    UsedWrite(s.cache, k, chunk);
    var (cache, status) := Write(s.cache, k, chunk);
    if status == AllInUse {
      FallbackEffect(s.(cache := cache), k, i, chunk);
    }
  }

  lemma WriterFacts(resp: Bytes, g: seq<Client>, i: nat, e: Entry)
    requires Cached(resp, g, e) && i < |g| && g[i].phase == WaitingResponse
    ensures g[i].writeCache && !e.completed && e.inUse == |g|
  {
  }

  lemma WriterFallsBack(resp: Bytes, g: seq<Client>, i: nat, e: Entry, chunk: Bytes, h: seq<Client>)
    requires Cached(resp, g, e) && i < |g| && g[i].phase == WaitingResponse
    requires Receives(resp, g[i], chunk)
    requires AllFellBack(h, g[i := Advanced(g[i], |chunk|)], i, e.buffer, chunk)
    ensures GroupInv(resp, h, None)
  {
    assert e.buffer + chunk <= resp;
    GroupFellBack(resp, g[i := Advanced(g[i], |chunk|)], i, e.buffer, chunk, h);
  }

  lemma WriterChunkKeeps(origin: Origin, s: State, k: Key, i: nat, chunk: Bytes)
    requires Inv(origin, s) && Listed(s, k, i) && Contains(s.cache, k)
    requires Group(s, k)[i].phase == WaitingResponse && Receives(origin(k), Group(s, k)[i], chunk)
    ensures Inv(origin, ReadChunk(s, k, i, chunk)) && Elsewhere(s, ReadChunk(s, k, i, chunk), k)
  {
    hide Lookup, Sound, WriteToCache, Write, Cached, Receives, AllFellBack;
    assert KeyInv(origin, s, k);
    var g, e := Group(s, k), Lookup(s.cache, k).value;
    WriterFacts(origin(k), g, i, e);
    var s' := SetGroup(s, k, g[i := Advanced(g[i], |chunk|)]);
    WriterReads(origin(k), g, i, e, chunk);
    WriteToCacheEffect(s', k, i, chunk);
    var t := WriteToCache(s', k, i, chunk).0;
    if Write(s.cache, k, chunk).1 != Ok {
      WriterFallsBack(origin(k), g, i, e, chunk, Group(t, k));
    }
    StepOn(origin, s, t, k);
  }

  lemma BroadcastChunk(resp: Bytes, g: seq<Client>, i: nat, chunk: Bytes)
    requires Broadcast(resp, g) && i < |g| && g[i].phase == WaitingResponse
    requires Receives(resp, g[i], chunk)
    ensures Broadcast(resp, QueueAll(g[i := Advanced(g[i], |chunk|)], chunk))
  {
    var p := g[i].server.value;
    var h := QueueAll(g[i := Advanced(g[i], |chunk|)], chunk);
    forall n | 0 <= n < |g|
      ensures Fed(resp, h[n]) && Reached(h[n]) == p + |chunk|
      ensures h[n].phase == g[n].phase
    {
      assert Reached(g[n]) == p;
      QueuedFaithful(resp, g[n], chunk);
      assert Stream(h[n]) == Stream(Queued(g[n], chunk));
    }
  }

  lemma AloneChunk(resp: Bytes, g: seq<Client>, i: nat, chunk: Bytes)
    requires Private(resp, g) && i < |g| && g[i].phase == WaitingResponse
    requires Receives(resp, g[i], chunk)
    ensures Private(resp, g[i := Queued(Advanced(g[i], |chunk|), chunk)])
  {
    QueuedFaithful(resp, g[i], chunk);
    assert Stream(Queued(Advanced(g[i], |chunk|), chunk)) == Stream(Queued(g[i], chunk));
  }

  lemma UncachedChunk(resp: Bytes, g: seq<Client>, i: nat, chunk: Bytes)
    requires GroupInv(resp, g, None) && i < |g| && g[i].phase == WaitingResponse
    requires Receives(resp, g[i], chunk)
    ensures !g[i].writeCache
    ensures var c := Advanced(g[i], |chunk|);
            GroupInv(resp, if c.writeAll then QueueAll(g[i := c], chunk) else g[i := Queued(c, chunk)], None)
  {
    if IsOk(resp) {
      assert Broadcast(resp, g);
      BroadcastChunk(resp, g, i, chunk);
    } else {
      AloneChunk(resp, g, i, chunk);
    }
  }

  lemma ChunkKeeps(origin: Origin, s: State, k: Key, i: nat, chunk: Bytes)
    requires Inv(origin, s) && Listed(s, k, i)
    requires Group(s, k)[i].phase == WaitingResponse && Receives(origin(k), Group(s, k)[i], chunk)
    ensures Inv(origin, ReadChunk(s, k, i, chunk)) && Elsewhere(s, ReadChunk(s, k, i, chunk), k)
  {
    hide Lookup, Sound, WriteToCache, GroupInv, Receives;
    if Contains(s.cache, k) {
      WriterChunkKeeps(origin, s, k, i, chunk);
    } else {
      assert KeyInv(origin, s, k);
      UncachedChunk(origin(k), Group(s, k), i, chunk);
      StepOn(origin, s, ReadChunk(s, k, i, chunk), k);
    }
  }

  // ----- the end of the response -----

  lemma WriterEof(resp: Bytes, g: seq<Client>, i: nat, e: Entry)
    requires Cached(resp, g, e) && i < |g| && g[i].phase == WaitingResponse
    requires g[i].server == Some(|resp|)
    ensures Cached(resp, g[i := g[i].(phase := GotResponse)], e.(completed := true))
  {
    assert e.buffer == resp;
    var h := g[i := g[i].(phase := GotResponse)];
    assert !HasWriter(h);
  }

  lemma UncachedEof(resp: Bytes, g: seq<Client>, i: nat)
    requires GroupInv(resp, g, None) && i < |g| && g[i].phase == WaitingResponse
    requires g[i].server == Some(|resp|)
    ensures !g[i].writeCache
    ensures var h := g[i := g[i].(phase := GotResponse)];
            GroupInv(resp, if g[i].writeAll then AllGotResponse(h) else h, None)
  {
    if IsOk(resp) {
      assert Broadcast(resp, g);
      var h := AllGotResponse(g[i := g[i].(phase := GotResponse)]);
      forall n | 0 <= n < |g|
        ensures Fed(resp, h[n])
      {
        assert Reached(g[n]) == |resp|;
        assert Stream(h[n]) == Stream(g[n]);
      }
    } else {
      assert Stream(g[i].(phase := GotResponse)) == Stream(g[i]);
    }
  }

  lemma EofKeeps(origin: Origin, s: State, k: Key, i: nat)
    requires Inv(origin, s) && Listed(s, k, i)
    requires Group(s, k)[i].phase == WaitingResponse && Group(s, k)[i].server == Some(|origin(k)|)
    ensures Inv(origin, ReadEof(s, k, i)) && Elsewhere(s, ReadEof(s, k, i), k)
  {
    hide Lookup, Sound, Complete, Cached;
    assert KeyInv(origin, s, k);
    var g := Group(s, k);
    if Contains(s.cache, k) {
      CompleteEffect(s.cache, k);
      WriterFacts(origin(k), g, i, Lookup(s.cache, k).value);
      WriterEof(origin(k), g, i, Lookup(s.cache, k).value);
    } else {
      UncachedEof(origin(k), g, i);
    }
    StepOn(origin, s, ReadEof(s, k, i), k);
  }

  // ----- sending to the client -----

  /** Sending moves bytes from the queue to the client and keeps the stream. */
  lemma SentStream(c: Client, n: nat)
    requires c.chunks != [] && n <= |c.chunks[0]|
    ensures var rest := if n == |c.chunks[0]| then [] else [c.chunks[0][n..]];
            Stream(Sent(c, c.chunks[0][..n]).(chunks := rest + c.chunks[1..])) == Stream(c)
  {
    var first := c.chunks[0];
    var rest := if n == |first| then [] else [first[n..]];
    FlatAppend(rest, c.chunks[1..]);
    if n < |first| {
      FlatOne(first[n..]);
    }
    assert first[..n] + first[n..] == first;
    assert Flat(rest) == first[n..];
  }

  lemma QueueSent(resp: Bytes, g: seq<Client>, i: nat, n: nat)
    requires GroupInv(resp, g, None) && i < |g|
    requires g[i].chunks != [] && n <= |g[i].chunks[0]|
    ensures var c := g[i];
            var rest := if n == |c.chunks[0]| then [] else [c.chunks[0][n..]];
            GroupInv(resp, g[i := Sent(c, c.chunks[0][..n]).(chunks := rest + c.chunks[1..])], None)
  {
    var c := g[i];
    SentStream(c, n);
    var rest := if n == |c.chunks[0]| then [] else [c.chunks[0][n..]];
    var c' := Sent(c, c.chunks[0][..n]).(chunks := rest + c.chunks[1..]);
    assert Reached(c') == Reached(c);
    hide Stream, Flat, Reached;
    var h := g[i := c'];
    assert !Fetching(c);
    if IsOk(resp) {
      assert Fed(resp, c');
      assert Broadcast(resp, h);
    } else {
      assert Alone(resp, c');
    }
  }

  lemma EntrySent(resp: Bytes, g: seq<Client>, e: Entry, i: nat, m: nat)
    requires Cached(resp, g, e) && i < |g| && g[i].sent + m <= |e.buffer|
    ensures Cached(resp, g[i := Sent(g[i], e.buffer[g[i].sent..g[i].sent + m])], e)
  {
    var c := Sent(g[i], e.buffer[g[i].sent..g[i].sent + m]);
    assert c.delivered == e.buffer[..c.sent];
    var h := g[i := c];
    if HasWriter(g) {
      var w :| 0 <= w < |g| && g[w].phase == WaitingResponse;
      assert h[w].phase == WaitingResponse;
    }
  }

  /** A client that is done has been sent the response from `base` to its end. */
  lemma DoneDelivered(resp: Bytes, g: seq<Client>, e: Option<Entry>, i: nat)
    requires GroupInv(resp, g, e) && i < |g|
    requires if g[i].readCache then e.Some? && g[i].sent >= |e.value.buffer| && e.value.completed
             else g[i].chunks == [] && g[i].phase == GotResponse
    ensures g[i].base <= |resp| && g[i].delivered == resp[g[i].base..]
  {
    var c := g[i];
    if c.readCache {
      assert Reader(c, e.value);
    } else {
      assert e == None;
      assert Stream(c) == c.delivered;
    }
  }

  lemma FinishKeeps(origin: Origin, s: State, k: Key, i: nat)
    requires Inv(origin, s) && Listed(s, k, i)
    requires var c := Group(s, k)[i];
             FinishedInv(origin, Finished(k, c.delivered, c.base))
    ensures Inv(origin, Finish(s, k, i)) && Elsewhere(s, Finish(s, k, i), k)
  {
    hide Lookup, Sound, Discard, GroupInv;
    DiscardKeeps(origin, s, k, i);
    var t := Discard(s, k, i);
    assert forall k' :: KeyInv(origin, t, k') ==> KeyInv(origin, Finish(s, k, i), k');
    assert t.finished == s.finished by { DiscardKeepsLog(s, k, i); }
  }

  lemma DiscardKeepsLog(s: State, k: Key, i: nat)
    requires Listed(s, k, i)
    ensures Discard(s, k, i).finished == s.finished
  {
  }

  lemma SendUncachedKeeps(origin: Origin, s: State, k: Key, i: nat, n: nat)
    requires Inv(origin, s) && Listed(s, k, i) && n <= |Offered(s, k, i)| && !Group(s, k)[i].readCache
    ensures Inv(origin, SendUncached(s, k, i, n)) && Elsewhere(s, SendUncached(s, k, i, n), k)
  {
    hide Lookup, Sound, GroupInv;
    assert KeyInv(origin, s, k);
    var g := Group(s, k);
    if g[i].chunks != [] {
      NotReading(origin(k), g, Lookup(s.cache, k), i);
      QueueSent(origin(k), g, i, n);
      StepOn(origin, s, SendUncached(s, k, i, n), k);
    } else if g[i].phase == GotResponse {
      DoneDelivered(origin(k), g, Lookup(s.cache, k), i);
      FinishKeeps(origin, s, k, i);
    }
  }

  lemma NotReading(resp: Bytes, g: seq<Client>, e: Option<Entry>, i: nat)
    requires GroupInv(resp, g, e) && i < |g|
    ensures g[i].readCache <==> e.Some?
  {
  }

  lemma SendCachedKeeps(origin: Origin, s: State, k: Key, i: nat, n: nat)
    requires Inv(origin, s) && Listed(s, k, i) && n <= |Offered(s, k, i)| && Group(s, k)[i].readCache
    ensures Inv(origin, SendCached(s, k, i, n)) && Elsewhere(s, SendCached(s, k, i, n), k)
  {
    hide Lookup, Sound, GroupInv, Cached, Touch, Finish;
    assert KeyInv(origin, s, k);
    var g := Group(s, k);
    NotReading(origin(k), g, Lookup(s.cache, k), i);
    var e := Lookup(s.cache, k).value;
    var touched := s.(cache := Touch(s.cache, k));
    TouchEffect(s.cache, k);
    StepOn(origin, s, touched, k);
    if g[i].sent < |e.buffer| {
      TouchEffect(touched.cache, k);
      CachedEntry(origin(k), g, e);
      EntrySent(origin(k), g, e, i, n);
      var m := Min(|e.buffer| - g[i].sent, MAX_CHUNK_SIZE);
      assert e.buffer[g[i].sent..g[i].sent + m][..n] == e.buffer[g[i].sent..g[i].sent + n];
      EntryGroup(origin(k), g[i := Sent(g[i], Offered(s, k, i)[..n])], e);
      StepOn(origin, s, SendCached(s, k, i, n), k);
    } else if e.completed {
      DoneDelivered(origin(k), g, Lookup(s.cache, k), i);
      FinishKeeps(origin, touched, k, i);
    }
  }

  lemma CachedEntry(resp: Bytes, g: seq<Client>, e: Entry)
    requires GroupInv(resp, g, Some(e))
    ensures Cached(resp, g, e)
  {
  }

  lemma EntryGroup(resp: Bytes, g: seq<Client>, e: Entry)
    requires Cached(resp, g, e)
    ensures GroupInv(resp, g, Some(e))
  {
  }

  // ----- the first chunk -----

  ghost function Opened(g: seq<Client>, i: nat, n: nat): (r: seq<Client>)
    requires i < |g|
    ensures |r| == |g|
  {
    g[i := Advanced(g[i], n).(writeCache := true, readCache := true)]
  }

  /** The group of a leader whose first chunk went into the cache: all read, the leader writes. */
  lemma OpenedCached(resp: Bytes, g: seq<Client>, i: nat, chunk: Bytes)
    requires Gathering(g) && i < |g| && g[i].phase == WaitingStatus
    requires Receives(resp, g[i], chunk) && IsOk(chunk)
    ensures var h := OthersRead(Opened(g, i, |chunk|), i);
            Cached(resp, h[i := h[i].(phase := WaitingResponse)], Entry(chunk, false, |g|))
  {
    var h := OthersRead(Opened(g, i, |chunk|), i);
    var h' := h[i := h[i].(phase := WaitingResponse)];
    assert g[i].server == Some(0) && chunk <= resp;
    assert resp[9..12] == chunk[9..12];
    assert forall j :: 0 <= j < |g| ==> Fetching(g[j]);
    assert h'[i].phase == WaitingResponse;
    assert forall j :: 0 <= j < |g| && j != i ==> h'[j] == Reading(g[j]);
  }

  lemma OpenedAlone(resp: Bytes, g: seq<Client>, chunk: Bytes, h: seq<Client>)
    requires Gathering(g) && |g| == 1 && g[0].phase == WaitingStatus
    requires Receives(resp, g[0], chunk) && IsOk(chunk)
    requires AllFellBack(h, Opened(g, 0, |chunk|), 0, "", chunk)
    ensures h[0].phase == WaitingResponse && IsOk(resp) && Broadcast(resp, h)
  {
    assert g[0].server == Some(0) && chunk <= resp && "" + chunk == chunk;
    assert resp[9..12] == chunk[9..12];
    GroupFellBack(resp, Opened(g, 0, |chunk|), 0, "", chunk, h);
  }

  lemma InUseAppend(items: seq<Item>, x: Item)
    ensures CP.InUseBytes(items + [x]) == CP.InUseBytes(items) + CP.UsedBytes(x)
  {
    CP.InUseConcat(items, [x]);
    assert CP.InUseBytes([x]) == CP.UsedBytes(x) + CP.InUseBytes([]);
  }

  lemma FirstWriteFits(s: Store, k: Key, chunk: Bytes)
    requires Sound(s) && Lookup(s, k) == None
    requires CP.InUseBytes(s.items) + |chunk| <= s.max
    ensures Write(UseEntry(s, k), k, chunk).1 != AllInUse
  {
    UseEffect(s, k);
    assert UseEntry(s, k).items == s.items + [Item(k, FRESH_ENTRY)];
    InUseAppend(s.items, Item(k, FRESH_ENTRY));
    CP.AllInUseIff(UseEntry(s, k), |chunk|);
  }

  lemma StartedGroup(s: State, k: Key, i: nat, chunk: Bytes)
    requires Listed(s, k, i)
    ensures Group(Started(s, k, i, chunk), k) == Opened(Group(s, k), i, |chunk|)
    ensures Started(s, k, i, chunk).cache == UseEntry(s.cache, k)
    ensures Started(s, k, i, chunk).finished == s.finished && Started(s, k, i, chunk).newcomers == s.newcomers
    ensures forall k' :: k' != k ==> Group(Started(s, k, i, chunk), k') == Group(s, k')
  {
  }

  /** How the leader's first write ends. */
  lemma FirstWrite(s: State, k: Key, i: nat, chunk: Bytes)
    requires Sound(s.cache) && Lookup(s.cache, k) == None
    requires Listed(s, k, i) && FirstChunkFits(s, k, chunk)
    ensures var started := Started(s, k, i, chunk);
            var (t, ok) := WriteToCache(started, k, i, chunk);
            && ok && Sound(t.cache) && Elsewhere(s, t, k) && t.finished == s.finished
            && if Lookup(t.cache, k).Some?
               then Group(t, k) == Group(started, k) && Lookup(t.cache, k) == Some(Entry(chunk, false, 1))
               else |Group(s, k)| == 1 && AllFellBack(Group(t, k), Group(started, k), i, "", chunk)
  {
    UseEffect(s.cache, k);
    if |Group(s, k)| != 1 {
      FirstWriteFits(s.cache, k, chunk);
    }
    StartedGroup(s, k, i, chunk);
    hide Lookup, Sound, WriteToCache, Write, UseEntry, AllFellBack, Started, Opened;
    WriteToCacheEffect(Started(s, k, i, chunk), k, i, chunk);
    assert "" + chunk == chunk;
  }

  /** The leader's write went into the cache: everyone else becomes a reader. */
  lemma StatusOkCached(origin: Origin, s: State, k: Key, i: nat, chunk: Bytes, t: State)
    requires Inv(origin, s) && Listed(s, k, i) && Gathering(Group(s, k)) && Group(s, k)[i].phase == WaitingStatus
    requires Receives(origin(k), Group(s, k)[i], chunk) && IsOk(chunk) && k != ""
    requires Sound(t.cache) && Elsewhere(s, t, k) && t.finished == s.finished
    requires Group(t, k) == Opened(Group(s, k), i, |chunk|) && Lookup(t.cache, k) == Some(Entry(chunk, false, 1))
    ensures var h := OthersRead(Group(t, k), i);
            var u := SetGroup(t, k, h[i := h[i].(phase := WaitingResponse)]).(cache := UseTimes(t.cache, k, |h| - 1));
            Inv(origin, u) && Elsewhere(s, u, k)
  {
    hide Lookup, Sound, Cached, Receives, IsOk, Gathering, UseTimes;
    var h := OthersRead(Group(t, k), i);
    var u := SetGroup(t, k, h[i := h[i].(phase := WaitingResponse)]).(cache := UseTimes(t.cache, k, |h| - 1));
    OpenedCached(origin(k), Group(s, k), i, chunk);
    UseTimesEffect(t.cache, k, |h| - 1);
    EntryGroup(origin(k), Group(u, k), Entry(chunk, false, |h|));
    StepOn(origin, s, u, k);
  }

  /** The leader is alone and its write did not fit: it broadcasts to itself. */
  lemma StatusOkAlone(origin: Origin, s: State, k: Key, i: nat, chunk: Bytes, t: State)
    requires Inv(origin, s) && Listed(s, k, i) && Gathering(Group(s, k)) && Group(s, k)[i].phase == WaitingStatus
    requires Receives(origin(k), Group(s, k)[i], chunk) && IsOk(chunk) && k != "" && |Group(s, k)| == 1
    requires Sound(t.cache) && Elsewhere(s, t, k) && t.finished == s.finished
    requires AllFellBack(Group(t, k), Opened(Group(s, k), i, |chunk|), i, "", chunk) && Lookup(t.cache, k) == None
    ensures var h := OthersRead(Group(t, k), i);
            var u := SetGroup(t, k, h[i := h[i].(phase := WaitingResponse)]).(cache := UseTimes(t.cache, k, |h| - 1));
            Inv(origin, u) && Elsewhere(s, u, k)
  {
    OpenedAlone(origin(k), Group(s, k), chunk, Group(t, k));
    var h := OthersRead(Group(t, k), i);
    assert h[i := h[i].(phase := WaitingResponse)] == Group(t, k);
    hide Lookup, Sound, Receives, IsOk, AllFellBack, Gathering, Broadcast;
    StepOn(origin, s, SetGroup(t, k, Group(t, k)), k);
  }

  lemma GatheringFacts(origin: Origin, s: State, k: Key, i: nat, chunk: Bytes)
    requires Inv(origin, s) && Listed(s, k, i) && Group(s, k)[i].phase == WaitingStatus
    requires Receives(origin(k), Group(s, k)[i], chunk) && IsOk(chunk)
    ensures k != "" && Lookup(s.cache, k) == None && Gathering(Group(s, k)) && Sound(s.cache)
  {
    assert KeyInv(origin, s, k);
    FetchingGroup(origin(k), Group(s, k), Lookup(s.cache, k), i);
    OkPrefix(origin(k), Group(s, k)[i], chunk);
  }

  lemma StatusOkStored(origin: Origin, s: State, k: Key, i: nat, chunk: Bytes, again: nat)
    requires Inv(origin, s) && Listed(s, k, i) && Group(s, k)[i].phase == WaitingStatus
    requires Receives(origin(k), Group(s, k)[i], chunk) && IsOk(chunk) && FirstChunkFits(s, k, chunk)
    ensures Inv(origin, StatusOk(s, k, i, chunk, again)) && Elsewhere(s, StatusOk(s, k, i, chunk, again), k)
  {
    hide Lookup, StatusOk, WriteToCache, Started, AllFellBack, IsOk, Receives, FirstChunkFits, Opened;
    hide Inv, Elsewhere, Gathering, Sound, Group;
    GatheringFacts(origin, s, k, i, chunk);
    FirstWrite(s, k, i, chunk);
    StartedGroup(s, k, i, chunk);
    StatusOkShape(s, k, i, chunk, again);
    var t := WriteToCache(Started(s, k, i, chunk), k, i, chunk).0;
    if Lookup(t.cache, k).Some? {
      StatusOkCached(origin, s, k, i, chunk, t);
    } else {
      StatusOkAlone(origin, s, k, i, chunk, t);
    }
  }

  // ----- a first chunk that finds no room, with others waiting -----

  lemma FirstWriteFails(s: State, k: Key, chunk: Bytes)
    requires Sound(s.cache) && Lookup(s.cache, k) == None && CP.InUseBytes(s.cache.items) + |chunk| > s.cache.max
    ensures Write(UseEntry(s.cache, k), k, chunk).1 == AllInUse
  {
    UseEffect(s.cache, k);
    assert UseEntry(s.cache, k).items == s.cache.items + [Item(k, FRESH_ENTRY)];
    InUseAppend(s.cache.items, Item(k, FRESH_ENTRY));
    CP.AllInUseIff(UseEntry(s.cache, k), |chunk|);
  }

  /** The clients once a fallback has lost the entry: the first one has the chunk, the second one meets the missing
      key. */
  ghost function Lost(g: seq<Client>, chunk: Bytes): (r: seq<Client>)
    requires |g| >= 2
    ensures |r| == |g|
  {
    g[0 := FellBack(g[0], "", chunk)][1 := g[1].(readCache := false, phase := GettingFromAnother)]
  }

  lemma LostLoop(g: seq<Client>, cache: Store, k: Key, chunk: Bytes)
    requires |g| >= 2 && Sound(cache) && Lookup(cache, k) == Some(FRESH_ENTRY)
    ensures var (h, t, ok) := FallbackLoop(g, 0, cache, k, chunk);
            && h == Lost(g, chunk) && !ok && t == DisuseEntry(Touch(cache, k), k)
            && Sound(t) && Lookup(t, k) == None && SameElsewhere(cache, t, k) && t.max == cache.max
  {
    FallbackRound(cache, k);
    hide Lookup, Sound, Touch, DisuseEntry;
    var t := DisuseEntry(Touch(cache, k), k);
    var c := FellBack(g[0], "", chunk);
    assert FellBack(g[0].(readCache := false, phase := GettingFromAnother), "", chunk) == c;
    assert FallbackLoop(g[0 := c], 1, t, k, chunk) == (Lost(g, chunk), t, false);
  }

  /** The write of a first chunk that is lost. */
  lemma LostWrite(s: State, k: Key, i: nat, chunk: Bytes)
    requires Sound(s.cache) && Lookup(s.cache, k) == None && Listed(s, k, i)
    requires !FirstChunkFits(s, k, chunk)
    ensures var (t, ok) := WriteToCache(Started(s, k, i, chunk), k, i, chunk);
            && |Group(s, k)| >= 2 && !ok && Group(t, k) == Lost(Opened(Group(s, k), i, |chunk|), chunk)
            && Sound(t.cache) && Lookup(t.cache, k) == None && Elsewhere(s, t, k) && t.finished == s.finished
            && t.cache.max == s.cache.max && t.newcomers == s.newcomers
            && t.cache == DisuseEntry(Touch(Write(UseEntry(s.cache, k), k, chunk).0, k), k)
  {
    hide Lookup, Sound, Write, UseEntry, FallbackLoop, Lost, Opened, Started, Touch, DisuseEntry;
    FirstWriteFails(s, k, chunk);
    StartedGroup(s, k, i, chunk);
    UseEffect(s.cache, k);
    UsedWrite(UseEntry(s.cache, k), k, chunk);
    LostLoop(Opened(Group(s, k), i, |chunk|), Write(UseEntry(s.cache, k), k, chunk).0, k, chunk);
  }

  /** Those who stay after a lost first chunk are in one of the four situations if and only if nobody among them
      fetches for himself. */
  lemma LostGroup(resp: Bytes, g: seq<Client>, i: nat, chunk: Bytes, again: nat)
    requires Gathering(g) && |g| >= 2 && i < |g| && g[i].phase == WaitingStatus
    requires Receives(resp, g[i], chunk) && IsOk(chunk)
    requires AllReached(Lost(Opened(g, i, |chunk|), chunk), again)
    ensures var h := PrepareWaiting(Lost(Opened(g, i, |chunk|), chunk));
            && h[i].phase != WaitingResponse
            && (GroupInv(resp, WithoutClient(h, i), None) <==> LossSafe(g, i, again))
  {
    var h := PrepareWaiting(Lost(Opened(g, i, |chunk|), chunk));
    OkPrefix(resp, g[i], chunk);
    assert forall j :: 0 <= j < |g| ==> Fetching(g[j]);
    var rest := WithoutClient(h, i);
    var n := if i == 0 then 1 else 0;
    StaysAt(h, i, n);
    assert rest[0] == h[n] && rest[0].phase == GettingFromAnother;
    if |g| > 2 && (|g| > 3 || i != 2) {
      var m := if i == 2 then 3 else 2;
      StaysAt(h, i, m);
      assert rest[Shifted(m, i)].phase in {SendingRequest, WaitingStatus};
      assert Lost(Opened(g, i, |chunk|), chunk)[2].phase == g[2].phase;
    } else {
      LostFed(resp, g, i, chunk);
    }
  }

  lemma LostFed(resp: Bytes, g: seq<Client>, i: nat, chunk: Bytes)
    requires Gathering(g) && i < |g| && g[i].phase == WaitingStatus && (|g| == 2 || (|g| == 3 && i == 2))
    requires Receives(resp, g[i], chunk) && IsOk(chunk)
    ensures Broadcast(resp, WithoutClient(PrepareWaiting(Lost(Opened(g, i, |chunk|), chunk)), i))
  {
    var h := PrepareWaiting(Lost(Opened(g, i, |chunk|), chunk));
    var rest := WithoutClient(h, i);
    assert Fetching(g[0]) && Fetching(g[1]) && Fetching(g[i]);
    FirstFed(resp, g[0], chunk);
    SecondFed(resp, g[1]);
    forall j | 0 <= j < |rest|
      ensures Fed(resp, rest[j]) && rest[j].phase != WaitingResponse
    {
      CameFrom(h, i, j);
    }
  }

  /** Nothing has been sent to the client or queued for it. */
  ghost predicate HasNothing(c: Client) {
    c.sent == 0 && c.chunks == [] && c.delivered == "" && c.base == 0
  }

  lemma FirstFed(resp: Bytes, c: Client, chunk: Bytes)
    requires HasNothing(c) && chunk <= resp
    ensures Fed(resp, FellBack(c, "", chunk))
  {
    FlatOne(chunk);
    var d := FellBack(c, "", chunk);
    assert d.chunks == [chunk] && Stream(d) == chunk && chunk == resp[..|chunk|];
  }

  lemma SecondFed(resp: Bytes, c: Client)
    requires HasNothing(c)
    ensures Fed(resp, c.(readCache := false, phase := GettingFromAnother))
    ensures c.phase == WaitingForAnother && !c.readCache ==> Fed(resp, c)
  {
    assert Stream(c) == "" && Stream(c.(readCache := false, phase := GettingFromAnother)) == "";
  }

  /** If somebody who waits cannot be connected, the reader stays too. */
  lemma LostStay(resp: Bytes, g: seq<Client>, i: nat, chunk: Bytes, again: nat)
    requires Gathering(g) && |g| >= 2 && i < |g| && g[i].phase == WaitingStatus
    requires Receives(resp, g[i], chunk) && IsOk(chunk)
    requires !AllReached(Lost(Opened(g, i, |chunk|), chunk), again)
    ensures GroupInv(resp, PrepareBefore(Lost(Opened(g, i, |chunk|), chunk), again), None) <==> LossSafe(g, i, again)
  {
    var lost := Lost(Opened(g, i, |chunk|), chunk);
    var h := PrepareBefore(lost, again);
    OkPrefix(resp, g[i], chunk);
    assert forall j :: 0 <= j < |g| ==> Fetching(g[j]);
    assert h[0].phase == GettingFromAnother;
    var w :| again <= w < |lost| && lost[w].phase == WaitingForAnother;
    assert w >= 2 && g[w].phase == WaitingForAnother;
    if LossSafe(g, i, again) {
      LostStayFed(resp, g, i, chunk, again);
    } else if i >= 2 {
      assert h[i].phase == WaitingStatus;
    } else if again > 2 {
      assert h[2].phase in {SendingRequest, WaitingStatus};
    } else {
      var j :| 2 <= j < |g| && g[j].phase != WaitingForAnother;
      assert h[j].phase in {SendingRequest, WaitingStatus};
    }
  }

  lemma LostStayFed(resp: Bytes, g: seq<Client>, i: nat, chunk: Bytes, again: nat)
    requires Gathering(g) && |g| >= 2 && i < 2 && g[i].phase == WaitingStatus && again <= 2
    requires Receives(resp, g[i], chunk) && IsOk(chunk)
    requires forall j :: 2 <= j < |g| ==> g[j].phase == WaitingForAnother
    ensures Broadcast(resp, PrepareBefore(Lost(Opened(g, i, |chunk|), chunk), again))
  {
    var o := Opened(g, i, |chunk|);
    var h := PrepareBefore(Lost(o, chunk), again);
    forall j | 0 <= j < |g|
      ensures Fed(resp, h[j]) && h[j].phase != WaitingResponse
    {
      assert Fetching(g[j]) && Fetching(g[i]);
      FirstFed(resp, o[j], chunk);
      SecondFed(resp, o[j]);
    }
  }

  /** A lost first chunk leaves a state that the protocol knows if and only if the loss is safe. */
  lemma StatusOkLost(origin: Origin, s: State, k: Key, i: nat, chunk: Bytes, again: nat)
    requires Inv(origin, s) && Listed(s, k, i) && Group(s, k)[i].phase == WaitingStatus
    requires Receives(origin(k), Group(s, k)[i], chunk) && IsOk(chunk) && !FirstChunkFits(s, k, chunk)
    ensures var t := StatusOk(s, k, i, chunk, again);
            && Elsewhere(s, t, k) && Lookup(t.cache, k) == None
            && (Inv(origin, t) <==> LossSafe(Group(s, k), i, again))
  {
    hide Lookup, Sound, WriteToCache, Started, DisuseEntry, Receives, IsOk, Lost, Opened, GroupInv, PrepareWaiting,
      PrepareBefore, WithoutClient, FirstChunkFits, Gathering, LossSafe, AllReached;
    GatheringFacts(origin, s, k, i, chunk);
    LostWrite(s, k, i, chunk);
    var t := WriteToCache(Started(s, k, i, chunk), k, i, chunk).0;
    var u := StatusOk(s, k, i, chunk, again);
    assert u == StatusFailing(t, k, i, again);
    if AllReached(Group(t, k), again) {
      LostGroup(origin(k), Group(s, k), i, chunk, again);
      DisuseEffect(t.cache, k);
      assert Group(u, k) == WithoutClient(PrepareWaiting(Group(t, k)), i);
    } else {
      LostStay(origin(k), Group(s, k), i, chunk, again);
      assert Group(u, k) == PrepareBefore(Group(t, k), again);
    }
    hide StatusOk, StatusFailed, StatusFailing;
    assert Inv(origin, u) ==> KeyInv(origin, u, k);
    if LossSafe(Group(s, k), i, again) {
      StepOn(origin, s, u, k);
    }
  }

  lemma StatusOkKeeps(origin: Origin, s: State, k: Key, i: nat, chunk: Bytes, again: nat)
    requires Inv(origin, s) && Listed(s, k, i) && Group(s, k)[i].phase == WaitingStatus
    requires Receives(origin(k), Group(s, k)[i], chunk) && IsOk(chunk)
    requires FirstChunkFits(s, k, chunk) || LossSafe(Group(s, k), i, again)
    ensures Inv(origin, StatusOk(s, k, i, chunk, again)) && Elsewhere(s, StatusOk(s, k, i, chunk, again), k)
  {
    hide Inv, Elsewhere, StatusOk, Receives, IsOk, FirstChunkFits, LossSafe;
    if FirstChunkFits(s, k, chunk) {
      StatusOkStored(origin, s, k, i, chunk, again);
    } else {
      StatusOkLost(origin, s, k, i, chunk, again);
    }
  }

  lemma StatusOkShape(s: State, k: Key, i: nat, chunk: Bytes, again: nat)
    requires Listed(s, k, i)
    ensures var (t, ok) := WriteToCache(Started(s, k, i, chunk), k, i, chunk);
            ok ==>
              var h := OthersRead(Group(t, k), i);
              StatusOk(s, k, i, chunk, again)
              == SetGroup(t, k, h[i := h[i].(phase := WaitingResponse)]).(cache := UseTimes(t.cache, k, |h| - 1))
  {
    hide WriteToCache, UseEntry;
  }

  lemma OkPrefix(resp: Bytes, c: Client, chunk: Bytes)
    requires Receives(resp, c, chunk) && c.server == Some(0) && |chunk| >= 12
    ensures IsOk(chunk) <==> IsOk(resp)
  {
    assert chunk == resp[..|chunk|];
    assert resp[9..12] == chunk[9..12];
  }

  lemma StatusOtherKeeps(origin: Origin, s: State, k: Key, i: nat, chunk: Bytes)
    requires Inv(origin, s) && Listed(s, k, i) && Group(s, k)[i].phase == WaitingStatus
    requires Receives(origin(k), Group(s, k)[i], chunk) && |chunk| >= 12 && !IsOk(chunk)
    ensures Inv(origin, StatusOther(s, k, i, chunk)) && Elsewhere(s, StatusOther(s, k, i, chunk), k)
  {
    assert KeyInv(origin, s, k);
    var g := Group(s, k);
    FetchingGroup(origin(k), g, Lookup(s.cache, k), i);
    OkPrefix(origin(k), g[i], chunk);
    var t := StatusOther(s, k, i, chunk);
    OtherStatusGroup(origin(k), g, i, chunk);
    hide Lookup, Sound, Private, Receives;
    StepOn(origin, s, t, k);
  }

  lemma OtherStatusGroup(resp: Bytes, g: seq<Client>, i: nat, chunk: Bytes)
    requires Private(resp, g) && i < |g| && g[i].phase == WaitingStatus
    requires Receives(resp, g[i], chunk)
    ensures var h := PrepareWaiting(g[i := Queued(Advanced(g[i], |chunk|), chunk)]);
            Private(resp, h[i := h[i].(phase := WaitingResponse)])
  {
    var h := PrepareWaiting(g[i := Queued(Advanced(g[i], |chunk|), chunk)]);
    var c := h[i].(phase := WaitingResponse);
    assert Fetching(g[i]);
    FlatOne(chunk);
    assert c.chunks == [chunk];
    assert Stream(c) == chunk;
    assert Alone(resp, c);
    hide Alone;
    forall j | 0 <= j < |g| && j != i
      ensures Fetching(h[j]) || Alone(resp, h[j])
    {
      assert g[j].phase == WaitingForAnother ==> !Alone(resp, g[j]) by { WaitingNotAlone(resp, g[j]); }
    }
  }

  lemma WaitingNotAlone(resp: Bytes, c: Client)
    ensures c.phase == WaitingForAnother ==> !Alone(resp, c)
  {
  }

  lemma PrepareTwice(g: seq<Client>, i: nat, c: Client, reach: nat)
    requires i < |g| && c.phase == g[i].phase == WaitingStatus
    ensures WithoutClient(PrepareWaiting(PrepareBefore(g[i := c], reach)), i) == WithoutClient(PrepareWaiting(g), i)
  {
    var a, b := PrepareWaiting(PrepareBefore(g[i := c], reach)), PrepareWaiting(g);
    assert a[..i] == b[..i] && a[i + 1..] == b[i + 1..];
  }

  /** When a client that waits cannot be connected, all is tried again by the exception handler, which lets the
      client of the response go. */
  lemma SecondTry(s: State, k: Key, i: nat, chunk: Bytes, reach: nat, again: nat)
    requires Listed(s, k, i) && Group(s, k)[i].phase == WaitingStatus && !IsOk(chunk)
    requires !AllReached(Group(s, k), reach) && AllReached(Group(s, k), again)
    ensures ReadStatus(s, k, i, chunk, reach, again) == StatusFailed(s, k, i)
  {
    var g := Group(s, k);
    var c := Queued(Advanced(g[i], |chunk|), chunk);
    var u := PrepareSome(Received(s, k, i, chunk), k, reach);
    PrepareTwice(g, i, c, reach);
    hide DisuseEntry, PrepareWaiting, IsOk, HandOver;
    assert Group(u, k) == PrepareBefore(g[i := c], reach) && u.cache == s.cache;
    assert AllReached(Group(u, k), again);
  }

  lemma StatusKeeps(origin: Origin, s: State, k: Key, i: nat, chunk: Bytes, reach: nat, again: nat)
    requires Inv(origin, s) && Listed(s, k, i) && Group(s, k)[i].phase == WaitingStatus
    requires Receives(origin(k), Group(s, k)[i], chunk) && StatusReadable(chunk)
    requires StatusSafe(s, k, i, chunk, reach, again)
    ensures Inv(origin, ReadStatus(s, k, i, chunk, reach, again))
    ensures Elsewhere(s, ReadStatus(s, k, i, chunk, reach, again), k)
  {
    hide IsOk, Receives, AllReached, StatusOk, StatusFailing, StatusOther, StatusFailed, Inv, Elsewhere, FirstChunkFits,
      LossSafe;
    if IsOk(chunk) {
      StatusOkKeeps(origin, s, k, i, chunk, again);
    } else if AllReached(Group(s, k), reach) {
      StatusOtherKeeps(origin, s, k, i, chunk);
    } else {
      SecondTry(s, k, i, chunk, reach, again);
      NoStatusKeeps(origin, s, k, i);
    }
  }

  // ----- every event -----

  /** The request an event is about. */
  ghost function About(e: Event): Key {
    match e
    case Accept => ""
    case BadRequest => ""
    case Request(k, _) => k
    case RequestSent(k, _) => k
    case NoStatus(k, _, _) => k
    case Status(k, _, _, _, _) => k
    case Chunk(k, _, _) => k
    case Eof(k, _) => k
    case Writable(k, _, _) => k
    case Drop(k, _) => k
  }

  /** Every event keeps the invariant, and touches no request but its own except by evicting its idle entry. */
  lemma NextKeeps(origin: Origin, s: State, e: Event)
    requires Inv(origin, s) && Enabled(origin, s, e)
    ensures Inv(origin, Next(origin, s, e)) && Elsewhere(s, Next(origin, s, e), About(e))
  {
    hide Inv, Receives, Elsewhere, StatusSafe, ReadStatus, StatusFailing;
    match e
    case Accept => AcceptKeeps(origin, s);
    case BadRequest => FreshUnlisted(origin, s); DiscardFreshKeeps(origin, s, "");
    case Request(k, connected) => RequestKeeps(origin, s, k, connected);
    case RequestSent(k, i) => RequestSentKeeps(origin, s, k, i);
    case NoStatus(k, i, again) => StatusFailingKeeps(origin, s, k, i, again);
    case Status(k, i, chunk, reach, again) => StatusKeeps(origin, s, k, i, chunk, reach, again);
    case Chunk(k, i, chunk) => ChunkKeeps(origin, s, k, i, chunk);
    case Eof(k, i) => EofKeeps(origin, s, k, i);
    case Writable(k, i, room) =>
      var n := Min(room, |Offered(s, k, i)|);
      if Group(s, k)[i].readCache {
        SendCachedKeeps(origin, s, k, i, n);
      } else {
        SendUncachedKeeps(origin, s, k, i, n);
      }
    case Drop(k, i) => DiscardKeeps(origin, s, k, i);
  }

  lemma AcceptKeeps(origin: Origin, s: State)
    requires Inv(origin, s)
    ensures var t := s.(newcomers := s.newcomers + 1);
            Inv(origin, t) && Elsewhere(s, t, "")
  {
    var t := s.(newcomers := s.newcomers + 1);
    assert forall k :: KeyInv(origin, s, k) ==> KeyInv(origin, t, k);
  }

  lemma FreshUnlisted(origin: Origin, s: State)
    requires Inv(origin, s)
    ensures Lookup(s.cache, "") == None
  {
  }
}
