/** What becomes of an unsafe loss: from the moment that the first chunk of a response is lost with somebody left who
    fetches for himself, events follow after which a client has been sent more than the whole response. */
module SharingLoss {
  import opened Wrappers
  import opened CacheSpec
  import opened Sharing
  import opened SharingInvariant
  import opened SharingSteps
  import opened SharingTheorems
  import CP = CacheProperties

  // ----- whatever happens, safe or not -----

  /** The event can happen: unlike an enabled one, a status need not be safe. */
  ghost predicate CanHappen(origin: Origin, s: State, e: Event) {
    if e.Status? then
      && Listed(s, e.key, e.i) && Group(s, e.key)[e.i].phase == WaitingStatus
      && Receives(origin(e.key), Group(s, e.key)[e.i], e.chunk) && StatusReadable(e.chunk)
    else Enabled(origin, s, e)
  }

  ghost function Happened(origin: Origin, s: State, e: Event): State
    requires CanHappen(origin, s, e)
  {
    if e.Status? then ReadStatus(s, e.key, e.i, e.chunk, e.reach, e.again) else Next(origin, s, e)
  }

  ghost predicate CanFollow(origin: Origin, s: State, events: seq<Event>)
    decreases |events|
  {
    events == [] || (CanHappen(origin, s, events[0]) && CanFollow(origin, Happened(origin, s, events[0]), events[1..]))
  }

  ghost function Outcome(origin: Origin, s: State, events: seq<Event>): State
    requires CanFollow(origin, s, events)
    decreases |events|
  {
    if events == [] then s else Outcome(origin, Happened(origin, s, events[0]), events[1..])
  }

  /** `events` can follow `s` and lead to `t`. */
  ghost predicate LeadsTo(origin: Origin, s: State, events: seq<Event>, t: State) {
    CanFollow(origin, s, events) && Outcome(origin, s, events) == t
  }

  lemma EnabledHappens(origin: Origin, s: State, e: Event)
    requires Enabled(origin, s, e)
    ensures CanHappen(origin, s, e) && Happened(origin, s, e) == Next(origin, s, e)
  {
  }

  lemma OneLeads(origin: Origin, s: State, e: Event)
    requires CanHappen(origin, s, e)
    ensures LeadsTo(origin, s, [e], Happened(origin, s, e))
  {
    hide CanHappen, Happened;
    var t := Happened(origin, s, e);
    assert [e][1..] == [] && CanFollow(origin, t, []) && Outcome(origin, t, []) == t;
  }

  lemma {:induction false} ThenLeads(origin: Origin, s: State, a: seq<Event>, t: State, b: seq<Event>, u: State)
    requires LeadsTo(origin, s, a, t) && LeadsTo(origin, t, b, u)
    ensures LeadsTo(origin, s, a + b, u)
    decreases |a|
  {
    hide CanHappen, Happened;
    if a == [] {
      assert a + b == b;
    } else {
      ThenLeads(origin, Happened(origin, s, a[0]), a[1..], t, b, u);
      assert (a + b)[1..] == a[1..] + b;
    }
  }

  // ----- a lost write leaves the bytes in use as they were -----

  lemma PutInUse(s: Store, k: Key, e: Entry)
    requires Lookup(s, k).Some? ==> Lookup(s, k).value.buffer == ""
    requires e.buffer == ""
    ensures CP.InUseBytes(Put(s, k, e).items) == CP.InUseBytes(s.items)
  {
    CP.InUseWithout(s.items, k);
    InUseAppend(Without(s.items, k), Item(k, e));
  }

  /** Opening an entry, failing to write to it and dropping it. */
  lemma LostInUse(s: Store, k: Key, chunk: Bytes)
    requires Sound(s) && Lookup(s, k) == None && CP.InUseBytes(s.items) + |chunk| > s.max
    ensures CP.InUseBytes(DisuseEntry(Touch(Write(UseEntry(s, k), k, chunk).0, k), k).items) == CP.InUseBytes(s.items)
  {
    var used := UseEntry(s, k);
    PutInUse(s, k, FRESH_ENTRY);
    UseEffect(s, k);
    CP.AllInUseIff(used, |chunk|);
    var freed := FreeSpace(used, |chunk|).0;
    CP.FreeSpaceInUse(used, |chunk|);
    CP.FreeSpaceEffect(used, |chunk|);
    assert Lookup(freed, k) == Some(FRESH_ENTRY);
    assert Write(used, k, chunk).0 == freed;
    PutInUse(freed, k, FRESH_ENTRY);
    PutEffect(freed, k, FRESH_ENTRY);
    var touched := Touch(freed, k);
    CP.InUseWithout(touched.items, k);
  }

  // ----- the clients after an unsafe loss -----

  ghost predicate ForHimself(c: Client) {
    c.phase in {SendingRequest, WaitingStatus} && c.server == Some(0)
  }

  ghost predicate FromQueue(c: Client) {
    c.phase == GettingFromAnother && !c.readCache
  }

  /** The first client is fed from its queue, and those from place `b` on fetch for themselves. */
  ghost predicate FedAmong(g: seq<Client>, b: nat) {
    && 1 <= b <= 2 && b < |g| && FromQueue(g[0])
    && forall j :: b <= j < |g| ==> ForHimself(g[j])
  }

  /** Those who stay when client `i` has lost its first chunk and everyone who waits can be connected. */
  ghost function AfterLoss(g: seq<Client>, i: nat, chunk: Bytes): (r: seq<Client>)
    requires |g| >= 2 && i < |g|
    ensures |r| == |g| - 1
  {
    WithoutClient(PrepareWaiting(Lost(Opened(g, i, |chunk|), chunk)), i)
  }

  /** An unsafe loss leaves somebody to be fed and somebody who fetches for himself. */
  lemma FirstLoss(g: seq<Client>, i: nat, chunk: Bytes)
    requires Gathering(g) && i < |g| && (|g| >= 4 || (|g| == 3 && i < 2))
    ensures FedAmong(AfterLoss(g, i, chunk), if i < 2 then 1 else 2)
  {
    var h := PrepareWaiting(Lost(Opened(g, i, |chunk|), chunk));
    var rest := AfterLoss(g, i, chunk);
    forall j | 0 <= j < |rest|
      ensures j == 0 ==> FromQueue(rest[j])
      ensures j >= (if i < 2 then 1 else 2) ==> ForHimself(rest[j])
    {
      CameFrom(h, i, j);
      var m := if j < i then j else j + 1;
      assert Fetching(g[m]);
    }
  }

  /** Somebody joins, and the first who fetches for himself loses his first chunk too: there are as many as before, and
      the chunk has been queued once more. */
  lemma NextLoss(g: seq<Client>, b: nat, c: Client, chunk: Bytes)
    requires FedAmong(g, b) && c.phase == WaitingForAnother
    ensures var h := AfterLoss(g + [c], b, chunk);
            FedAmong(h, b) && h[0].delivered == g[0].delivered && h[0].chunks == g[0].chunks + [chunk]
  {
    var o := g + [c];
    var h := PrepareWaiting(Lost(Opened(o, b, |chunk|), chunk));
    var rest := AfterLoss(o, b, chunk);
    assert g[0].chunks + [] + [chunk] == g[0].chunks + [chunk];
    forall j | 0 <= j < |rest|
      ensures j == 0 ==> FromQueue(rest[j])
      ensures j >= b ==> ForHimself(rest[j])
    {
      CameFrom(h, b, j);
    }
  }

  /** The first client is fed from its queue, client `j` has asked for himself, and of those after the second the others
      have asked or wait. */
  ghost predicate FedBefore(g: seq<Client>, j: nat) {
    && 2 <= j < |g| && |g| >= 4 && FromQueue(g[0]) && g[j].phase in {SendingRequest, WaitingStatus}
    && forall m :: 2 <= m < |g| && m != j ==> ForHimself(g[m]) || g[m].phase == WaitingForAnother
  }

  /** The same when somebody who waits cannot be connected and the client itself stays. */
  lemma StayedLoss(g: seq<Client>, i: nat, chunk: Bytes, again: nat) returns (j: nat)
    requires Gathering(g) && |g| >= 2 && i < |g| && g[i].phase == WaitingStatus
    requires !AllReached(Lost(Opened(g, i, |chunk|), chunk), again) && !LossSafe(g, i, again)
    ensures FedBefore(PrepareBefore(Lost(Opened(g, i, |chunk|), chunk), again), j)
  {
    var lost := Lost(Opened(g, i, |chunk|), chunk);
    var h := PrepareBefore(lost, again);
    assert forall m :: 0 <= m < |g| ==> Fetching(g[m]);
    var w :| again <= w < |lost| && lost[w].phase == WaitingForAnother;
    assert w >= 2 && w != i && g[w].phase == WaitingForAnother;
    if i >= 2 {
      j := i;
    } else if again > 2 {
      j := 2;
    } else {
      j :| 2 <= j < |g| && g[j].phase != WaitingForAnother;
    }
    assert h[j].phase in {SendingRequest, WaitingStatus} && j != w;
  }

  lemma LeavesFed(g: seq<Client>, j: nat, c: Client)
    requires FedBefore(g, j) && c.phase == WaitingStatus
    ensures FedAmong(WithoutClient(PrepareWaiting(g[j := c]), j), 2)
  {
    var h := PrepareWaiting(g[j := c]);
    var rest := WithoutClient(h, j);
    forall m | 0 <= m < |rest|
      ensures m == 0 ==> FromQueue(rest[m])
      ensures m >= 2 ==> ForHimself(rest[m])
    {
      CameFrom(h, j, m);
    }
  }

  // ----- one loss after another -----

  /** Nobody has an entry, and a first chunk of this length does not fit. */
  ghost predicate Full(s: State, k: Key, chunk: Bytes) {
    Sound(s.cache) && Lookup(s.cache, k) == None && CP.InUseBytes(s.cache.items) + |chunk| > s.cache.max
  }

  /** What the origin sends first, with status 200. */
  ghost predicate Opens(resp: Bytes, chunk: Bytes) {
    IsOk(chunk) && StatusReadable(chunk) && chunk <= resp
  }

  ghost predicate Spoilt(s: State, k: Key, b: nat, chunk: Bytes) {
    Full(s, k, chunk) && FedAmong(Group(s, k), b)
  }

  lemma LossLeaves(t: State, k: Key, i: nat)
    requires Listed(t, k, i) && Group(t, k)[i].phase != WaitingResponse
    ensures Group(StatusFailed(t, k, i), k) == WithoutClient(PrepareWaiting(Group(t, k)), i)
    ensures StatusFailed(t, k, i).cache == DisuseEntry(t.cache, k)
  {
    hide DisuseEntry, WithoutClient, HandOver;
  }

  lemma LossPhase(g: seq<Client>, i: nat, chunk: Bytes)
    requires |g| >= 2 && i < |g| && g[i].phase == WaitingStatus
    ensures Lost(Opened(g, i, |chunk|), chunk)[i].phase != WaitingResponse
  {
  }

  lemma StatusHappens(origin: Origin, s: State, k: Key, i: nat, chunk: Bytes, reach: nat, again: nat)
    requires Listed(s, k, i) && Opens(origin(k), chunk)
    requires Group(s, k)[i].phase == WaitingStatus && Group(s, k)[i].server == Some(0)
    ensures var e := Status(k, i, chunk, reach, again);
            CanHappen(origin, s, e) && Happened(origin, s, e) == StatusOk(s, k, i, chunk, again)
  {
    hide StatusOk;
  }

  lemma LossWritten(s: State, k: Key, i: nat, chunk: Bytes) returns (t: State)
    requires Full(s, k, chunk) && Listed(s, k, i) && |Group(s, k)| >= 2 && Group(s, k)[i].phase == WaitingStatus
    ensures Group(t, k) == Lost(Opened(Group(s, k), i, |chunk|), chunk) && Group(t, k)[i].phase != WaitingResponse
    ensures Full(t, k, chunk)
    ensures forall again :: StatusOk(s, k, i, chunk, again) == StatusFailing(t, k, i, again)
  {
    hide Lookup, Sound, WriteToCache, Started, DisuseEntry, Write, UseEntry, Touch, Lost, Opened, StatusFailing;
    LostWrite(s, k, i, chunk);
    LostInUse(s.cache, k, chunk);
    t := WriteToCache(Started(s, k, i, chunk), k, i, chunk).0;
    LossPhase(Group(s, k), i, chunk);
  }

  /** The client of a lost first chunk leaves. */
  lemma LossHappens(origin: Origin, s: State, k: Key, i: nat, chunk: Bytes, reach: nat, again: nat)
    requires Full(s, k, chunk) && Listed(s, k, i) && |Group(s, k)| >= 2 && Opens(origin(k), chunk)
    requires Group(s, k)[i].phase == WaitingStatus && Group(s, k)[i].server == Some(0)
    requires AllReached(Lost(Opened(Group(s, k), i, |chunk|), chunk), again)
    ensures var e := Status(k, i, chunk, reach, again);
            && CanHappen(origin, s, e) && Full(Happened(origin, s, e), k, chunk)
            && Group(Happened(origin, s, e), k) == AfterLoss(Group(s, k), i, chunk)
  {
    hide Lookup, Sound, DisuseEntry, WithoutClient, PrepareWaiting, Lost, Opened, StatusFailed, StatusOk, CanHappen,
      Happened, Opens, AllReached;
    StatusHappens(origin, s, k, i, chunk, reach, again);
    var t := LossWritten(s, k, i, chunk);
    AbsentDisuse(t.cache, k);
    LossLeaves(t, k, i);
  }

  /** It stays. */
  lemma LossStays(origin: Origin, s: State, k: Key, i: nat, chunk: Bytes, reach: nat, again: nat)
    requires Full(s, k, chunk) && Listed(s, k, i) && |Group(s, k)| >= 2 && Opens(origin(k), chunk)
    requires Group(s, k)[i].phase == WaitingStatus && Group(s, k)[i].server == Some(0)
    requires !AllReached(Lost(Opened(Group(s, k), i, |chunk|), chunk), again)
    ensures var e := Status(k, i, chunk, reach, again);
            && CanHappen(origin, s, e) && Full(Happened(origin, s, e), k, chunk)
            && Group(Happened(origin, s, e), k) == PrepareBefore(Lost(Opened(Group(s, k), i, |chunk|), chunk), again)
  {
    hide Lookup, Sound, PrepareBefore, Lost, Opened, StatusFailed, StatusOk, CanHappen, Happened, Opens, AllReached;
    StatusHappens(origin, s, k, i, chunk, reach, again);
    var t := LossWritten(s, k, i, chunk);
  }

  lemma AbsentDisuse(s: Store, k: Key)
    requires Lookup(s, k) == None
    ensures DisuseEntry(s, k) == s
  {
  }

  /** Somebody connects and asks for the response. */
  lemma SomebodyJoins(origin: Origin, s: State, k: Key) returns (t: State, c: Client)
    requires Group(s, k) != [] && Lookup(s.cache, k) == None && k != ""
    ensures LeadsTo(origin, s, [Accept, Request(k, true)], t)
    ensures Group(t, k) == Group(s, k) + [c] && c.phase == WaitingForAnother && t.cache == s.cache
  {
    c := NEWCOMER.(phase := WaitingForAnother, base := JoinBase(Group(s, k)));
    var u := s.(newcomers := s.newcomers + 1);
    t := ReadRequest(u, k, true);
    hide LeadsTo, JoinBase, UseEntry, DisuseEntry;
    EnabledHappens(origin, s, Accept);
    OneLeads(origin, s, Accept);
    EnabledHappens(origin, u, Request(k, true));
    OneLeads(origin, u, Request(k, true));
    ThenLeads(origin, s, [Accept], u, [Request(k, true)], t);
    assert [Accept] + [Request(k, true)] == [Accept, Request(k, true)];
  }

  /** The one who fetches for himself has sent his request, at once or already. */
  lemma RequestGoes(origin: Origin, s: State, k: Key, b: nat) returns (events: seq<Event>, t: State)
    requires Listed(s, k, b) && Group(s, k)[b].phase in {SendingRequest, WaitingStatus}
    ensures LeadsTo(origin, s, events, t) && t.cache == s.cache
    ensures Group(t, k) == Group(s, k)[b := Group(s, k)[b].(phase := WaitingStatus)]
  {
    if Group(s, k)[b].phase == SendingRequest {
      var e := RequestSent(k, b);
      EnabledHappens(origin, s, e);
      OneLeads(origin, s, e);
      events, t := [e], SendRequest(s, k, b);
    } else {
      events, t := [], s;
    }
  }

  /** One more loss: the client that is fed has the chunk queued once more. */
  lemma LosesAgain(origin: Origin, s: State, k: Key, b: nat, chunk: Bytes) returns (events: seq<Event>, t: State)
    requires Spoilt(s, k, b, chunk) && Opens(origin(k), chunk) && k != ""
    ensures LeadsTo(origin, s, events, t) && Spoilt(t, k, b, chunk)
    ensures |Stream(Group(t, k)[0])| == |Stream(Group(s, k)[0])| + |chunk|
  {
    hide LeadsTo, Full, Opens, Stream, AfterLoss, CanHappen, Happened;
    assert Lookup(s.cache, k) == None by { FullLookup(s, k, chunk); }
    var u, c := SomebodyJoins(origin, s, k);
    assert Group(u, k)[b] == Group(s, k)[b];
    var sent, v := RequestGoes(origin, u, k, b);
    var g := Group(s, k)[b := Group(s, k)[b].(phase := WaitingStatus)];
    assert Group(v, k) == g + [c] && FedAmong(g, b);
    FullSame(s, v, k, chunk);
    var e := Status(k, b, chunk, 0, |g| + 1);
    assert AllReached(Lost(Opened(g + [c], b, |chunk|), chunk), |g| + 1);
    LossHappens(origin, v, k, b, chunk, 0, |g| + 1);
    t := Happened(origin, v, e);
    NextLoss(g, b, c, chunk);
    LongerStream(Group(s, k)[0], Group(t, k)[0], chunk);
    OneLeads(origin, v, e);
    ThenLeads(origin, s, [Accept, Request(k, true)], u, sent, v);
    events := [Accept, Request(k, true)] + sent + [e];
    ThenLeads(origin, s, [Accept, Request(k, true)] + sent, v, [e], t);
  }

  lemma FullLookup(s: State, k: Key, chunk: Bytes)
    requires Full(s, k, chunk)
    ensures Lookup(s.cache, k) == None
  {
  }

  lemma FullSame(s: State, t: State, k: Key, chunk: Bytes)
    requires Full(s, k, chunk) && t.cache == s.cache
    ensures Full(t, k, chunk)
  {
  }

  lemma LongerStream(c: Client, d: Client, chunk: Bytes)
    requires d.delivered == c.delivered && d.chunks == c.chunks + [chunk]
    ensures |Stream(d)| == |Stream(c)| + |chunk|
  {
    FlatAppend(c.chunks, [chunk]);
    FlatOne(chunk);
  }

  lemma {:induction false} LosesTimes(origin: Origin, s: State, k: Key, b: nat, chunk: Bytes, n: nat)
    returns (events: seq<Event>, t: State)
    requires Spoilt(s, k, b, chunk) && Opens(origin(k), chunk) && k != ""
    ensures LeadsTo(origin, s, events, t) && Spoilt(t, k, b, chunk) && |Stream(Group(t, k)[0])| >= n
  {
    hide LeadsTo, Full, Opens, Stream;
    if n == 0 {
      events, t := [], s;
      NoneLeads(origin, s);
    } else {
      var before, u := LosesTimes(origin, s, k, b, chunk, n - 1);
      var more, v := LosesAgain(origin, u, k, b, chunk);
      ThenLeads(origin, s, before, u, more, v);
      events, t := before + more, v;
      assert |chunk| > 0 by { OpensLength(origin(k), chunk); }
    }
  }

  lemma NoneLeads(origin: Origin, s: State)
    ensures LeadsTo(origin, s, [], s)
  {
  }

  lemma OpensLength(resp: Bytes, chunk: Bytes)
    requires Opens(resp, chunk)
    ensures |chunk| >= 12
  {
  }

  // ----- what is queued is sent -----

  lemma SendsFront(origin: Origin, s: State, k: Key) returns (t: State)
    requires Listed(s, k, 0) && FromQueue(Group(s, k)[0]) && Group(s, k)[0].chunks != []
    ensures LeadsTo(origin, s, [Writable(k, 0, |Group(s, k)[0].chunks[0]|)], t)
    ensures Listed(t, k, 0) && FromQueue(Group(t, k)[0]) && Group(t, k)[0].chunks == Group(s, k)[0].chunks[1..]
    ensures Stream(Group(t, k)[0]) == Stream(Group(s, k)[0])
  {
    var c := Group(s, k)[0];
    var e := Writable(k, 0, |c.chunks[0]|);
    t := Send(s, k, 0, |c.chunks[0]|);
    assert c.chunks[0][..|c.chunks[0]|] == c.chunks[0] && [] + c.chunks[1..] == c.chunks[1..];
    EnabledHappens(origin, s, e);
    OneLeads(origin, s, e);
  }

  lemma {:induction false} SendsAll(origin: Origin, s: State, k: Key) returns (events: seq<Event>, t: State)
    requires Listed(s, k, 0) && FromQueue(Group(s, k)[0])
    ensures LeadsTo(origin, s, events, t)
    ensures Listed(t, k, 0) && Group(t, k)[0].delivered == Stream(Group(s, k)[0])
    decreases |Group(s, k)[0].chunks|
  {
    hide LeadsTo;
    var c := Group(s, k)[0];
    if c.chunks == [] {
      events, t := [], s;
      NoneLeads(origin, s);
    } else {
      var u := SendsFront(origin, s, k);
      var more, v := SendsAll(origin, u, k);
      events, t := [Writable(k, 0, |c.chunks[0]|)] + more, v;
      ThenLeads(origin, s, [Writable(k, 0, |c.chunks[0]|)], u, more, v);
    }
  }

  // ----- the whole story -----

  /** A client of the request has been sent more bytes than its response has. */
  ghost predicate SentTooMuch(origin: Origin, s: State, k: Key) {
    exists j :: 0 <= j < |Group(s, k)| && |Group(s, k)[j].delivered| > |origin(k)|
  }

  lemma LossFacts(origin: Origin, s: State, k: Key, i: nat, chunk: Bytes)
    requires Inv(origin, s) && Listed(s, k, i) && Group(s, k)[i].phase == WaitingStatus
    requires Receives(origin(k), Group(s, k)[i], chunk) && StatusReadable(chunk) && IsOk(chunk)
    requires !FirstChunkFits(s, k, chunk)
    ensures Gathering(Group(s, k)) && Full(s, k, chunk) && Opens(origin(k), chunk) && k != ""
    ensures |Group(s, k)| >= 2 && Group(s, k)[i].server == Some(0)
  {
    GatheringFacts(origin, s, k, i, chunk);
  }

  /** Client `j` gets no status, and everyone who waits can be connected. */
  lemma NoStatusSpoils(origin: Origin, s: State, k: Key, j: nat, chunk: Bytes) returns (events: seq<Event>, t: State)
    requires Full(s, k, chunk) && FedBefore(Group(s, k), j)
    ensures LeadsTo(origin, s, events, t) && Spoilt(t, k, 2, chunk)
  {
    hide LeadsTo, Sound, Lookup, DisuseEntry, CanHappen, Happened, PrepareWaiting, WithoutClient, StatusFailed,
      FedAmong;
    var sent, u := RequestGoes(origin, s, k, j);
    LeavesFed(Group(s, k), j, Group(u, k)[j]);
    var e := NoStatus(k, j, |Group(s, k)|);
    assert AllReached(Group(u, k), |Group(s, k)|);
    t := StatusFailed(u, k, j);
    LossLeaves(u, k, j);
    AbsentDisuse(u.cache, k);
    EnabledHappens(origin, u, e);
    OneLeads(origin, u, e);
    events := sent + [e];
    ThenLeads(origin, s, sent, u, [e], t);
  }

  /** An unsafe loss leads, at once or after a client without a status, to somebody who is fed among others who fetch
      for themselves. */
  lemma UnsafeSpoils(origin: Origin, s: State, k: Key, i: nat, chunk: Bytes, reach: nat, again: nat)
    returns (events: seq<Event>, t: State, b: nat)
    requires Inv(origin, s) && Listed(s, k, i) && Group(s, k)[i].phase == WaitingStatus
    requires Receives(origin(k), Group(s, k)[i], chunk) && StatusReadable(chunk) && IsOk(chunk)
    requires !FirstChunkFits(s, k, chunk) && !LossSafe(Group(s, k), i, again)
    ensures LeadsTo(origin, s, [Status(k, i, chunk, reach, again)] + events, t) && Spoilt(t, k, b, chunk)
  {
    hide Inv, LeadsTo, Full, Opens, AfterLoss, CanHappen, Happened, FirstChunkFits, StatusReadable, IsOk, Receives,
      Gathering, Lost, Opened, PrepareBefore, AllReached, FedAmong, FedBefore;
    var g, e := Group(s, k), Status(k, i, chunk, reach, again);
    LossFacts(origin, s, k, i, chunk);
    if AllReached(Lost(Opened(g, i, |chunk|), chunk), again) {
      LossHappens(origin, s, k, i, chunk, reach, again);
      events, t, b := [], Happened(origin, s, e), if i < 2 then 1 else 2;
      FirstLoss(g, i, chunk);
      assert [e] + [] == [e];
    } else {
      LossStays(origin, s, k, i, chunk, reach, again);
      var u := Happened(origin, s, e);
      var j := StayedLoss(g, i, chunk, again);
      b := 2;
      events, t := NoStatusSpoils(origin, u, k, j, chunk);
      OneLeads(origin, s, e);
      ThenLeads(origin, s, [e], u, events, t);
      return;
    }
    OneLeads(origin, s, e);
  }

  /** An unsafe loss of a first chunk is never without harm, whoever can be connected: it can go on so that a client is
      sent more than the whole response. */
  lemma UnsafeLossShows(origin: Origin, s: State, k: Key, i: nat, chunk: Bytes, reach: nat, again: nat)
    requires Inv(origin, s) && Listed(s, k, i) && Group(s, k)[i].phase == WaitingStatus
    requires Receives(origin(k), Group(s, k)[i], chunk) && StatusReadable(chunk) && IsOk(chunk)
    requires !StatusSafe(s, k, i, chunk, reach, again)
    ensures exists events, t :: LeadsTo(origin, s, [Status(k, i, chunk, reach, again)] + events, t)
                                && SentTooMuch(origin, t, k)
  {
    hide Inv, LeadsTo, Full, Opens, Stream, FirstChunkFits, LossSafe, StatusReadable, IsOk, Receives;
    LossFacts(origin, s, k, i, chunk);
    var e := Status(k, i, chunk, reach, again);
    var first, t, b := UnsafeSpoils(origin, s, k, i, chunk, reach, again);
    var losses, u := LosesTimes(origin, t, k, b, chunk, |origin(k)| + 1);
    var sends, v := SendsAll(origin, u, k);
    ThenLeads(origin, t, losses, u, sends, v);
    ThenLeads(origin, s, [e] + first, t, losses + sends, v);
    assert [e] + first + (losses + sends) == [e] + (first + (losses + sends));
    assert SentTooMuch(origin, v, k);
  }

  // ----- when it can come to that -----

  ghost predicate CanSendTooMuch(origin: Origin, s: State) {
    exists events, t, k :: LeadsTo(origin, s, events, t) && SentTooMuch(origin, t, k)
  }

  /** A status can be read that is not safe. */
  ghost predicate CanReadUnsafely(origin: Origin, s: State) {
    exists events, t, e :: LeadsTo(origin, s, events, t) && CanHappen(origin, t, e) && !Enabled(origin, t, e)
  }

  /** The first of these events that is not enabled, or the invariant holds after them all. */
  lemma {:induction false} FirstUnsafe(origin: Origin, s: State, events: seq<Event>, t: State)
    returns (before: seq<Event>, u: State, e: Event)
    requires Inv(origin, s) && LeadsTo(origin, s, events, t)
    ensures Inv(origin, t)
            || (LeadsTo(origin, s, before, u) && Inv(origin, u) && CanHappen(origin, u, e) && !Enabled(origin, u, e))
    decreases |events|
  {
    hide Inv, CanHappen, Enabled, Happened, Next;
    before, u, e := [], s, Accept;
    if events != [] {
      e := events[0];
      if Enabled(origin, s, e) {
        EnabledHappens(origin, s, e);
        NextKeeps(origin, s, e);
        var v := Next(origin, s, e);
        var rest;
        rest, u, e := FirstUnsafe(origin, v, events[1..], t);
        OneLeads(origin, s, events[0]);
        before := [events[0]] + rest;
        if LeadsTo(origin, v, rest, u) {
          ThenLeads(origin, s, [events[0]], v, rest, u);
        }
      } else {
        NoneLeads(origin, s);
      }
    }
  }

  lemma NothingTooMuch(origin: Origin, s: State, k: Key)
    requires Inv(origin, s)
    ensures !SentTooMuch(origin, s, k)
  {
    assert KeyInv(origin, s, k);
    hide GroupInv, Lookup, Inv;
    forall j | 0 <= j < |Group(s, k)|
      ensures |Group(s, k)[j].delivered| <= |origin(k)|
    {
      DeliveredPart(origin(k), Group(s, k), Lookup(s.cache, k), j);
    }
  }

  lemma UnsafeStatus(origin: Origin, s: State, e: Event)
    requires Inv(origin, s) && CanHappen(origin, s, e) && !Enabled(origin, s, e) && IsOk(origin(About(e)))
    ensures CanSendTooMuch(origin, s)
  {
    var k, i, chunk := e.key, e.i, e.chunk;
    assert KeyInv(origin, s, k);
    FetchingGroup(origin(k), Group(s, k), Lookup(s.cache, k), i);
    OkPrefix(origin(k), Group(s, k)[i], chunk);
    hide Inv, LeadsTo, SentTooMuch, StatusSafe, StatusReadable, IsOk, Receives;
    UnsafeLossShows(origin, s, k, i, chunk, e.reach, e.again);
  }

  /** A client can be sent more than its whole response only if a status can be read that is not safe; where every
      response has status 200, if and only if. */
  lemma TooMuchIff(origin: Origin, s: State)
    requires Inv(origin, s)
    ensures CanSendTooMuch(origin, s) ==> CanReadUnsafely(origin, s)
    ensures (forall k :: IsOk(origin(k))) ==> (CanSendTooMuch(origin, s) <==> CanReadUnsafely(origin, s))
  {
    hide Inv, LeadsTo, SentTooMuch, CanHappen, Enabled, IsOk;
    if CanSendTooMuch(origin, s) {
      var events, t, k :| LeadsTo(origin, s, events, t) && SentTooMuch(origin, t, k);
      if Inv(origin, t) {
        NothingTooMuch(origin, t, k);
      }
      var before, u, e := FirstUnsafe(origin, s, events, t);
    }
    if CanReadUnsafely(origin, s) && forall k :: IsOk(origin(k)) {
      var events, t, e :| LeadsTo(origin, s, events, t) && CanHappen(origin, t, e) && !Enabled(origin, t, e);
      var before, u, d := FirstUnsafe(origin, s, events, t);
      if Inv(origin, t) {
        before, u, d := events, t, e;
      }
      UnsafeStatus(origin, u, d);
      var more, v, k :| LeadsTo(origin, u, more, v) && SentTooMuch(origin, v, k);
      ThenLeads(origin, s, before, u, more, v);
    }
  }
}
