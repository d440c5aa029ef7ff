/** What the end of a response and room on a socket lead to: bytes move, and whoever has nothing more to wait for leaves
    as done. */
module SharingProgress {
  import opened Wrappers
  import opened CacheSpec
  import opened Sharing
  import opened SharingInvariant
  import opened SharingSteps
  import opened SharingTheorems
  import Loss = SharingLoss

  // ----- one send -----

  /** Sending from the entry: the client gets the next bytes of it, as many as there are, as fit, and 1024 at most. */
  lemma CachedSend(s: State, k: Key, i: nat, room: nat, m: nat)
    requires Sound(s.cache) && Listed(s, k, i) && Contains(s.cache, k)
    requires var c, e := Group(s, k)[i], Lookup(s.cache, k).value;
             && c.readCache && c.sent < |e.buffer|
             && m <= room && m <= |e.buffer| - c.sent && m <= 1024
             && (m == room || m == |e.buffer| - c.sent || m == 1024)
    ensures var c, e, t := Group(s, k)[i], Lookup(s.cache, k).value, Send(s, k, i, room);
            && Group(t, k) == Group(s, k)[i := c.(sent := c.sent + m,
                                                  delivered := c.delivered + e.buffer[c.sent..c.sent + m])]
            && Sound(t.cache) && Lookup(t.cache, k) == Some(e) && t.finished == s.finished
  {
    hide Lookup, Sound, Touch;
    var c, e := Group(s, k)[i], Lookup(s.cache, k).value;
    var touched := s.(cache := Touch(s.cache, k));
    TouchEffect(s.cache, k);
    TouchEffect(touched.cache, k);
    var offer := Min(|e.buffer| - c.sent, MAX_CHUNK_SIZE);
    assert Offered(s, k, i) == e.buffer[c.sent..c.sent + offer] && Min(room, offer) == m;
    assert e.buffer[c.sent..c.sent + offer][..m] == e.buffer[c.sent..c.sent + m];
  }

  /** And the entry becomes the most recently used one. */
  lemma SendTouches(s: State, k: Key, i: nat, room: nat)
    requires Sound(s.cache) && Listed(s, k, i) && Contains(s.cache, k) && Group(s, k)[i].readCache
    requires Group(s, k)[i].sent < |Lookup(s.cache, k).value.buffer| || !Lookup(s.cache, k).value.completed
    ensures var items := Send(s, k, i, room).cache.items;
            items != [] && items[|items| - 1] == Item(k, Lookup(s.cache, k).value)
  {
    TouchEffect(s.cache, k);
    TouchLast(s.cache, k);
    TouchLast(Touch(s.cache, k), k);
    hide Lookup, Touch, Sound;
  }

  lemma TouchLast(s: Store, k: Key)
    requires Contains(s, k)
    ensures Touch(s, k).items == Without(s.items, k) + [Item(k, Lookup(s, k).value)]
  {
  }

  /** Sending from the queue: the client gets the front chunk, or as much of it as fits. */
  lemma QueueSend(s: State, k: Key, i: nat, room: nat)
    requires Listed(s, k, i) && !Group(s, k)[i].readCache && Group(s, k)[i].chunks != []
    ensures var c, t := Group(s, k)[i], Send(s, k, i, room);
            var d := if room >= |c.chunks[0]|
                     then c.(sent := c.sent + |c.chunks[0]|, delivered := c.delivered + c.chunks[0],
                             chunks := c.chunks[1..])
                     else c.(sent := c.sent + room, delivered := c.delivered + c.chunks[0][..room],
                             chunks := [c.chunks[0][room..]] + c.chunks[1..]);
            Group(t, k) == Group(s, k)[i := d] && t.cache == s.cache && t.finished == s.finished
  {
    var c := Group(s, k)[i];
    assert c.chunks[0][..|c.chunks[0]|] == c.chunks[0] && [] + c.chunks[1..] == c.chunks[1..];
  }

  /** The client has all that it will ever get to read: the response has been received to its end. */
  ghost predicate Final(s: State, k: Key, i: nat) {
    && Listed(s, k, i) && Group(s, k)[i].phase == GotResponse
    && (Group(s, k)[i].readCache ==> Contains(s.cache, k) && Lookup(s.cache, k).value.completed)
  }

  ghost predicate AllFinal(s: State, k: Key) {
    forall i :: 0 <= i < |Group(s, k)| ==> Final(s, k, i)
  }

  /** What is still to be sent: bytes of the entry, or bytes and chunks of the queue. */
  ghost function Owed(c: Client, e: Option<Entry>): nat {
    if !c.readCache then |Flat(c.chunks)| + |c.chunks|
    else if e.Some? && c.sent < |e.value.buffer| then |e.value.buffer| - c.sent
    else 0
  }

  ghost function Record(origin: Origin, k: Key, c: Client): Finished {
    Finished(k, if c.base <= |origin(k)| then origin(k)[c.base..] else "", c.base)
  }

  lemma ShorterQueue(chunks: seq<Bytes>, room: nat)
    requires chunks != [] && 0 < room
    ensures |Flat(chunks[1..])| + |chunks[1..]| < |Flat(chunks)| + |chunks|
    ensures room < |chunks[0]| ==>
              var rest := [chunks[0][room..]] + chunks[1..];
              |Flat(rest)| + |rest| < |Flat(chunks)| + |chunks|
  {
    if room < |chunks[0]| {
      var rest := [chunks[0][room..]] + chunks[1..];
      assert rest[1..] == chunks[1..];
    }
  }

  /** With room, somebody who has all there is gets some of what he is owed, or leaves as done with all of it; the
      others stay as they are. */
  ghost predicate Served(origin: Origin, s: State, t: State, k: Key, i: nat)
    requires Listed(s, k, i)
  {
    var c, e := Group(s, k)[i], Lookup(s.cache, k);
    if Owed(c, e) == 0 then
      && t.finished == s.finished + [Record(origin, k, c)]
      && Group(t, k) == WithoutClient(Group(s, k), i)
      && (Lookup(t.cache, k) == e
          || (e.Some? && Lookup(t.cache, k) == Some(e.value.(inUse := e.value.inUse - 1))))
    else
      && t.finished == s.finished && |Group(t, k)| == |Group(s, k)|
      && (forall j :: 0 <= j < |Group(s, k)| && j != i ==> Group(t, k)[j] == Group(s, k)[j])
      && Lookup(t.cache, k) == e
      && var d := Group(t, k)[i];
         && d.base == c.base && d.phase == c.phase && d.readCache == c.readCache
         && Owed(d, e) < Owed(c, e)
  }

  lemma CachedServed(origin: Origin, s: State, k: Key, i: nat, room: nat)
    requires Inv(origin, s) && Final(s, k, i) && Group(s, k)[i].readCache && room > 0
    ensures Served(origin, s, Send(s, k, i, room), k, i)
  {
    hide Sound, Lookup, KeyInv, Send, Served, GroupInv;
    if Group(s, k)[i].sent < |Lookup(s.cache, k).value.buffer| {
      CachedGets(origin, s, k, i, room);
    } else {
      CachedLeaves(origin, s, k, i, room);
    }
  }

  lemma CachedGets(origin: Origin, s: State, k: Key, i: nat, room: nat)
    requires Sound(s.cache) && Final(s, k, i) && Group(s, k)[i].readCache && room > 0
    requires Group(s, k)[i].sent < |Lookup(s.cache, k).value.buffer|
    ensures Served(origin, s, Send(s, k, i, room), k, i)
  {
    hide Sound, Lookup, Send, Record, WithoutClient;
    var left := |Lookup(s.cache, k).value.buffer| - Group(s, k)[i].sent;
    var m := if room <= left && room <= 1024 then room else if left <= 1024 then left else 1024;
    CachedSend(s, k, i, room, m);
  }

  lemma CachedLeaves(origin: Origin, s: State, k: Key, i: nat, room: nat)
    requires Inv(origin, s) && Final(s, k, i) && Group(s, k)[i].readCache
    requires Owed(Group(s, k)[i], Lookup(s.cache, k)) == 0
    ensures Served(origin, s, Send(s, k, i, room), k, i)
  {
    assert KeyInv(origin, s, k);
    DoneDelivered(origin(k), Group(s, k), Lookup(s.cache, k), i);
    var touched := s.(cache := Touch(s.cache, k));
    TouchEffect(s.cache, k);
    DisuseEffect(touched.cache, k);
    hide Inv, KeyInv, Sound, Lookup, Touch, DisuseEntry, WithoutClient, HandOver;
    assert Send(s, k, i, room) == Finish(touched, k, i);
  }

  lemma QueueServed(origin: Origin, s: State, k: Key, i: nat, room: nat)
    requires Inv(origin, s) && Final(s, k, i) && !Group(s, k)[i].readCache && room > 0
    ensures Served(origin, s, Send(s, k, i, room), k, i)
  {
    var c := Group(s, k)[i];
    if c.chunks != [] {
      QueueSend(s, k, i, room);
      ShorterQueue(c.chunks, room);
      hide Inv, Lookup, Send, Flat;
    } else {
      assert KeyInv(origin, s, k);
      assert Flat([]) == "";
      DoneDelivered(origin(k), Group(s, k), Lookup(s.cache, k), i);
      NotReading(origin(k), Group(s, k), Lookup(s.cache, k), i);
      Loss.AbsentDisuse(s.cache, k);
      hide Inv, KeyInv, Lookup, DisuseEntry, WithoutClient, HandOver;
      assert Send(s, k, i, room) == Finish(s, k, i);
    }
  }

  lemma SendServes(origin: Origin, s: State, k: Key, i: nat, room: nat)
    requires Inv(origin, s) && Final(s, k, i) && room > 0
    ensures Served(origin, s, Send(s, k, i, room), k, i)
  {
    hide Inv, Send, Served, Final;
    assert Listed(s, k, i) by { FinalListed(s, k, i); }
    if Group(s, k)[i].readCache {
      CachedServed(origin, s, k, i, room);
    } else {
      QueueServed(origin, s, k, i, room);
    }
  }

  lemma FinalListed(s: State, k: Key, i: nat)
    requires Final(s, k, i)
    ensures Listed(s, k, i) && Group(s, k)[i].phase == GotResponse
  {
  }

  // ----- any sends, in any order -----

  /** What is still to be sent to all of them, and one more for each who is to leave. */
  ghost function Total(g: seq<Client>, e: Option<Entry>): nat {
    if g == [] then 0 else Owed(g[0], e) + 1 + Total(g[1..], e)
  }

  ghost function Records(origin: Origin, k: Key, g: seq<Client>): (r: seq<Finished>)
    ensures |r| == |g|
  {
    seq(|g|, i requires 0 <= i < |g| => Record(origin, k, g[i]))
  }

  lemma {:induction false} TotalConcat(a: seq<Client>, b: seq<Client>, e: Option<Entry>)
    ensures Total(a + b, e) == Total(a, e) + Total(b, e)
  {
    hide Owed;
    if a == [] {
      assert a + b == b;
    } else {
      TotalConcat(a[1..], b, e);
      assert (a + b)[1..] == a[1..] + b;
    }
  }

  lemma TotalSplit(g: seq<Client>, i: nat, e: Option<Entry>)
    requires i < |g|
    ensures Total(g, e) == Total(WithoutClient(g, i), e) + Owed(g[i], e) + 1
    ensures forall c :: Total(g[i := c], e) == Total(WithoutClient(g, i), e) + Owed(c, e) + 1
  {
    hide Owed;
    TotalConcat(g[..i], g[i + 1..], e);
    TotalAt(g, i, g[i], e);
    assert g[i := g[i]] == g;
    forall c
      ensures Total(g[i := c], e) == Total(WithoutClient(g, i), e) + Owed(c, e) + 1
    {
      TotalAt(g, i, c, e);
    }
  }

  lemma TotalAt(g: seq<Client>, i: nat, c: Client, e: Option<Entry>)
    requires i < |g|
    ensures Total(g[i := c], e) == Total(g[..i], e) + Owed(c, e) + 1 + Total(g[i + 1..], e)
  {
    hide Owed;
    assert g[i := c] == g[..i] + ([c] + g[i + 1..]);
    TotalConcat(g[..i], [c] + g[i + 1..], e);
    assert ([c] + g[i + 1..])[1..] == g[i + 1..];
  }

  lemma {:induction false} TotalUsers(g: seq<Client>, e: Entry, n: int)
    ensures Total(g, Some(e.(inUse := n))) == Total(g, Some(e))
  {
    if g != [] {
      TotalUsers(g[1..], e, n);
    }
  }

  lemma RecordLeaves(origin: Origin, k: Key, g: seq<Client>, i: nat)
    requires i < |g|
    ensures multiset(Records(origin, k, g))
            == multiset([Record(origin, k, g[i])]) + multiset(Records(origin, k, WithoutClient(g, i)))
  {
    var r, a, b := Records(origin, k, g), Records(origin, k, g[..i]), Records(origin, k, g[i + 1..]);
    var c := Record(origin, k, g[i]);
    hide Record;
    assert r == a + [c] + b;
    assert Records(origin, k, WithoutClient(g, i)) == a + b;
  }

  /** Nothing is lost or left twice, and less is to be sent. */
  ghost predicate Closer(origin: Origin, s: State, t: State, k: Key) {
    && AllFinal(t, k) && s.finished <= t.finished
    && Total(Group(t, k), Lookup(t.cache, k)) < Total(Group(s, k), Lookup(s.cache, k))
    && multiset(Records(origin, k, Group(s, k)))
       == multiset(t.finished[|s.finished|..]) + multiset(Records(origin, k, Group(t, k)))
  }

  lemma ServedCloser(origin: Origin, s: State, t: State, k: Key, i: nat)
    requires AllFinal(s, k) && Listed(s, k, i) && Served(origin, s, t, k, i)
    ensures Closer(origin, s, t, k)
  {
    hide AllFinal, Closer, Owed, Lookup, Record;
    if Owed(Group(s, k)[i], Lookup(s.cache, k)) == 0 {
      LeftCloser(origin, s, t, k, i);
    } else {
      StaysCloser(origin, s, t, k, i);
    }
  }

  lemma LeftCloser(origin: Origin, s: State, t: State, k: Key, i: nat)
    requires AllFinal(s, k) && Listed(s, k, i) && Group(t, k) == WithoutClient(Group(s, k), i)
    requires t.finished == s.finished + [Record(origin, k, Group(s, k)[i])]
    requires var e := Lookup(s.cache, k);
             Lookup(t.cache, k) == e
             || (e.Some? && Lookup(t.cache, k) == Some(e.value.(inUse := e.value.inUse - 1)))
    ensures Closer(origin, s, t, k)
  {
    hide Lookup, Total, Records, WithoutClient, Final, Record, Owed, AllFinal;
    var g, e := Group(s, k), Lookup(s.cache, k);
    TotalSplit(g, i, e);
    RecordLeaves(origin, k, g, i);
    if Lookup(t.cache, k) != e {
      TotalUsers(WithoutClient(g, i), e.value, e.value.inUse - 1);
    }
    assert AllFinal(t, k) by { StillFinal(s, t, k, i); }
    assert t.finished[|s.finished|..] == [Record(origin, k, g[i])];
  }

  lemma StaysCloser(origin: Origin, s: State, t: State, k: Key, i: nat)
    requires AllFinal(s, k) && Listed(s, k, i) && |Group(t, k)| == |Group(s, k)| && t.finished == s.finished
    requires forall j :: 0 <= j < |Group(s, k)| && j != i ==> Group(t, k)[j] == Group(s, k)[j]
    requires Lookup(t.cache, k) == Lookup(s.cache, k)
    requires var c, d := Group(s, k)[i], Group(t, k)[i];
             && d.base == c.base && d.phase == c.phase && d.readCache == c.readCache
             && Owed(d, Lookup(s.cache, k)) < Owed(c, Lookup(s.cache, k))
    ensures Closer(origin, s, t, k)
  {
    hide Lookup, Total, Owed;
    var g, h, e := Group(s, k), Group(t, k), Lookup(s.cache, k);
    TotalSplit(g, i, e);
    assert h == g[i := h[i]];
    assert Records(origin, k, h) == Records(origin, k, g);
    assert t.finished[|s.finished|..] == [];
    hide Records, WithoutClient;
    forall j | 0 <= j < |h|
      ensures Final(t, k, j)
    {
      assert Final(s, k, j);
    }
  }

  lemma StillFinal(s: State, t: State, k: Key, i: nat)
    requires AllFinal(s, k) && Listed(s, k, i) && Group(t, k) == WithoutClient(Group(s, k), i)
    requires Contains(s.cache, k) && Lookup(s.cache, k).value.completed
             ==> Contains(t.cache, k) && Lookup(t.cache, k).value.completed
    ensures AllFinal(t, k)
  {
    hide Lookup;
    forall j | 0 <= j < |Group(t, k)|
      ensures Final(t, k, j)
    {
      CameFrom(Group(s, k), i, j);
      assert Final(s, k, if j < i then j else j + 1);
    }
  }

  /** A send about `k`, with room. */
  ghost predicate SendsTo(e: Event, k: Key) {
    e.Writable? && e.key == k && e.room > 0
  }

  ghost predicate AllSendTo(events: seq<Event>, k: Key) {
    forall n :: 0 <= n < |events| ==> SendsTo(events[n], k)
  }

  lemma SendCloser(origin: Origin, s: State, e: Event, k: Key)
    requires Inv(origin, s) && AllFinal(s, k) && SendsTo(e, k) && Loss.CanHappen(origin, s, e)
    ensures Inv(origin, Loss.Happened(origin, s, e)) && Closer(origin, s, Loss.Happened(origin, s, e), k)
  {
    hide Inv, Send, Served, Final, Closer;
    assert Final(s, k, e.i);
    SendServes(origin, s, k, e.i, e.room);
    ServedCloser(origin, s, Send(s, k, e.i, e.room), k, e.i);
    NextKeeps(origin, s, e);
  }

  lemma CloserThen(origin: Origin, s: State, t: State, u: State, k: Key)
    requires Closer(origin, s, t, k) && Nearer(origin, t, u, k)
    ensures Closer(origin, s, u, k)
  {
    hide AllFinal, Total, Records, Lookup, Group;
    if u != t {
      LogThen(s.finished, t.finished, u.finished);
    }
  }

  lemma LogThen(a: seq<Finished>, b: seq<Finished>, c: seq<Finished>)
    requires a <= b <= c
    ensures a <= c && multiset(c[|a|..]) == multiset(b[|a|..]) + multiset(c[|b|..])
  {
    assert c[|a|..] == b[|a|..] + c[|b|..];
  }

  /** The same after any number of sends. */
  ghost predicate Nearer(origin: Origin, s: State, t: State, k: Key) {
    (t == s && AllFinal(s, k)) || Closer(origin, s, t, k)
  }

  /** Once there is nothing more to receive, sends with room can follow each other in any order, but only so often; no
      client is lost or recorded twice, and each record is that of the client's whole stream. */
  lemma {:induction false} AnySends(origin: Origin, s: State, k: Key, events: seq<Event>, t: State)
    requires Inv(origin, s) && AllFinal(s, k) && AllSendTo(events, k) && Loss.LeadsTo(origin, s, events, t)
    ensures Inv(origin, t) && Nearer(origin, s, t, k)
    ensures |events| + Total(Group(t, k), Lookup(t.cache, k)) <= Total(Group(s, k), Lookup(s.cache, k))
    decreases |events|
  {
    hide Inv, AllFinal, Closer, Total, Lookup, Loss.CanHappen, Loss.Happened, SendsTo;
    if events != [] {
      var u := Loss.Happened(origin, s, events[0]);
      assert SendsTo(events[0], k);
      SendCloser(origin, s, events[0], k);
      CloserFacts(origin, s, u, k);
      AnySends(origin, u, k, events[1..], t);
      CloserThen(origin, s, u, t, k);
    }
  }

  lemma CloserFacts(origin: Origin, s: State, t: State, k: Key)
    requires Closer(origin, s, t, k)
    ensures AllFinal(t, k) && Total(Group(t, k), Lookup(t.cache, k)) < Total(Group(s, k), Lookup(s.cache, k))
  {
  }

  /** And they can go on, whatever room there is, until everyone has left as done. */
  lemma {:induction false} EveryoneFinishes(origin: Origin, s: State, k: Key, room: nat)
    returns (events: seq<Event>, t: State)
    requires Inv(origin, s) && AllFinal(s, k) && room > 0
    ensures AllSendTo(events, k) && Loss.LeadsTo(origin, s, events, t) && Group(t, k) == []
    ensures s.finished <= t.finished
    ensures multiset(t.finished[|s.finished|..]) == multiset(Records(origin, k, Group(s, k)))
    decreases Total(Group(s, k), Lookup(s.cache, k))
  {
    hide Inv, AllFinal, Final, Total, Lookup, Loss.LeadsTo, Loss.CanHappen, Loss.Happened, Served;
    if Group(s, k) == [] {
      events, t := [], s;
      Loss.NoneLeads(origin, s);
      assert t.finished[|s.finished|..] == [] && Records(origin, k, []) == [];
    } else {
      var e := Writable(k, 0, room);
      SendHappens(origin, s, k, room);
      SendCloser(origin, s, e, k);
      var u := Loss.Happened(origin, s, e);
      CloserFacts(origin, s, u, k);
      var more, v := EveryoneFinishes(origin, u, k, room);
      Loss.OneLeads(origin, s, e);
      events, t := [e] + more, v;
      Loss.ThenLeads(origin, s, [e], u, more, v);
      hide Records;
      assert v.finished[|s.finished|..] == u.finished[|s.finished|..] + v.finished[|u.finished|..];
    }
  }

  lemma SendHappens(origin: Origin, s: State, k: Key, room: nat)
    requires AllFinal(s, k) && Group(s, k) != [] && room > 0
    ensures Loss.CanHappen(origin, s, Writable(k, 0, room)) && SendsTo(Writable(k, 0, room), k)
  {
    assert Final(s, k, 0);
  }

  // ----- the end of a response -----

  /** At the end of a response that is broadcast or cached, everyone of the request has got it. */
  lemma EndForAll(origin: Origin, s: State, k: Key, i: nat)
    requires Inv(origin, s) && Enabled(origin, s, Eof(k, i))
    requires Group(s, k)[i].writeAll || Group(s, k)[i].writeCache
    ensures var t := Next(origin, s, Eof(k, i));
            && |Group(t, k)| == |Group(s, k)|
            && (forall j :: 0 <= j < |Group(s, k)| ==> Group(t, k)[j] == Group(s, k)[j].(phase := GotResponse))
            && AllFinal(t, k)
  {
    assert KeyInv(origin, s, k);
    var g := Group(s, k);
    if Contains(s.cache, k) {
      CachedEnd(origin, s, k, i);
    } else {
      UncachedEof(origin(k), g, i);
      NotReading(origin(k), g, None, i);
      assert forall j :: 0 <= j < |g| ==> !g[j].readCache;
      hide GroupInv, Inv, KeyInv, Lookup;
    }
  }

  lemma ReadersAtEnd(resp: Bytes, g: seq<Client>, e: Entry, i: nat)
    requires Cached(resp, g, e) && i < |g| && g[i].phase == WaitingResponse
    ensures g[i].writeCache && forall j :: 0 <= j < |g| && j != i ==> g[j].phase == GotResponse
  {
    assert Reader(g[i], e);
    forall j | 0 <= j < |g| && j != i
      ensures g[j].phase == GotResponse
    {
      assert Reader(g[j], e);
    }
  }

  lemma CachedEnd(origin: Origin, s: State, k: Key, i: nat)
    requires Inv(origin, s) && Enabled(origin, s, Eof(k, i)) && Contains(s.cache, k)
    ensures var t := Next(origin, s, Eof(k, i));
            && |Group(t, k)| == |Group(s, k)|
            && (forall j :: 0 <= j < |Group(s, k)| ==> Group(t, k)[j] == Group(s, k)[j].(phase := GotResponse))
            && AllFinal(t, k)
  {
    assert KeyInv(origin, s, k);
    ReadersAtEnd(origin(k), Group(s, k), Lookup(s.cache, k).value, i);
    CompleteEffect(s.cache, k);
    hide GroupInv, Inv, KeyInv, Lookup, Complete, Sound, Cached;
  }

  /** At the end of a response that is the client's alone, the client has got it, and nobody else is touched. */
  lemma EndForOne(origin: Origin, s: State, k: Key, i: nat)
    requires Inv(origin, s) && Enabled(origin, s, Eof(k, i))
    requires !Group(s, k)[i].writeAll && !Group(s, k)[i].writeCache
    ensures var t := Next(origin, s, Eof(k, i));
            Group(t, k) == Group(s, k)[i := Group(s, k)[i].(phase := GotResponse)] && Final(t, k, i)
  {
    assert KeyInv(origin, s, k);
    if Contains(s.cache, k) {
      assert Reader(Group(s, k)[i], Lookup(s.cache, k).value);
    }
    NotReading(origin(k), Group(s, k), Lookup(s.cache, k), i);
  }

  // ----- one client alone -----

  ghost function Sends(k: Key, i: nat, rooms: seq<nat>): (r: seq<Event>)
    ensures |r| == |rooms|
  {
    seq(|rooms|, n requires 0 <= n < |rooms| => Writable(k, i, rooms[n]))
  }

  ghost predicate AllRoom(rooms: seq<nat>) {
    forall n :: 0 <= n < |rooms| ==> rooms[n] > 0
  }

  /** Whoever has all there is to read leaves as done with his whole stream, before as many sends as he is owed and one
      more are over, however little room each finds. */
  lemma {:induction false} ClientFinishes(origin: Origin, s: State, k: Key, i: nat, rooms: seq<nat>)
    returns (n: nat, t: State)
    requires Inv(origin, s) && Final(s, k, i) && AllRoom(rooms)
    requires |rooms| > Owed(Group(s, k)[i], Lookup(s.cache, k))
    ensures n <= |rooms| && Loss.LeadsTo(origin, s, Sends(k, i, rooms[..n]), t)
    ensures Group(t, k) == WithoutClient(Group(s, k), i)
    ensures t.finished == s.finished + [Record(origin, k, Group(s, k)[i])]
    decreases |rooms|
  {
    hide Inv, Lookup, Owed, Loss.LeadsTo, Send, WithoutClient, Loss.CanHappen, Loss.Happened;
    var e := Writable(k, i, rooms[0]);
    var u := Send(s, k, i, rooms[0]);
    RoomHappens(origin, s, k, i, rooms[0]);
    SendServes(origin, s, k, i, rooms[0]);
    Loss.OneLeads(origin, s, e);
    if Owed(Group(s, k)[i], Lookup(s.cache, k)) == 0 {
      n, t := 1, u;
      assert Sends(k, i, rooms[..1]) == [e];
    } else {
      SendKeepsInv(origin, s, k, i, rooms[0]);
      var m, v := ClientFinishes(origin, u, k, i, rooms[1..]);
      n, t := m + 1, v;
      assert rooms[..n] == [rooms[0]] + rooms[1..][..m];
      assert Sends(k, i, rooms[..n]) == [e] + Sends(k, i, rooms[1..][..m]);
      Loss.ThenLeads(origin, s, [e], u, Sends(k, i, rooms[1..][..m]), v);
      SameRest(Group(s, k), Group(u, k), i);
    }
  }

  lemma SameRest(g: seq<Client>, h: seq<Client>, i: nat)
    requires i < |g| == |h| && forall j :: 0 <= j < |g| && j != i ==> h[j] == g[j]
    ensures WithoutClient(h, i) == WithoutClient(g, i)
  {
    assert h[..i] == g[..i] && h[i + 1..] == g[i + 1..];
  }

  lemma RoomHappens(origin: Origin, s: State, k: Key, i: nat, room: nat)
    requires Final(s, k, i)
    ensures Loss.CanHappen(origin, s, Writable(k, i, room))
    ensures Loss.Happened(origin, s, Writable(k, i, room)) == Send(s, k, i, room)
  {
  }

  lemma SendKeepsInv(origin: Origin, s: State, k: Key, i: nat, room: nat)
    requires Inv(origin, s) && Final(s, k, i)
    ensures Inv(origin, Send(s, k, i, room))
  {
    hide Inv, Send;
    NextKeeps(origin, s, Writable(k, i, room));
  }

  // ----- the whole story -----

  lemma RecordOf(origin: Origin, s: State, k: Key, i: nat)
    requires Inv(origin, s) && Listed(s, k, i)
    ensures var c := Group(s, k)[i];
            c.base <= |origin(k)| && Record(origin, k, c) == Finished(k, origin(k)[c.base..], c.base)
  {
    assert KeyInv(origin, s, k);
    DeliveredPart(origin(k), Group(s, k), Lookup(s.cache, k), i);
  }

  /** The origin ends a response that is cached or broadcast: with whatever room, sends can follow after which everyone
      who was listed has left as done with the response from his base to its end. */
  lemma EndFinishesEveryone(origin: Origin, s: State, k: Key, i: nat, room: nat) returns (events: seq<Event>, t: State)
    requires Inv(origin, s) && Enabled(origin, s, Eof(k, i)) && room > 0
    requires Group(s, k)[i].writeAll || Group(s, k)[i].writeCache
    ensures AllSendTo(events, k) && Loss.LeadsTo(origin, s, [Eof(k, i)] + events, t) && Group(t, k) == []
    ensures forall c :: c in Group(s, k) ==>
              c.base <= |origin(k)| && Finished(k, origin(k)[c.base..], c.base) in t.finished
  {
    hide Inv, Enabled, Next, AllFinal, Loss.LeadsTo, Loss.CanHappen, Loss.Happened, AllSendTo;
    var e := Eof(k, i);
    var u := Next(origin, s, e);
    EndForAll(origin, s, k, i);
    NextKeeps(origin, s, e);
    events, t := EveryoneFinishes(origin, u, k, room);
    Loss.EnabledHappens(origin, s, e);
    Loss.OneLeads(origin, s, e);
    Loss.ThenLeads(origin, s, [e], u, events, t);
    AllRecorded(origin, u, k, t);
    assert forall j :: 0 <= j < |Group(s, k)| ==> Group(u, k)[j].base == Group(s, k)[j].base;
  }

  lemma AllRecorded(origin: Origin, s: State, k: Key, t: State)
    requires Inv(origin, s) && s.finished <= t.finished
    requires multiset(t.finished[|s.finished|..]) == multiset(Records(origin, k, Group(s, k)))
    ensures forall j :: 0 <= j < |Group(s, k)| ==>
              var c := Group(s, k)[j];
              c.base <= |origin(k)| && Finished(k, origin(k)[c.base..], c.base) in t.finished
  {
    hide Inv, Record;
    var r, later := Records(origin, k, Group(s, k)), t.finished[|s.finished|..];
    forall j | 0 <= j < |Group(s, k)|
      ensures var c := Group(s, k)[j];
              c.base <= |origin(k)| && Finished(k, origin(k)[c.base..], c.base) in t.finished
    {
      RecordOf(origin, s, k, j);
      assert r[j] in multiset(r);
      assert r[j] in multiset(later) && r[j] in later;
    }
  }

  /** The origin ends a response that is the client's alone. */
  lemma EndFinishesOne(origin: Origin, s: State, k: Key, i: nat, rooms: seq<nat>) returns (n: nat, t: State)
    requires Inv(origin, s) && Enabled(origin, s, Eof(k, i)) && AllRoom(rooms)
    requires !Group(s, k)[i].writeAll && !Group(s, k)[i].writeCache
    requires |rooms| > |Flat(Group(s, k)[i].chunks)| + |Group(s, k)[i].chunks|
    ensures n <= |rooms| && Loss.LeadsTo(origin, s, [Eof(k, i)] + Sends(k, i, rooms[..n]), t)
    ensures Group(t, k) == WithoutClient(Group(s, k), i)
    ensures t.finished == s.finished + [Finished(k, origin(k), 0)]
  {
    var e := Eof(k, i);
    var u := Next(origin, s, e);
    EndForOne(origin, s, k, i);
    NextKeeps(origin, s, e);
    RecordOf(origin, u, k, i);
    AloneFacts(origin, s, k, i);
    Loss.EnabledHappens(origin, s, e);
    Loss.OneLeads(origin, s, e);
    hide Inv, Enabled, Next, Final, Loss.LeadsTo, Loss.CanHappen, Loss.Happened, Flat, Lookup, WithoutClient;
    n, t := ClientFinishes(origin, u, k, i, rooms);
    Loss.ThenLeads(origin, s, [e], u, Sends(k, i, rooms[..n]), t);
    SameRest(Group(s, k), Group(u, k), i);
  }

  lemma AloneFacts(origin: Origin, s: State, k: Key, i: nat)
    requires Inv(origin, s) && Enabled(origin, s, Eof(k, i))
    requires !Group(s, k)[i].writeAll && !Group(s, k)[i].writeCache
    ensures !Group(s, k)[i].readCache && Group(s, k)[i].base == 0
    ensures Next(origin, s, Eof(k, i)).finished == s.finished && origin(k)[0..] == origin(k)
  {
    assert KeyInv(origin, s, k);
    if Contains(s.cache, k) {
      assert Reader(Group(s, k)[i], Lookup(s.cache, k).value);
    }
    NotReading(origin(k), Group(s, k), Lookup(s.cache, k), i);
  }

  /** Whoever reads a complete entry leaves as done with the whole response. */
  lemma ReaderFinishes(origin: Origin, s: State, k: Key, i: nat, rooms: seq<nat>) returns (n: nat, t: State)
    requires Inv(origin, s) && Listed(s, k, i) && Contains(s.cache, k) && Lookup(s.cache, k).value.completed
    requires AllRoom(rooms) && |rooms| > |origin(k)|
    ensures n <= |rooms| && Loss.LeadsTo(origin, s, Sends(k, i, rooms[..n]), t)
    ensures Group(t, k) == WithoutClient(Group(s, k), i)
    ensures t.finished == s.finished + [Finished(k, origin(k), 0)]
  {
    CompleteFacts(origin, s, k, i);
    RecordOf(origin, s, k, i);
    hide Inv, Final, Loss.LeadsTo, Lookup, WithoutClient;
    n, t := ClientFinishes(origin, s, k, i, rooms);
  }

  lemma CompleteFacts(origin: Origin, s: State, k: Key, i: nat)
    requires Inv(origin, s) && Listed(s, k, i) && Contains(s.cache, k) && Lookup(s.cache, k).value.completed
    ensures Final(s, k, i) && Group(s, k)[i].base == 0 && origin(k)[0..] == origin(k)
    ensures Owed(Group(s, k)[i], Lookup(s.cache, k)) <= |origin(k)|
  {
    assert KeyInv(origin, s, k);
    assert Reader(Group(s, k)[i], Lookup(s.cache, k).value);
  }

  // ----- a request -----

  /** Whoever asks has a connection opened for it exactly if the response is not in the cache, nobody else of the
      request is there and the origin can be reached; it leaves exactly if the last of these fails. The others stay as
      they are. */
  lemma ConnectsIff(origin: Origin, s: State, k: Key, connected: bool)
    requires Inv(origin, s) && Enabled(origin, s, Request(k, connected))
    ensures var g, h := Group(s, k), Group(Next(origin, s, Request(k, connected)), k);
            if !Contains(s.cache, k) && g == [] && !connected then h == []
            else
              && |h| == |g| + 1 && h[..|g|] == g && h[|g|].delivered == ""
              && (h[|g|].server == Some(0) <==> !Contains(s.cache, k) && g == [])
              && (h[|g|].server == None <==> Contains(s.cache, k) || g != [])
  {
    hide Lookup, UseEntry, DisuseEntry, Inv, JoinBase;
  }

  /** A complete response is answered from the cache: whoever asks for it leaves as done with all of it, whether or not
      the origin can be reached. */
  lemma CacheHit(origin: Origin, s: State, k: Key, connected: bool, rooms: seq<nat>) returns (n: nat, t: State)
    requires Inv(origin, s) && Enabled(origin, s, Request(k, connected))
    requires Contains(s.cache, k) && Lookup(s.cache, k).value.completed
    requires AllRoom(rooms) && |rooms| > |origin(k)|
    ensures n <= |rooms|
    ensures Loss.LeadsTo(origin, s, [Request(k, connected)] + Sends(k, |Group(s, k)|, rooms[..n]), t)
    ensures Group(t, k) == Group(s, k) && t.finished == s.finished + [Finished(k, origin(k), 0)]
  {
    var e := Request(k, connected);
    var u := Next(origin, s, e);
    HitJoins(origin, s, k, connected);
    NextKeeps(origin, s, e);
    Loss.EnabledHappens(origin, s, e);
    Loss.OneLeads(origin, s, e);
    hide Inv, Enabled, Next, Loss.LeadsTo, Loss.CanHappen, Loss.Happened, Lookup;
    n, t := ReaderFinishes(origin, u, k, |Group(s, k)|, rooms);
    Loss.ThenLeads(origin, s, [e], u, Sends(k, |Group(s, k)|, rooms[..n]), t);
    assert WithoutClient(Group(u, k), |Group(s, k)|) == Group(s, k);
  }

  lemma HitJoins(origin: Origin, s: State, k: Key, connected: bool)
    requires Inv(origin, s) && Enabled(origin, s, Request(k, connected))
    requires Contains(s.cache, k) && Lookup(s.cache, k).value.completed
    ensures var u := Next(origin, s, Request(k, connected));
            && Group(u, k) == Group(s, k) + [Reading(NEWCOMER)] && u.finished == s.finished
            && Contains(u.cache, k) && Lookup(u.cache, k).value.completed
  {
    UseEffect(s.cache, k);
    hide Lookup, UseEntry;
  }

  // ----- nobody is left waiting -----

  /** What becomes of somebody who waits, or not, for another client's response that he cannot share. */
  ghost function SentForHimself(c: Client): Client {
    if c.phase == WaitingForAnother then c.(phase := SendingRequest, server := Some(0)) else c
  }

  /** A client gets no status and leaves: everyone who has waited for its response sends his own request, if all of them
      can be connected. */
  lemma NoStatusFrees(origin: Origin, s: State, k: Key, i: nat, again: nat)
    requires Inv(origin, s) && Enabled(origin, s, NoStatus(k, i, again)) && again >= |Group(s, k)|
    ensures var g, h := Group(s, k), Group(Next(origin, s, NoStatus(k, i, again)), k);
            |h| == |g| - 1 && forall j :: 0 <= j < |g| && j != i ==> h[Shifted(j, i)] == SentForHimself(g[j])
  {
    var g := Group(s, k);
    var p := PrepareWaiting(g);
    assert AllReached(g, again) && p[i].phase == WaitingStatus;
    hide Inv, DisuseEntry, HandOver, FirstReader;
    assert Group(StatusFailed(s, k, i), k) == WithoutClient(p, i);
    forall j | 0 <= j < |g| && j != i
      ensures WithoutClient(p, i)[Shifted(j, i)] == SentForHimself(g[j])
    {
      StaysAt(p, i, j);
    }
  }

  /** If one of them cannot be connected, those before it send their own requests, and the client without a status
      stays. */
  lemma NoStatusFreesSome(origin: Origin, s: State, k: Key, i: nat, again: nat, w: nat)
    requires Inv(origin, s) && Enabled(origin, s, NoStatus(k, i, again))
    requires again <= w < |Group(s, k)| && Group(s, k)[w].phase == WaitingForAnother
    ensures var g, h := Group(s, k), Group(Next(origin, s, NoStatus(k, i, again)), k);
            |h| == |g| && forall j :: 0 <= j < |g| ==> h[j] == if j < again then SentForHimself(g[j]) else g[j]
  {
    assert !AllReached(Group(s, k), again);
    hide Inv, StatusFailed;
  }

  lemma OtherStatusNext(origin: Origin, s: State, k: Key, i: nat, chunk: Bytes, reach: nat, again: nat)
    requires Inv(origin, s) && Enabled(origin, s, Status(k, i, chunk, reach, again)) && reach >= |Group(s, k)|
    requires chunk[9..12] != "200"
    ensures Next(origin, s, Status(k, i, chunk, reach, again)) == StatusOther(s, k, i, chunk)
    ensures Fetching(Group(s, k)[i]) && Group(s, k)[i].phase == WaitingStatus
  {
    assert KeyInv(origin, s, k);
    FetchingGroup(origin(k), Group(s, k), Lookup(s.cache, k), i);
    hide Inv, GroupInv, KeyInv, Lookup, StatusOk, StatusFailing, StatusOther, Receives, StatusReadable, StatusSafe;
    assert AllReached(Group(s, k), reach) && !IsOk(chunk);
  }

  /** A status other than 200: its reader keeps the response for itself, and everyone who has waited sends his own
      request. */
  lemma OtherStatusFrees(origin: Origin, s: State, k: Key, i: nat, chunk: Bytes, reach: nat, again: nat)
    requires Inv(origin, s) && Enabled(origin, s, Status(k, i, chunk, reach, again)) && reach >= |Group(s, k)|
    requires chunk[9..12] != "200"
    ensures var g, h := Group(s, k), Group(Next(origin, s, Status(k, i, chunk, reach, again)), k);
            && |h| == |g| && (forall j :: 0 <= j < |g| && j != i ==> h[j] == SentForHimself(g[j]))
            && h[i].phase == WaitingResponse && h[i].server == Some(|chunk|) && h[i].chunks == [chunk]
            && !h[i].writeAll && !h[i].writeCache
  {
    OtherStatusNext(origin, s, k, i, chunk, reach, again);
    assert [] + [chunk] == [chunk];
    hide Inv, Enabled, Next;
  }
}
