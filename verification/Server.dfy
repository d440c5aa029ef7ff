/** The server as it is built: client objects updated in place, lists of references to them for each
    request, and the cache. Every handler is proved against the function in Sharing that specifies it. */
module Server {
  import opened Wrappers
  import Ascii
  import Spec = Sharing
  import CacheSpec
  import LruCache

  /** The client once its socket took what it has room for of the first chunk of the queue. */
  ghost function SentFront(c: Spec.Client, room: nat): Spec.Client
    requires c.chunks != []
  {
    var n := Spec.Min(room, |c.chunks[0]|);
    var rest := if n == |c.chunks[0]| then [] else [c.chunks[0][n..]];
    Spec.Sent(c, c.chunks[0][..n]).(chunks := rest + c.chunks[1..])
  }

  class Client {
    var requestStr: Key
    var server: Option<nat>
    var state: Spec.Phase
    var sentBytes: nat
    var chunks: seq<Bytes>
    var shouldWriteToCache: bool
    var shouldReadFromCache: bool
    var shouldWriteToAll: bool
    ghost var delivered: Bytes
    ghost var base: nat

    constructor ()
      ensures View() == Spec.NEWCOMER && requestStr == ""
    {
      requestStr, server, state, sentBytes, chunks := "", None, Spec.WaitingForRequest, 0, [];
      shouldWriteToCache, shouldReadFromCache, shouldWriteToAll := false, false, false;
      delivered, base := "", 0;
    }

    ghost function View(): Spec.Client
      reads this
    {
      Spec.Client(state, server, sentBytes, chunks, shouldWriteToCache, shouldReadFromCache, shouldWriteToAll,
                  delivered, base)
    }

    predicate IsReadingFromCache()
      reads this
      ensures IsReadingFromCache() == Spec.IsReadingFromCache(View())
    {
      state == Spec.GotResponse && shouldReadFromCache && server == None
    }

    /** Moves the connection of `other` here. */
    method ObtainServerConnection(other: Client)
      requires other != this
      modifies this`server, this`state, this`shouldWriteToCache, other`server
      ensures View() == Spec.Obtained(old(View()), old(other.server))
      ensures other.server == None
    {
      server, other.server := other.server, None;
      state := Spec.WaitingResponse;
      shouldWriteToCache := true;
    }

    /** The socket takes as much of `chunk` as it has room for. */
    method SendToClient(chunk: Bytes, room: nat) returns (written: nat)
      modifies this`sentBytes, this`delivered
      ensures written == Spec.Min(room, |chunk|)
      ensures View() == Spec.Sent(old(View()), chunk[..written])
    {
      written := Spec.Min(room, |chunk|);
      sentBytes := sentBytes + written;
      delivered := delivered + chunk[..written];
    }

    /** Sends the front of the queue; what the socket does not take goes back to the front. */
    method SendToClientFromChunks(room: nat)
      requires chunks != []
      modifies this`chunks, this`sentBytes, this`delivered
      ensures View() == SentFront(old(View()), room)
    {
      var chunk := chunks[0];
      chunks := chunks[1..];
      var written := SendToClient(chunk, room);
      if written != |chunk| {
        chunks := [chunk[written..]] + chunks;
      }
    }

    /** Reads no longer from the cache. */
    method StopReading()
      modifies this`state, this`shouldReadFromCache
      ensures View() == old(View()).(readCache := false, phase := Spec.GettingFromAnother)
    {
      shouldReadFromCache := false;
      state := Spec.GettingFromAnother;
    }

    /** Queues what it has not been sent of the entry, then the new chunk. */
    method QueueRest(buffer: Bytes, chunk: Bytes)
      requires !shouldReadFromCache && state == Spec.GettingFromAnother
      modifies this`chunks
      ensures View() == Spec.FellBack(old(View()), buffer, chunk)
    {
      if sentBytes < |buffer| {
        chunks := chunks + [buffer[sentBytes..]];
      }
      chunks := chunks + [chunk];
    }

    /** Waits for another client's response; its own stream will begin at `base`. */
    method Await(ghost base: nat)
      modifies this`state, this`base
      ensures View() == old(View()).(phase := Spec.WaitingForAnother, base := base)
    {
      state := Spec.WaitingForAnother;
      this.base := base;
    }

    /** False stands for the exception of a connection that fails. */
    method PrepareForSendingRequest(connected: bool) returns (ok: bool)
      modifies this`server, this`state
      ensures ok == connected && View() == if connected then Spec.Prepared(old(View())) else old(View())
    {
      if !connected {
        return false;
      }
      server := Some(0);
      state := Spec.SendingRequest;
      ok := true;
    }
  }

  /** What reading a socket gives: bytes, the end of the stream, or an error. */
  datatype Received = Data(chunk: Bytes) | ZeroLength | Failed

  class Server {
    const cache: LruCache.Cache
    var clients: set<Client>
    var requestClients: map<Key, seq<Client>>
    ghost var waiting: set<Client>
    ghost var groups: map<Key, seq<Spec.Client>>
    ghost var finished: seq<Spec.Finished>

    /** Every live client that has read its request is listed exactly once, under its own request, and
        nobody else is listed. */
    static ghost predicate Lists(clients: set<Client>, waiting: set<Client>, table: map<Key, seq<Client>>)
      reads clients`requestStr
    {
      && waiting <= clients
      && (forall k, i :: k in table && 0 <= i < |table[k]| ==>
                           table[k][i] in clients - waiting && table[k][i].requestStr == k)
      && (forall k, i, j :: k in table && 0 <= i < j < |table[k]| ==> table[k][i] != table[k][j])
      && (forall c :: c in clients - waiting ==> c.requestStr in table && c in table[c.requestStr])
    }

    ghost predicate Listed()
      reads this`clients, this`requestClients, this`waiting, clients`requestStr
    {
      Lists(clients, waiting, requestClients)
    }

    /** `values` holds the values of the listed clients. */
    static ghost predicate Mirrors(clients: set<Client>, waiting: set<Client>, table: map<Key, seq<Client>>,
                                   values: map<Key, seq<Spec.Client>>)
      requires Lists(clients, waiting, table)
      reads clients
    {
      && values.Keys == table.Keys
      && (forall k :: k in values ==> |values[k]| == |table[k]|)
      && (forall k, i :: k in values && 0 <= i < |values[k]| ==> values[k][i] == table[k][i].View())
      && (forall c :: c in waiting ==> c.View() == Spec.NEWCOMER && c.requestStr == "")
    }

    ghost predicate Mirrored()
      requires Listed()
      reads this`clients, this`requestClients, this`waiting, this`groups, clients
    {
      Mirrors(clients, waiting, requestClients, groups)
    }

    ghost predicate Valid()
      reads this, clients, cache, cache.Repr
    {
      && this !in cache.Repr && (forall c :: c in clients ==> c !in cache.Repr)
      && cache.Valid()
      && Listed() && Mirrored()
    }

    ghost function View(): Spec.State
      reads this, cache
    {
      Spec.State(|waiting|, groups, cache.View(), finished)
    }

    constructor (maxCacheSize: nat)
      ensures Valid() && View() == Spec.Start(maxCacheSize)
      ensures fresh(cache) && fresh(cache.Repr) && clients == {}
    {
      var c := new LruCache.Cache(maxCacheSize);
      cache, clients, requestClients := c, {}, map[];
      waiting, groups, finished := {}, map[], [];
    }

    /** `client` is the `i`-th client of its request. */
    ghost predicate At(client: Client, i: nat)
      reads this`requestClients, client`requestStr
    {
      && client.requestStr in requestClients && i < |requestClients[client.requestStr]|
      && requestClients[client.requestStr][i] == client
    }

    // ----- changing one listed client -----

    ghost predicate MirroredBut(client: Client)
      requires Listed()
      reads this`clients, this`requestClients, this`waiting, this`groups, clients
    {
      && groups.Keys == requestClients.Keys
      && (forall k :: k in groups ==> |groups[k]| == |requestClients[k]|)
      && (forall k, i :: k in groups && 0 <= i < |groups[k]| && requestClients[k][i] != client ==>
                           groups[k][i] == requestClients[k][i].View())
      && (forall c :: c in waiting && c != client ==> c.View() == Spec.NEWCOMER && c.requestStr == "")
    }

    /** The invariant holds but for the mirror of `client`. */
    ghost predicate ValidBut(client: Client)
      reads this, clients, cache, cache.Repr
    {
      && this !in cache.Repr && (forall c :: c in clients ==> c !in cache.Repr)
      && cache.Valid()
      && Listed() && MirroredBut(client)
    }

    twostate lemma ChangedOnly(client: Client)
      requires old(Valid()) && client in clients
      requires unchanged(this) && unchanged(cache) && unchanged(cache.Repr)
      requires client in waiting || client.requestStr == old(client.requestStr)
      requires forall c :: c in clients && c != client ==> unchanged(c)
      ensures ValidBut(client)
    {
    }

    /** The cache is valid and shares nothing with the server and its clients. */
    ghost predicate Apart()
      reads this`clients, cache, cache.Repr
    {
      cache.Valid() && this !in cache.Repr && forall c :: c in clients ==> c !in cache.Repr
    }

    lemma ValidApart()
      requires Valid()
      ensures Apart()
    {
    }

    twostate lemma ChangedWithCache(client: Client)
      requires old(Valid()) && client in clients
      requires unchanged(this) && Apart()
      requires client in waiting || client.requestStr == old(client.requestStr)
      requires forall c :: c in clients && c != client ==> unchanged(c)
      ensures ValidBut(client)
    {
    }

    lemma Recorded(client: Client, i: nat)
      requires ValidBut(client) && At(client, i) && client !in waiting
      ensures Apart() && Listed() && client.requestStr in groups && i < |groups[client.requestStr]|
      ensures var k := client.requestStr;
              var g := groups[k := groups[k][i := client.View()]];
              && Mirrors(clients, waiting, requestClients, g)
              && Spec.Listed(View(), k, i)
              && Spec.State(|waiting|, g, cache.View(), finished) == With(View(), k, i, client.View())
    {
    }

    /** Brings `groups` up to date after `client` changed. */
    ghost method Record(client: Client, i: nat)
      requires ValidBut(client) && At(client, i) && client !in waiting
      modifies this`groups
      ensures Valid()
      ensures Spec.Listed(old(View()), client.requestStr, i)
      ensures View() == With(old(View()), client.requestStr, i, client.View())
    {
      hide ValidBut, At, Lists, Mirrors, With, Spec.Listed, LruCache.Cache.Valid, LruCache.Cache.View, Client.View;
      Recorded(client, i);
      var k := client.requestStr;
      groups := groups[k := groups[k][i := client.View()]];
    }

    static ghost function With(s: Spec.State, k: Key, i: nat, c: Spec.Client): Spec.State
      requires Spec.Listed(s, k, i)
    {
      Spec.SetGroup(s, k, Spec.Group(s, k)[i := c])
    }

    /** The value of a listed client, before and after. */
    static ghost function Member(s: Spec.State, k: Key, i: nat): Spec.Client
      requires Spec.Listed(s, k, i)
    {
      Spec.Group(s, k)[i]
    }

    lemma ListedAt(client: Client, i: nat)
      requires Valid() && At(client, i)
      ensures Spec.Listed(View(), client.requestStr, i)
      ensures Member(View(), client.requestStr, i) == client.View()
      ensures client in clients && client !in cache.Repr && client !in waiting
    {
    }

    method SetState(client: Client, phase: Spec.Phase, ghost i: nat)
      requires Valid() && At(client, i)
      modifies client`state, this`groups
      ensures Valid()
      ensures View() == With(old(View()), client.requestStr, i, old(client.View()).(phase := phase))
    {
      hide Valid, ValidBut, View, With, At;
      ListedAt(client, i);
      client.state := phase;
      ChangedOnly(client);
      Record(client, i);
    }

    method PrepareForSendingRequest(client: Client, connected: bool, ghost i: nat) returns (ok: bool)
      requires Valid() && At(client, i)
      modifies client`state, client`server, this`groups
      ensures Valid() && ok == connected
      ensures View() == With(old(View()), client.requestStr, i,
                             if connected then Spec.Prepared(old(client.View())) else old(client.View()))
    {
      hide Valid, ValidBut, View, With, At;
      ListedAt(client, i);
      ok := client.PrepareForSendingRequest(connected);
      ChangedOnly(client);
      Record(client, i);
    }

    method WriteResponseChunkToClientBuffer(client: Client, chunk: Bytes, ghost i: nat)
      requires Valid() && At(client, i)
      modifies client`chunks, this`groups
      ensures Valid()
      ensures View() == With(old(View()), client.requestStr, i, Spec.Queued(old(client.View()), chunk))
    {
      hide Valid, ValidBut, View, With, At;
      ListedAt(client, i);
      client.chunks := client.chunks + [chunk];
      ChangedOnly(client);
      Record(client, i);
    }

    /** Receiving `n` bytes moves the read position of the client's connection. */
    method Receive(client: Client, n: nat, ghost i: nat)
      requires Valid() && At(client, i)
      modifies client`server, this`groups
      ensures Valid()
      ensures View() == With(old(View()), client.requestStr, i, Spec.Advanced(old(client.View()), n))
    {
      hide Valid, ValidBut, View, With, At;
      ListedAt(client, i);
      if client.server.Some? {
        client.server := Some(client.server.value + n);
      }
      ChangedOnly(client);
      Record(client, i);
    }

    // ----- loops over the clients of one request -----

    ghost predicate AtAll(k: Key, list: seq<Client>)
      reads this`requestClients
    {
      k in requestClients && requestClients[k] == list
    }

    lemma AtEach(k: Key, list: seq<Client>, j: nat)
      requires Valid() && AtAll(k, list) && j < |list|
      ensures At(list[j], j) && list[j].requestStr == k && k in groups && |groups[k]| == |list|
      ensures groups[k][j] == list[j].View() && list[j] in clients
    {
    }

    // ----- values: a loop that replaces the members of one group in order -----

    /** The first `j` elements of `now` are those of `done`, the rest those of `todo`. */
    static ghost predicate Mixed(now: seq<Spec.Client>, done: seq<Spec.Client>, todo: seq<Spec.Client>, j: nat) {
      |now| == |done| == |todo| && forall n :: 0 <= n < |now| ==> now[n] == if n < j then done[n] else todo[n]
    }

    static lemma MixedStep(s: Spec.State, k: Key, now: seq<Spec.Client>, done: seq<Spec.Client>,
                           todo: seq<Spec.Client>, j: nat)
      requires Mixed(now, done, todo, j) && j < |todo|
      ensures With(Spec.SetGroup(s, k, now), k, j, done[j]) == Spec.SetGroup(s, k, now[j := done[j]])
      ensures Mixed(now[j := done[j]], done, todo, j + 1)
      ensures Member(Spec.SetGroup(s, k, now), k, j) == todo[j]
    {
      var g := now[j := done[j]];
      assert s.groups[k := now][k := g] == s.groups[k := g];
    }

    static lemma WithSame(s: Spec.State, k: Key, i: nat)
      requires Spec.Listed(s, k, i)
      ensures With(s, k, i, Member(s, k, i)) == s
    {
      assert s.groups[k][i := s.groups[k][i]] == s.groups[k];
      assert s.groups[k := s.groups[k]] == s.groups;
    }

    static lemma SetSame(s: Spec.State, k: Key)
      requires k in s.groups
      ensures Spec.SetGroup(s, k, Spec.Group(s, k)) == s
    {
      assert s.groups[k := s.groups[k]] == s.groups;
    }

    lemma GroupOf(k: Key)
      requires Valid() && k in requestClients
      ensures k in groups && |groups[k]| == |requestClients[k]|
    {
    }

    method PrepareIfWaiting(client: Client, connected: bool, ghost j: nat) returns (ok: bool)
      requires Valid() && At(client, j)
      modifies client`state, client`server, this`groups
      ensures Valid() && ok == (connected || old(client.View()).phase != Spec.WaitingForAnother)
      ensures var c := old(client.View());
              View() == With(old(View()), client.requestStr, j,
                             if connected && c.phase == Spec.WaitingForAnother then Spec.Prepared(c) else c)
    {
      hide Valid, View, With, Member, At;
      ListedAt(client, j);
      ok := true;
      if client.state == Spec.WaitingForAnother {
        ok := PrepareForSendingRequest(client, connected, j);
      } else {
        WithSame(View(), client.requestStr, j);
      }
    }

    /** The loop has prepared those who wait before place `j`. */
    static ghost predicate Preparing(s: Spec.State, t: Spec.State, k: Key, reach: nat, j: nat) {
      var g := Spec.Group(s, k);
      && j <= |g| && t == Spec.PrepareSome(s, k, if j < reach then j else reach)
      && forall n :: reach <= n < j ==> g[n].phase != Spec.WaitingForAnother
    }

    static lemma PreparingStep(s: Spec.State, t: Spec.State, k: Key, reach: nat, j: nat)
      requires Preparing(s, t, k, reach, j) && j < |Spec.Group(s, k)|
      ensures Spec.Listed(t, k, j) && Member(t, k, j) == Spec.Group(s, k)[j]
      ensures var c := Spec.Group(s, k)[j];
              var waits := c.phase == Spec.WaitingForAnother;
              var u := With(t, k, j, if j < reach && waits then Spec.Prepared(c) else c);
              if j < reach || !waits then Preparing(s, u, k, reach, j + 1)
              else u == Spec.PrepareSome(s, k, reach) && !Spec.AllReached(Spec.Group(s, k), reach)
    {
      var g := Spec.Group(s, k);
      var now := Spec.PrepareBefore(g, if j < reach then j else reach);
      var d := if j < reach && g[j].phase == Spec.WaitingForAnother then Spec.Prepared(g[j]) else g[j];
      assert now[j := d] == Spec.PrepareBefore(g, if j + 1 < reach then j + 1 else reach);
      assert s.groups[k := now][k := now[j := d]] == s.groups[k := now[j := d]];
    }

    static lemma PreparingEnds(s: Spec.State, k: Key)
      requires k in s.groups
      ensures forall reach :: Preparing(s, s, k, reach, 0)
      ensures forall t, reach :: Preparing(s, t, k, reach, |Spec.Group(s, k)|) ==>
                                   t == Spec.PrepareSome(s, k, reach) && Spec.AllReached(Spec.Group(s, k), reach)
    {
      var g := Spec.Group(s, k);
      SetSame(s, k);
      assert Spec.PrepareBefore(g, 0) == g;
      assert forall reach :: reach >= |g| ==> Spec.PrepareBefore(g, reach) == Spec.PrepareBefore(g, |g|);
    }

    lemma ListOf(k: Key)
      requires Valid() && k in requestClients
      ensures k in View().groups && AtAll(k, requestClients[k])
      ensures |Spec.Group(View(), k)| == |requestClients[k]|
    {
    }

    /** The clients before place `reach` can be connected. False stands for an exception that leaves the loop. */
    method PrepareAllWaitingClientsForSending(k: Key, reach: nat) returns (ok: bool)
      requires Valid() && k in requestClients
      modifies clients`state, clients`server, this`groups
      ensures Valid() && ok == Spec.AllReached(Spec.Group(old(View()), k), reach)
      ensures View() == Spec.PrepareSome(old(View()), k, reach)
    {
      hide *;
      var list := requestClients[k];
      ghost var s := View();
      ListOf(k);
      PreparingEnds(s, k);
      for j := 0 to |list|
        invariant Valid() && AtAll(k, list) && Preparing(s, View(), k, reach, j)
      {
        PreparingStep(s, View(), k, reach, j);
        AtEach(k, list, j);
        ListedAt(list[j], j);
        ok := PrepareIfWaiting(list[j], j < reach, j);
        if !ok {
          return;
        }
      }
      ok := true;
    }

    /** Every client of the request gets the chunk. */
    method WriteResponseChunkToAll(k: Key, chunk: Bytes)
      requires Valid() && k in requestClients
      modifies clients`chunks, this`groups
      ensures Valid()
      ensures View() == Spec.SetGroup(old(View()), k, Spec.QueueAll(Spec.Group(old(View()), k), chunk))
    {
      var list := requestClients[k];
      ghost var s := View();
      ghost var g := Spec.Group(s, k);
      ghost var now := g;
      GroupOf(k);
      SetSame(s, k);
      hide Valid, View, With, Member, At;
      for j := 0 to |list|
        invariant Valid() && |g| == |list|
        invariant View() == Spec.SetGroup(s, k, now) && Mixed(now, Spec.QueueAll(g, chunk), g, j)
      {
        AtEach(k, list, j);
        ListedAt(list[j], j);
        MixedStep(s, k, now, Spec.QueueAll(g, chunk), g, j);
        WriteResponseChunkToClientBuffer(list[j], chunk, j);
        now := now[j := Spec.QueueAll(g, chunk)[j]];
      }
      assert now == Spec.QueueAll(g, chunk);
    }

    method FinishAll(k: Key)
      requires Valid() && k in requestClients
      modifies clients`state, this`groups
      ensures Valid()
      ensures View() == Spec.SetGroup(old(View()), k, Spec.AllGotResponse(Spec.Group(old(View()), k)))
    {
      var list := requestClients[k];
      ghost var s := View();
      ghost var g := Spec.Group(s, k);
      ghost var now := g;
      GroupOf(k);
      SetSame(s, k);
      hide Valid, View, With, Member, At;
      for j := 0 to |list|
        invariant Valid() && |g| == |list|
        invariant View() == Spec.SetGroup(s, k, now) && Mixed(now, Spec.AllGotResponse(g), g, j)
      {
        AtEach(k, list, j);
        ListedAt(list[j], j);
        MixedStep(s, k, now, Spec.AllGotResponse(g), g, j);
        SetState(list[j], Spec.GotResponse, j);
        now := now[j := Spec.AllGotResponse(g)[j]];
      }
      assert now == Spec.AllGotResponse(g);
    }

    static lemma StillLists(cs: set<Client>, ws: set<Client>, table: map<Key, seq<Client>>, k: Key, i: nat)
      requires Lists(cs, ws, table) && k in table && i < |table[k]|
      ensures Lists(cs - {table[k][i]}, ws, table[k := table[k][..i] + table[k][i + 1..]])
    {
      var l := table[k];
      assert l == l[..i] + [l[i]] + l[i + 1..];
    }

    /** Taking position `i` off the list of `k` takes it off the mirror. */
    static lemma StillMirrors(cs: set<Client>, ws: set<Client>, table: map<Key, seq<Client>>,
                              values: map<Key, seq<Spec.Client>>, k: Key, i: nat)
      requires Lists(cs, ws, table) && Mirrors(cs, ws, table, values) && k in table && i < |table[k]|
      ensures k in values && i < |values[k]|
      ensures var kept := table[k := table[k][..i] + table[k][i + 1..]];
              Lists(cs - {table[k][i]}, ws, kept)
              && Mirrors(cs - {table[k][i]}, ws, kept, values[k := Spec.WithoutClient(values[k], i)])
    {
      StillLists(cs, ws, table, k, i);
    }

    /** `list` without `client`, in a loop as std::remove_if does it. */
    method Remove(list: seq<Client>, client: Client, ghost i: nat) returns (kept: seq<Client>)
      requires i < |list| && list[i] == client
      requires forall m, n :: 0 <= m < n < |list| ==> list[m] != list[n]
      ensures kept == list[..i] + list[i + 1..]
    {
      kept := [];
      for j := 0 to |list|
        invariant kept == if j <= i then list[..j] else list[..i] + list[i + 1..j]
      {
        if list[j] != client {
          kept := kept + [list[j]];
        }
      }
    }

    /** Takes `client` off the list of its request and out of the live clients. */
    method RemoveFromRequestClients(client: Client, ghost i: nat)
      requires Valid() && At(client, i)
      modifies this`requestClients, this`clients, this`groups
      ensures Valid() && clients == old(clients) - {client} && client.requestStr in requestClients
      ensures Spec.Listed(old(View()), client.requestStr, i)
      ensures var g := Spec.Group(old(View()), client.requestStr);
              View() == Spec.SetGroup(old(View()), client.requestStr, Spec.WithoutClient(g, i))
    {
      var k := client.requestStr;
      ListedAt(client, i);
      DistinctClients(k);
      Unlisted(k, i);
      ghost var rest := Spec.WithoutClient(groups[k], i);
      hide Valid, View, Lists, Mirrors, LruCache.Cache.Valid, LruCache.Cache.View, Client.View, Spec.WithoutClient,
        Spec.SetGroup;
      var kept := Remove(requestClients[k], client, i);
      Unlist(client, kept, rest);
    }

    method Unlist(client: Client, kept: seq<Client>, ghost rest: seq<Spec.Client>)
      requires Apart() && Lists(clients - {client}, waiting, requestClients[client.requestStr := kept])
      requires Mirrors(clients - {client}, waiting, requestClients[client.requestStr := kept],
                       groups[client.requestStr := rest])
      modifies this`requestClients, this`clients, this`groups
      ensures Valid() && clients == old(clients) - {client} && client.requestStr in requestClients
      ensures View() == Spec.State(|waiting|, old(groups)[client.requestStr := rest], cache.View(), finished)
    {
      hide Lists, Mirrors, LruCache.Cache.Valid, LruCache.Cache.View;
      requestClients := requestClients[client.requestStr := kept];
      clients := clients - {client};
      groups := groups[client.requestStr := rest];
    }

    lemma Unlisted(k: Key, i: nat)
      requires Valid() && k in requestClients && i < |requestClients[k]|
      ensures Apart() && k in groups && i < |groups[k]|
      ensures var c := requestClients[k][i];
              var kept := requestClients[k := requestClients[k][..i] + requestClients[k][i + 1..]];
              Lists(clients - {c}, waiting, kept)
              && Mirrors(clients - {c}, waiting, kept, groups[k := Spec.WithoutClient(groups[k], i)])
      ensures Spec.Listed(View(), k, i)
      ensures Spec.State(|waiting|, groups[k := Spec.WithoutClient(groups[k], i)], cache.View(), finished)
              == Spec.SetGroup(View(), k, Spec.WithoutClient(Spec.Group(View(), k), i))
    {
      StillMirrors(clients, waiting, requestClients, groups, k, i);
    }

    lemma DistinctClients(k: Key)
      requires Listed() && k in requestClients
      ensures forall m, n :: 0 <= m < n < |requestClients[k]| ==> requestClients[k][m] != requestClients[k][n]
    {
    }

    /** The first client of `list` that reads from the cache without a connection. */
    method FindReader(list: seq<Client>) returns (r: int)
      ensures -1 <= r < |list|
      ensures r >= 0 ==> list[r].IsReadingFromCache()
      ensures forall j :: 0 <= j < (if r < 0 then |list| else r) ==> !list[j].IsReadingFromCache()
    {
      for j := 0 to |list|
        invariant forall n :: 0 <= n < j ==> !list[n].IsReadingFromCache()
      {
        if list[j].IsReadingFromCache() {
          return j;
        }
      }
      r := -1;
    }

    lemma SameReader(k: Key, list: seq<Client>, r: int)
      requires Valid() && AtAll(k, list)
      requires -1 <= r < |list|
      requires r >= 0 ==> list[r].IsReadingFromCache()
      requires forall j :: 0 <= j < (if r < 0 then |list| else r) ==> !list[j].IsReadingFromCache()
      ensures Spec.FirstReader(Spec.Group(View(), k)) == r
    {
    }

    method ObtainServerConnection(client: Client, other: Client, ghost i: nat)
      requires Valid() && At(client, i) && other !in clients && other !in cache.Repr
      modifies client`state, client`server, client`shouldWriteToCache, other`server, this`groups
      ensures Valid()
      ensures View() == With(old(View()), client.requestStr, i, Spec.Obtained(old(client.View()), old(other.server)))
    {
      hide Valid, ValidBut, View, With, At;
      ListedAt(client, i);
      client.ObtainServerConnection(other);
      ChangedOnly(client);
      Record(client, i);
    }

    method HandOver(client: Client)
      requires Valid() && client.requestStr in requestClients && client !in clients && client !in cache.Repr
      modifies clients`state, clients`server, clients`shouldWriteToCache, client`server, this`groups
      ensures Valid()
      ensures var g := Spec.Group(old(View()), client.requestStr);
              View() == Spec.SetGroup(old(View()), client.requestStr, Spec.HandOver(g, old(client.server)))
    {
      var k := client.requestStr;
      var list := requestClients[k];
      ghost var s := View();
      var r := FindReader(list);
      assert AtAll(k, list) && k in s.groups by {
        GroupOf(k);
      }
      hide Valid, View, At, AtAll, Spec.FirstReader, Client.View, Client.IsReadingFromCache;
      SetSame(s, k);
      SameReader(k, list, r);
      if r >= 0 {
        AtEach(k, list, r);
        ListedAt(list[r], r);
        ObtainServerConnection(list[r], client, r);
      }
    }

    /** The steps of a departure, as values. */
    static lemma DiscardSteps(s: Spec.State, k: Key, i: nat)
      requires Spec.Listed(s, k, i)
      ensures var g := Spec.Group(s, k);
              var t := Spec.SetGroup(s, k, Spec.WithoutClient(g, i));
              && Spec.Group(t, k) == Spec.WithoutClient(g, i) && t.cache == s.cache
              && Spec.Discard(s, k, i)
                 == (if g[i].phase == Spec.WaitingResponse
                     then Spec.SetGroup(t, k, Spec.HandOver(Spec.Group(t, k), g[i].server)) else t)
                    .(cache := CacheSpec.DisuseEntry(s.cache, k))
    {
      hide CacheSpec.DisuseEntry, Spec.HandOver;
      var g := Spec.Group(s, k);
      var rest := Spec.WithoutClient(g, i);
      var h := Spec.HandOver(rest, g[i].server);
      assert s.groups[k := rest][k := h] == s.groups[k := h];
    }

    method DiscardClient(client: Client, ghost i: nat)
      requires Valid() && At(client, i)
      modifies this`requestClients, this`clients, this`groups, cache, cache.Repr
      modifies clients`server, clients`state, clients`shouldWriteToCache
      ensures Valid() && client !in clients
      ensures clients <= old(clients) && fresh(cache.Repr - old(cache.Repr))
      ensures Spec.Listed(old(View()), client.requestStr, i)
      ensures View() == Spec.Discard(old(View()), client.requestStr, i)
    {
      hide Valid, View, At, CacheSpec.DisuseEntry, Spec.HandOver, Spec.Discard, Spec.WithoutClient;
      ValidApart();
      ListedAt(client, i);
      DiscardSteps(View(), client.requestStr, i);
      RemoveFromRequestClients(client, i);
      if client.state == Spec.WaitingResponse {
        HandOver(client);
      }
      DisuseEntry(client.requestStr);
    }

    method DisuseEntry(k: Key)
      requires Valid()
      modifies cache, cache.Repr
      ensures Valid()
      ensures fresh(cache.Repr - old(cache.Repr))
      ensures View() == old(View()).(cache := CacheSpec.DisuseEntry(old(View()).cache, k))
    {
      hide Listed, Mirrored, LruCache.Cache.Valid, LruCache.Cache.View, CacheSpec.DisuseEntry;
      cache.DisuseEntry(k);
    }

    // ----- newcomers -----

    static lemma ListsGrow(cs: set<Client>, ws: set<Client>, table: map<Key, seq<Client>>,
                           values: map<Key, seq<Spec.Client>>, c: Client)
      requires Lists(cs, ws, table) && Mirrors(cs, ws, table, values)
      requires c !in cs && c.View() == Spec.NEWCOMER && c.requestStr == ""
      ensures Lists(cs + {c}, ws + {c}, table) && Mirrors(cs + {c}, ws + {c}, table, values)
      ensures |ws + {c}| == |ws| + 1
    {
      assert cs + {c} - (ws + {c}) == cs - ws;
    }

    method AcceptClient() returns (client: Client)
      requires Valid()
      modifies this`clients, this`waiting
      ensures Valid() && client in waiting && fresh(client) && clients == old(clients) + {client}
      ensures View() == old(View()).(newcomers := old(View()).newcomers + 1)
    {
      hide Valid, View;
      ValidApart();
      client := new Client();
      Admit(client);
    }

    lemma Grown(client: Client)
      requires Valid() && client !in clients && client.View() == Spec.NEWCOMER && client.requestStr == ""
      ensures Apart()
      ensures Lists(clients + {client}, waiting + {client}, requestClients)
              && Mirrors(clients + {client}, waiting + {client}, requestClients, groups)
      ensures |waiting + {client}| == |waiting| + 1
    {
      ListsGrow(clients, waiting, requestClients, groups, client);
    }

    method Admit(client: Client)
      requires Valid() && client !in clients && client !in cache.Repr
      requires client.View() == Spec.NEWCOMER && client.requestStr == ""
      modifies this`clients, this`waiting
      ensures Valid() && client in waiting && clients == old(clients) + {client}
      ensures View() == old(View()).(newcomers := old(View()).newcomers + 1)
    {
      hide Lists, Mirrors, LruCache.Cache.View, LruCache.Cache.Valid, Client.View;
      Grown(client);
      clients := clients + {client};
      waiting := waiting + {client};
    }

    static lemma EmptyList(cs: set<Client>, ws: set<Client>, table: map<Key, seq<Client>>,
                           values: map<Key, seq<Spec.Client>>, k: Key)
      requires Lists(cs, ws, table) && Mirrors(cs, ws, table, values) && k !in table
      ensures Lists(cs, ws, table[k := []]) && Mirrors(cs, ws, table[k := []], values[k := []]) && k !in values
    {
    }

    lemma WithEmptyList(k: Key)
      requires Valid() && k !in requestClients
      ensures Apart()
      ensures Lists(clients, waiting, requestClients[k := []])
              && Mirrors(clients, waiting, requestClients[k := []], groups[k := []]) && k !in groups
    {
      EmptyList(clients, waiting, requestClients, groups, k);
    }

    /** Looking a request up with the index operator of the map creates an empty list for it. */
    method TouchList(k: Key)
      requires Valid()
      modifies this`requestClients, this`groups
      ensures Valid() && View() == Spec.SetGroup(old(View()), k, Spec.Group(old(View()), k))
    {
      hide Lists, Mirrors, LruCache.Cache.View, LruCache.Cache.Valid, Client.View;
      if k !in requestClients {
        WithEmptyList(k);
        requestClients := requestClients[k := []];
        groups := groups[k := []];
      } else {
        GroupOf(k);
        SetSame(View(), k);
      }
    }

    /** `k` is the request text that the client has by then. */
    method DiscardNewcomer(client: Client, k: Key)
      requires Valid() && client in waiting
      modifies this`requestClients, this`clients, this`waiting, this`groups, cache, cache.Repr
      ensures Valid() && client !in clients
      ensures clients <= old(clients) && fresh(cache.Repr - old(cache.Repr))
      ensures old(View()).newcomers > 0 && View() == Spec.DiscardFresh(old(View()), k)
    {
      hide Valid, View, LruCache.Cache.Valid, Client.View, CacheSpec.DisuseEntry, Spec.Group;
      Newcomer(client);
      Waits(client);
      ValidApart();
      TouchList(k);
      DisuseEntry(k);
      ForgetNewcomer(client);
    }

    lemma Waits(client: Client)
      requires Valid() && client in waiting
      ensures View().newcomers > 0
    {
    }

    static lemma ListsShrink(cs: set<Client>, ws: set<Client>, table: map<Key, seq<Client>>,
                             values: map<Key, seq<Spec.Client>>, c: Client)
      requires Lists(cs, ws, table) && Mirrors(cs, ws, table, values) && c in ws
      ensures Lists(cs - {c}, ws - {c}, table) && Mirrors(cs - {c}, ws - {c}, table, values)
      ensures |ws - {c}| == |ws| - 1
    {
      assert cs - {c} - (ws - {c}) == cs - ws;
    }

    lemma Shrunk(client: Client)
      requires Valid() && client in waiting
      ensures Apart()
      ensures Lists(clients - {client}, waiting - {client}, requestClients)
              && Mirrors(clients - {client}, waiting - {client}, requestClients, groups)
      ensures |waiting - {client}| == |waiting| - 1
    {
      ListsShrink(clients, waiting, requestClients, groups, client);
    }

    method ForgetNewcomer(client: Client)
      requires Valid() && client in waiting
      modifies this`clients, this`waiting
      ensures Valid() && clients == old(clients) - {client}
      ensures View() == old(View()).(newcomers := old(View()).newcomers - 1)
    {
      hide Lists, Mirrors, LruCache.Cache.View, LruCache.Cache.Valid, Client.View;
      Shrunk(client);
      clients := clients - {client};
      waiting := waiting - {client};
    }

    static lemma ListsAdmit(cs: set<Client>, ws: set<Client>, table: map<Key, seq<Client>>, c: Client, k: Key)
      requires Lists(cs, ws, table) && c in ws && k == c.requestStr
      ensures Lists(cs, ws - {c}, table[k := (if k in table then table[k] else []) + [c]])
      ensures |ws - {c}| == |ws| - 1
    {
      var list := if k in table then table[k] else [];
      assert cs - (ws - {c}) == cs - ws + {c};
      assert forall d :: d in list + [c] <==> d in list || d == c;
    }

    static lemma MirrorsAdmit(cs: set<Client>, ws: set<Client>, table: map<Key, seq<Client>>,
                              values: map<Key, seq<Spec.Client>>, c: Client, k: Key)
      requires Lists(cs, ws, table) && c in ws && k == c.requestStr
      requires values.Keys == table.Keys
      requires forall k :: k in values ==> |values[k]| == |table[k]|
      requires forall k, i ::
                 k in values && 0 <= i < |values[k]| && table[k][i] != c ==> values[k][i] == table[k][i].View()
      requires forall d :: d in ws && d != c ==> d.View() == Spec.NEWCOMER && d.requestStr == ""
      ensures var list := (if k in table then table[k] else []) + [c];
              var g := (if k in values then values[k] else []) + [c.View()];
              Lists(cs, ws - {c}, table[k := list]) && Mirrors(cs, ws - {c}, table[k := list], values[k := g])
      ensures |ws - {c}| == |ws| - 1
    {
      ListsAdmit(cs, ws, table, c, k);
    }

    /** A newcomer, now `c`, is listed last under its request. */
    static ghost function Admitted(s: Spec.State, k: Key, c: Spec.Client): Spec.State
      requires s.newcomers > 0
    {
      Spec.SetGroup(s, k, Spec.Group(s, k) + [c]).(newcomers := s.newcomers - 1)
    }

    static lemma RequestShape(s: Spec.State, k: Key)
      requires s.newcomers > 0
      ensures CacheSpec.Contains(s.cache, k) ==> forall connected ::
                Spec.ReadRequest(s, k, connected)
                == Admitted(s.(cache := CacheSpec.UseEntry(s.cache, k)), k, Spec.Reading(Spec.NEWCOMER))
      ensures !CacheSpec.Contains(s.cache, k) && Spec.Group(s, k) != [] ==> forall connected ::
                Spec.ReadRequest(s, k, connected)
                == Admitted(s, k, Spec.NEWCOMER.(
                                 phase := Spec.WaitingForAnother, base := Spec.JoinBase(Spec.Group(s, k))))
      ensures !CacheSpec.Contains(s.cache, k) && Spec.Group(s, k) == [] ==>
                Spec.ReadRequest(s, k, true) == Admitted(s, k, Spec.Prepared(Spec.NEWCOMER))
    {
      hide CacheSpec.UseEntry, CacheSpec.Contains, Spec.JoinBase;
      var c := Spec.Prepared(Spec.NEWCOMER);
      assert Spec.Group(s, k) == [] ==> Spec.Group(s, k) + [c] == [c];
    }

    lemma MirrorAdmit(client: Client) returns (g: seq<Spec.Client>)
      requires ValidBut(client) && client in waiting
      ensures Apart()
      ensures var k := client.requestStr;
              var list := (if k in requestClients then requestClients[k] else []) + [client];
              && Lists(clients, waiting - {client}, requestClients[k := list])
              && Mirrors(clients, waiting - {client}, requestClients[k := list], groups[k := g])
              && View().newcomers > 0
              && Spec.State(|waiting - {client}|, groups[k := g], cache.View(), finished)
                 == Admitted(View(), k, client.View())
    {
      MirrorsAdmit(clients, waiting, requestClients, groups, client, client.requestStr);
      g := Spec.Group(View(), client.requestStr) + [client.View()];
    }

    /** Lists a newcomer, which has changed, under its request. */
    method AddToRequestClients(client: Client)
      requires ValidBut(client) && client in waiting
      modifies this`requestClients, this`groups, this`waiting
      ensures Valid() && old(View()).newcomers > 0
      ensures View() == Admitted(old(View()), client.requestStr, client.View())
    {
      hide ValidBut, Lists, Mirrors, LruCache.Cache.View, LruCache.Cache.Valid, Admitted, Client.View;
      var k := client.requestStr;
      ghost var g := MirrorAdmit(client);
      var list := (if k in requestClients then requestClients[k] else []) + [client];
      requestClients := requestClients[k := list];
      waiting := waiting - {client};
      groups := groups[k := g];
    }

    // ----- reading a request -----

    /** `client` turns to the entry of its request, which counts it. */
    method SetClientToGetResponseFromCache(client: Client)
      requires Apart() && client in clients
      modifies client`state, client`shouldReadFromCache, cache, cache.Repr
      ensures Apart()
      ensures client.View() == Spec.Reading(old(client.View()))
      ensures cache.View() == CacheSpec.UseEntry(old(cache.View()), client.requestStr)
      ensures fresh(cache.Repr - old(cache.Repr))
    {
      hide LruCache.Cache.Valid, LruCache.Cache.View, CacheSpec.UseEntry;
      client.state := Spec.GotResponse;
      cache.UseEntry(client.requestStr);
      client.shouldReadFromCache := true;
    }

    method HasResponse(k: Key) returns (b: bool)
      requires Valid()
      ensures b == CacheSpec.Contains(View().cache, k)
    {
      b := cache.Contains(k);
    }

    method HasClientsWithRequest(k: Key) returns (b: bool)
      requires Valid()
      ensures b == (Spec.Group(View(), k) != [])
    {
      b := k in requestClients && |requestClients[k]| > 0;
      if k in requestClients {
        GroupOf(k);
      }
    }

    /** `request` is the normalised request text, or None if it cannot be read or parsed; `connected` tells
        whether the origin can be reached. */
    method ReadRequestFromClient(client: Client, request: Option<Key>, connected: bool)
      requires Valid() && client in waiting
      modifies this`requestClients, this`clients, this`waiting, this`groups, cache, cache.Repr, client
      ensures Valid() && old(View()).newcomers > 0
      ensures clients <= old(clients) && fresh(cache.Repr - old(cache.Repr))
      ensures View() == match request
                        case None => Spec.DiscardFresh(old(View()), "")
                        case Some(k) => Spec.ReadRequest(old(View()), k, connected)
    {
      Waits(client);
      if request == None {
        DiscardNewcomer(client, "");
      } else {
        HandleRequest(client, request.value, connected);
      }
    }

    method HandleRequest(client: Client, k: Key, connected: bool)
      requires Valid() && client in waiting
      modifies this`requestClients, this`clients, this`waiting, this`groups, cache, cache.Repr, client
      ensures Valid() && old(View()).newcomers > 0
      ensures clients <= old(clients) && fresh(cache.Repr - old(cache.Repr))
      ensures View() == Spec.ReadRequest(old(View()), k, connected)
    {
      hide Valid, View, Spec.ReadRequest, CacheSpec.Lookup;
      ValidApart();
      Waits(client);
      var present := HasResponse(k);
      var others := HasClientsWithRequest(k);
      if present {
        JoinReaders(client, k, connected);
      } else if others {
        JoinWaiting(client, k, connected);
      } else if connected {
        StartFetching(client, k);
      } else {
        Refuse(client, k);
      }
    }

    method JoinReaders(client: Client, k: Key, ghost connected: bool)
      requires Valid() && client in waiting && CacheSpec.Contains(View().cache, k)
      modifies this`requestClients, this`waiting, this`groups, cache, cache.Repr, client
      ensures Valid() && old(View()).newcomers > 0
      ensures fresh(cache.Repr - old(cache.Repr))
      ensures View() == Spec.ReadRequest(old(View()), k, connected)
    {
      hide Valid, ValidBut, CacheSpec.UseEntry, CacheSpec.Contains, LruCache.Cache.View, LruCache.Cache.Valid;
      hide Spec.ReadRequest, Admitted;
      Newcomer(client);
      RequestShape(View(), k);
      client.requestStr := k;
      SetClientToGetResponseFromCache(client);
      ChangedWithCache(client);
      AddToRequestClients(client);
    }

    method JoinWaiting(client: Client, k: Key, ghost connected: bool)
      requires Valid() && client in waiting && !CacheSpec.Contains(View().cache, k) && Spec.Group(View(), k) != []
      modifies this`requestClients, this`waiting, this`groups, client
      ensures Valid() && old(View()).newcomers > 0
      ensures View() == Spec.ReadRequest(old(View()), k, connected)
    {
      hide Valid, ValidBut, CacheSpec.Contains, LruCache.Cache.View, Spec.JoinBase, Spec.ReadRequest, Admitted;
      Newcomer(client);
      RequestShape(View(), k);
      ghost var base := Spec.JoinBase(Spec.Group(View(), k));
      client.requestStr := k;
      client.Await(base);
      ChangedOnly(client);
      AddToRequestClients(client);
    }

    method StartFetching(client: Client, k: Key)
      requires Valid() && client in waiting && !CacheSpec.Contains(View().cache, k) && Spec.Group(View(), k) == []
      modifies this`requestClients, this`waiting, this`groups, client
      ensures Valid() && old(View()).newcomers > 0
      ensures View() == Spec.ReadRequest(old(View()), k, true)
    {
      hide Valid, ValidBut, CacheSpec.Contains, LruCache.Cache.View, Spec.ReadRequest, Admitted;
      Newcomer(client);
      RequestShape(View(), k);
      client.requestStr := k;
      var _ := client.PrepareForSendingRequest(true);
      ChangedOnly(client);
      AddToRequestClients(client);
    }

    method Refuse(client: Client, k: Key)
      requires Valid() && client in waiting && !CacheSpec.Contains(View().cache, k) && Spec.Group(View(), k) == []
      modifies this`requestClients, this`clients, this`waiting, this`groups, cache, cache.Repr
      ensures Valid() && old(View()).newcomers > 0
      ensures clients <= old(clients) && fresh(cache.Repr - old(cache.Repr))
      ensures View() == Spec.ReadRequest(old(View()), k, false)
    {
      Newcomer(client);
      hide Valid, CacheSpec.Lookup, LruCache.Cache.View, Spec.DiscardFresh;
      DiscardNewcomer(client, k);
    }

    lemma Newcomer(client: Client)
      requires Valid() && client in waiting
      ensures Apart() && client in clients && client.View() == Spec.NEWCOMER && |waiting| > 0
    {
    }

    /** `ok` stands for the absence of an exception. */
    method SendRequestToServer(client: Client, ok: bool, ghost i: nat)
      requires Valid() && At(client, i)
      modifies this`requestClients, this`clients, this`groups, cache, cache.Repr
      modifies clients`server, clients`state, clients`shouldWriteToCache
      ensures Valid() && Spec.Listed(old(View()), client.requestStr, i)
      ensures clients <= old(clients) && fresh(cache.Repr - old(cache.Repr))
      ensures View() == if ok then Spec.SendRequest(old(View()), client.requestStr, i)
                        else Spec.Discard(old(View()), client.requestStr, i)
    {
      ListedAt(client, i);
      if ok {
        SetState(client, Spec.WaitingStatus, i);
      } else {
        DiscardClient(client, i);
      }
    }

    // ----- falling back to the clients' own queues -----

    /** What one round of the fallback does to the client and the cache; false stands for a KeyNotFound
        exception. */
    method TakeRest(client: Client, chunk: Bytes) returns (ok: bool)
      requires Apart() && client in clients
      modifies cache, cache.Repr, client`state, client`shouldReadFromCache, client`chunks
      ensures Apart() && cache.Repr == old(cache.Repr)
      ensures ok == CacheSpec.Lookup(old(cache.View()), client.requestStr).Some?
      ensures ok ==> var e := CacheSpec.Lookup(old(cache.View()), client.requestStr).value;
                     client.View() == Spec.FellBack(old(client.View()), e.buffer, chunk)
      ensures !ok ==> client.View() == old(client.View()).(readCache := false, phase := Spec.GettingFromAnother)
      ensures cache.View() == LeftBy(old(cache.View()), client.requestStr)
    {
      hide LruCache.Cache.Valid, LruCache.Cache.View, CacheSpec.Touch, CacheSpec.DisuseEntry, CacheSpec.Lookup;
      hide Spec.FellBack, LeftBy;
      LeftByShape(cache.View(), client.requestStr);
      FellBackOnce(client.View(), chunk);
      client.StopReading();
      var entry := cache.ReadEntry(client.requestStr);
      ok := entry.Some?;
      if ok {
        LeaveEntry(client, entry.value.buffer, chunk);
      }
    }

    method LeaveEntry(client: Client, buffer: Bytes, chunk: Bytes)
      requires Apart() && client in clients
      requires !client.shouldReadFromCache && client.state == Spec.GettingFromAnother
      modifies cache, cache.Repr, client`chunks
      ensures Apart() && cache.Repr == old(cache.Repr)
      ensures client.View() == Spec.FellBack(old(client.View()), buffer, chunk)
      ensures cache.View() == CacheSpec.DisuseEntry(old(cache.View()), client.requestStr)
    {
      hide LruCache.Cache.Valid, LruCache.Cache.View, CacheSpec.DisuseEntry, Spec.FellBack;
      client.QueueRest(buffer, chunk);
      cache.DisuseEntry(client.requestStr);
    }

    static lemma FellBackOnce(c: Spec.Client, chunk: Bytes)
      ensures var d := c.(readCache := false, phase := Spec.GettingFromAnother);
              forall buffer :: Spec.FellBack(d, buffer, chunk) == Spec.FellBack(c, buffer, chunk)
    {
    }

    /** The cache after one user of `k` fell back. */
    static ghost function LeftBy(s: CacheSpec.Store, k: Key): CacheSpec.Store {
      if CacheSpec.Contains(s, k) then CacheSpec.DisuseEntry(CacheSpec.Touch(s, k), k) else s
    }

    static lemma LeftByShape(s: CacheSpec.Store, k: Key)
      ensures LeftBy(s, k) == if CacheSpec.Lookup(s, k).Some? then CacheSpec.DisuseEntry(CacheSpec.Touch(s, k), k)
                              else CacheSpec.Touch(s, k)
    {
    }

    /** One round of the fallback. */
    method FallBackOne(client: Client, chunk: Bytes, ghost i: nat) returns (ok: bool)
      requires Valid() && At(client, i)
      modifies this`groups, cache, cache.Repr, client`state, client`shouldReadFromCache, client`chunks
      ensures Valid()
      ensures Spec.Listed(old(View()), client.requestStr, i)
      ensures var e := CacheSpec.Lookup(old(View()).cache, client.requestStr);
              && ok == e.Some?
              && View() == With(old(View()), client.requestStr, i,
                                if e.Some? then Spec.FellBack(old(client.View()), e.value.buffer, chunk)
                                else old(client.View()).(readCache := false, phase := Spec.GettingFromAnother))
                           .(cache := LeftBy(old(View()).cache, client.requestStr))
      ensures cache.Repr == old(cache.Repr)
    {
      hide Valid, ValidBut, Apart, LeftBy, CacheSpec.Lookup, LruCache.Cache.View, Client.View, At, Spec.FellBack;
      ListedAt(client, i);
      ValidApart();
      ok := TakeRest(client, chunk);
      ChangedWithCache(client);
      Record(client, i);
    }

    /** The state of the loop: the group and the cache so far, and what is still to come. */
    static ghost predicate Looping(s: Spec.State, t: Spec.State, k: Key, now: seq<Spec.Client>, j: nat, chunk: Bytes) {
      && t == Spec.SetGroup(s, k, now).(cache := t.cache) && j <= |now|
      && Spec.FallbackLoop(now, j, t.cache, k, chunk) == Spec.FallbackLoop(Spec.Group(s, k), 0, s.cache, k, chunk)
    }

    /** The loop has ended, or has been left because the entry is gone. */
    static ghost predicate Looped(s: Spec.State, t: Spec.State, k: Key, chunk: Bytes, ok: bool) {
      var r := Spec.FallbackLoop(Spec.Group(s, k), 0, s.cache, k, chunk);
      t == Spec.SetGroup(s, k, r.0).(cache := r.1) && ok == r.2
    }

    /** One round, as a step of the loop's specification. */
    method FallbackRound(client: Client, k: Key, chunk: Bytes, ghost j: nat, ghost s: Spec.State,
                         ghost now: seq<Spec.Client>) returns (more: bool, ghost next: seq<Spec.Client>)
      requires Valid() && At(client, j) && client.requestStr == k
      requires j < |now| && Looping(s, View(), k, now, j, chunk)
      modifies this`groups, cache, cache.Repr, client`state, client`shouldReadFromCache, client`chunks
      ensures Valid() && cache.Repr == old(cache.Repr) && |next| == |now|
      ensures if more then Looping(s, View(), k, next, j + 1, chunk) else Looped(s, View(), k, chunk, false)
    {
      hide Valid, View, At, LeftBy, CacheSpec.Lookup, Member, With, Spec.FellBack, Spec.FallbackLoop, Client.View;
      ListedAt(client, j);
      FallbackStep(s, View(), k, now, j, chunk);
      ghost var e := CacheSpec.Lookup(View().cache, k);
      next := now[j := if e.Some? then Spec.FellBack(now[j], e.value.buffer, chunk)
                       else now[j].(readCache := false, phase := Spec.GettingFromAnother)];
      more := FallBackOne(client, chunk, j);
    }

    /** False stands for a KeyNotFound exception that leaves the loop. */
    method FallbackRounds(k: Key, chunk: Bytes) returns (ok: bool)
      requires Valid() && k in requestClients
      modifies this`groups, cache, cache.Repr, clients`state, clients`shouldReadFromCache, clients`chunks
      ensures Valid() && cache.Repr == old(cache.Repr)
      ensures Looped(old(View()), View(), k, chunk, ok)
    {
      hide Valid, At, LruCache.Cache.Valid, LruCache.Cache.View, Spec.FallbackLoop, Spec.SetGroup, Lists, Mirrors;
      var list := requestClients[k];
      ghost var s := View();
      ghost var now := Spec.Group(s, k);
      GroupOf(k);
      SetSame(s, k);
      assert Looping(s, View(), k, now, 0, chunk) && |now| == |list|;
      hide Looping, Looped, View;
      for j := 0 to |list|
        invariant Valid() && AtAll(k, list) && |now| == |list|
        invariant Looping(s, View(), k, now, j, chunk)
        invariant cache.Repr == old(cache.Repr) && clients == old(clients)
      {
        ValidApart();
        AtEach(k, list, j);
        var more;
        more, now := FallbackRound(list[j], k, chunk, j, s, now);
        if !more {
          return false;
        }
      }
      LoopDone(s, View(), k, now, chunk);
      ok := true;
    }

    static lemma LoopDone(s: Spec.State, t: Spec.State, k: Key, now: seq<Spec.Client>, chunk: Bytes)
      requires Looping(s, t, k, now, |now|, chunk)
      ensures Looped(s, t, k, chunk, true)
    {
    }

    static lemma FallbackStep(s: Spec.State, t: Spec.State, k: Key, now: seq<Spec.Client>, j: nat, chunk: Bytes)
      requires t == Spec.SetGroup(s, k, now).(cache := t.cache) && j < |now|
      ensures Spec.Listed(t, k, j) && Member(t, k, j) == now[j]
      ensures var e := CacheSpec.Lookup(t.cache, k);
              var c := if e.Some? then Spec.FellBack(now[j], e.value.buffer, chunk)
                       else now[j].(readCache := false, phase := Spec.GettingFromAnother);
              var u := With(t, k, j, c).(cache := LeftBy(t.cache, k));
              && u == Spec.SetGroup(s, k, now[j := c]).(cache := u.cache) && Spec.Group(u, k) == now[j := c]
              && Spec.FallbackLoop(now, j, t.cache, k, chunk)
                 == if e.Some? then Spec.FallbackLoop(now[j := c], j + 1, u.cache, k, chunk)
                    else (now[j := c], u.cache, false)
    {
      hide CacheSpec.Touch, CacheSpec.DisuseEntry, CacheSpec.Lookup;
      var e := CacheSpec.Lookup(t.cache, k);
      var c := if e.Some? then Spec.FellBack(now[j], e.value.buffer, chunk)
               else now[j].(readCache := false, phase := Spec.GettingFromAnother);
      assert s.groups[k := now][k := now[j := c]] == s.groups[k := now[j := c]];
      assert Spec.FellBack(now[j].(readCache := false, phase := Spec.GettingFromAnother),
                           if e.Some? then e.value.buffer else "", chunk)
             == Spec.FellBack(now[j], if e.Some? then e.value.buffer else "", chunk);
    }

    /** False stands for a KeyNotFound exception, which leaves everybody as the rounds so far did. */
    method FallbackToClientBuffer(client: Client, chunk: Bytes, ghost i: nat) returns (ok: bool)
      requires Valid() && At(client, i)
      modifies this`groups, cache, cache.Repr
      modifies clients`state, clients`shouldReadFromCache, clients`chunks, clients`shouldWriteToCache,
               clients`shouldWriteToAll
      ensures Valid() && cache.Repr == old(cache.Repr)
      ensures Spec.Listed(old(View()), client.requestStr, i)
      ensures View() == Spec.Fallback(old(View()), client.requestStr, i, chunk).0
      ensures ok == Spec.Fallback(old(View()), client.requestStr, i, chunk).1
    {
      hide Valid, View, Spec.Fallback, LruCache.Cache.Valid, Spec.Broadcaster, With, Looped;
      var k := client.requestStr;
      ListedAt(client, i);
      ValidApart();
      ghost var s := View();
      ok := FallbackRounds(k, chunk);
      FallbackShape(s, View(), k, i, chunk, ok);
      if ok {
        Broadcast(client, i);
      }
    }

    method Broadcast(client: Client, ghost i: nat)
      requires Valid() && At(client, i)
      modifies this`groups, client`state, client`shouldWriteToCache, client`shouldWriteToAll
      ensures Valid()
      ensures Spec.Listed(old(View()), client.requestStr, i)
      ensures View() == With(old(View()), client.requestStr, i,
                             Spec.Broadcaster(Member(old(View()), client.requestStr, i)))
    {
      hide Valid, ValidBut, View, With, At;
      ListedAt(client, i);
      client.shouldWriteToCache := false;
      client.shouldWriteToAll := true;
      client.state := Spec.WaitingResponse;
      ChangedOnly(client);
      Record(client, i);
    }

    static lemma FallbackShape(s: Spec.State, t: Spec.State, k: Key, i: nat, chunk: Bytes, ok: bool)
      requires Spec.Listed(s, k, i)
      requires Looped(s, t, k, chunk, ok)
      ensures Spec.Listed(t, k, i)
      ensures Spec.Fallback(s, k, i, chunk)
              == (if ok then With(t, k, i, Spec.Broadcaster(Member(t, k, i))) else t, ok)
    {
      hide Spec.FallbackLoop, Spec.Broadcaster;
      var r := Spec.FallbackLoop(Spec.Group(s, k), 0, s.cache, k, chunk);
      var g := r.0[i := Spec.Broadcaster(r.0[i])];
      assert s.groups[k := r.0][k := g] == s.groups[k := g];
    }

    /** False stands for a KeyNotFound exception. */
    method WriteResponseChunkToCache(client: Client, chunk: Bytes, ghost i: nat) returns (ok: bool)
      requires Valid() && At(client, i)
      modifies this`groups, cache, cache.Repr
      modifies clients`state, clients`shouldReadFromCache, clients`chunks, clients`shouldWriteToCache,
               clients`shouldWriteToAll
      ensures Valid() && cache.Repr == old(cache.Repr)
      ensures Spec.Listed(old(View()), client.requestStr, i)
      ensures View() == Spec.WriteToCache(old(View()), client.requestStr, i, chunk).0
      ensures ok == Spec.WriteToCache(old(View()), client.requestStr, i, chunk).1
    {
      hide Valid, CacheSpec.Write, Spec.Fallback, LruCache.Cache.Valid, LruCache.Cache.View;
      var k := client.requestStr;
      ListedAt(client, i);
      var status := WriteToCache(k, chunk);
      match status
      case Ok => ok := true;
      case KeyNotFound => ok := false;
      case AllInUse => ok := FallbackToClientBuffer(client, chunk, i);
    }

    method WriteToCache(k: Key, chunk: Bytes) returns (status: CacheSpec.Status)
      requires Valid()
      modifies cache, cache.Repr
      ensures Valid() && cache.Repr == old(cache.Repr)
      ensures unchanged(this) && forall c :: c in clients ==> unchanged(c)
      ensures View() == old(View()).(cache := CacheSpec.Write(old(View()).cache, k, chunk).0)
      ensures status == CacheSpec.Write(old(View()).cache, k, chunk).1
    {
      hide Listed, Mirrored, LruCache.Cache.Valid, LruCache.Cache.View, CacheSpec.Write;
      status := cache.Write(k, chunk);
    }

    // ----- reading the response -----

    /** The exception handler: the others fetch for themselves, and the client leaves. */
    method FailStatus(client: Client, again: nat, ghost i: nat)
      requires Valid() && At(client, i)
      modifies this`requestClients, this`clients, this`groups, cache, cache.Repr, clients
      ensures Valid() && Spec.Listed(old(View()), old(client.requestStr), i)
      ensures clients <= old(clients) && fresh(cache.Repr - old(cache.Repr))
      ensures View() == Spec.StatusFailing(old(View()), old(client.requestStr), i, again)
    {
      hide *;
      ListedAt(client, i);
      HasList(client, i);
      FailShape(View(), client.requestStr, i, again);
      var ok := PrepareAllWaitingClientsForSending(client.requestStr, again);
      if ok {
        DiscardClient(client, i);
      }
    }

    static lemma FailShape(s: Spec.State, k: Key, i: nat, again: nat)
      requires Spec.Listed(s, k, i)
      ensures var t := Spec.PrepareSome(s, k, again);
              && Spec.Listed(t, k, i)
              && Spec.StatusFailing(s, k, i, again)
                 == if Spec.AllReached(Spec.Group(s, k), again) then Spec.Discard(t, k, i) else t
    {
      hide Spec.Discard;
      var g := Spec.Group(s, k);
      if Spec.AllReached(g, again) {
        assert Spec.PrepareBefore(g, again) == Spec.PrepareWaiting(g);
      }
    }

    /** The flags and the entry of a leader. */
    method Open(client: Client)
      requires Apart() && client in clients
      modifies cache, cache.Repr, client`shouldWriteToCache, client`shouldReadFromCache
      ensures Apart() && fresh(cache.Repr - old(cache.Repr))
      ensures client.View() == old(client.View()).(writeCache := true, readCache := true)
      ensures cache.View() == CacheSpec.UseEntry(old(cache.View()), client.requestStr)
    {
      hide LruCache.Cache.Valid, LruCache.Cache.View, CacheSpec.UseEntry;
      client.shouldWriteToCache := true;
      client.shouldReadFromCache := true;
      cache.UseEntry(client.requestStr);
    }

    /** The leader opens the entry of its request. */
    method OpenEntry(client: Client, ghost i: nat)
      requires Valid() && At(client, i)
      modifies this`groups, cache, cache.Repr, client`shouldWriteToCache, client`shouldReadFromCache
      ensures Valid() && fresh(cache.Repr - old(cache.Repr))
      ensures Spec.Listed(old(View()), client.requestStr, i)
      ensures var s, k := old(View()), client.requestStr;
              View() == With(s, k, i, Member(s, k, i).(writeCache := true, readCache := true))
                        .(cache := CacheSpec.UseEntry(s.cache, k))
    {
      ListedAt(client, i);
      ValidApart();
      hide Valid, ValidBut, Apart, LruCache.Cache.Valid, LruCache.Cache.View, CacheSpec.UseEntry, With, At, Client.View;
      Open(client);
      ChangedWithCache(client);
      Record(client, i);
    }

    method ReadFromCache(client: Client, ghost i: nat)
      requires Valid() && At(client, i)
      modifies this`groups, cache, cache.Repr, client`state, client`shouldReadFromCache
      ensures Valid() && fresh(cache.Repr - old(cache.Repr))
      ensures Spec.Listed(old(View()), client.requestStr, i)
      ensures var s, k := old(View()), client.requestStr;
              View() == With(s, k, i, Spec.Reading(Member(s, k, i))).(cache := CacheSpec.UseEntry(s.cache, k))
    {
      ListedAt(client, i);
      ValidApart();
      hide Valid, ValidBut, Apart, LruCache.Cache.View, CacheSpec.UseEntry, With, At;
      SetClientToGetResponseFromCache(client);
      ChangedWithCache(client);
      Record(client, i);
    }

    /** How many of the first `j` clients are not the `i`-th. */
    static ghost function Others(j: nat, i: nat): nat {
      if i < j then j - 1 else j
    }

    static ghost predicate Joining(s: Spec.State, t: Spec.State, k: Key, i: nat, now: seq<Spec.Client>, j: nat) {
      && t == Spec.SetGroup(s, k, now).(cache := Spec.UseTimes(s.cache, k, Others(j, i)))
      && Mixed(now, Spec.OthersRead(Spec.Group(s, k), i), Spec.Group(s, k), j)
    }

    static lemma JoinStep(s: Spec.State, t: Spec.State, k: Key, i: nat, now: seq<Spec.Client>, j: nat)
      requires Joining(s, t, k, i, now, j) && j < |now|
      ensures Spec.Listed(t, k, j) && Member(t, k, j) == Spec.Group(s, k)[j]
      ensures j == i ==> Joining(s, t, k, i, now, j + 1)
      ensures j != i ==>
                var c := Spec.Reading(Member(t, k, j));
                Joining(s, With(t, k, j, c).(cache := CacheSpec.UseEntry(t.cache, k)), k, i, now[j := c], j + 1)
    {
      hide CacheSpec.UseEntry;
      MixedStep(s, k, now, Spec.OthersRead(Spec.Group(s, k), i), Spec.Group(s, k), j);
      if j != i {
        assert Others(j + 1, i) == Others(j, i) + 1;
      }
    }

    method JoinOne(other: Client, client: Client, ghost k: Key, ghost i: nat, ghost j: nat, ghost s: Spec.State,
                   ghost now: seq<Spec.Client>) returns (ghost next: seq<Spec.Client>)
      requires Valid() && At(other, j) && other.requestStr == k && (other == client <==> j == i)
      requires Joining(s, View(), k, i, now, j) && j < |now|
      modifies this`groups, cache, cache.Repr, other`state, other`shouldReadFromCache
      ensures Valid() && |next| == |now| && fresh(cache.Repr - old(cache.Repr))
      ensures Joining(s, View(), k, i, next, j + 1)
    {
      JoinStep(s, View(), k, i, now, j);
      hide Valid, View, Joining, At, With, Member, CacheSpec.UseEntry;
      next := now;
      if other != client {
        next := now[j := Spec.Reading(Member(View(), k, j))];
        ReadFromCache(other, j);
      }
    }

    lemma JoinStart(client: Client, i: nat)
      requires Valid() && At(client, i)
      ensures var k := client.requestStr;
              var list, g := requestClients[k], Spec.Group(View(), k);
              && |g| == |list| && i < |g| && Joining(View(), View(), k, i, g, 0)
              && forall j :: 0 <= j < |list| ==> (list[j] == client <==> j == i)
    {
      SetSame(View(), client.requestStr);
      DistinctClients(client.requestStr);
    }

    method JoinAll(list: seq<Client>, client: Client, ghost k: Key, ghost i: nat, ghost s: Spec.State,
                   ghost g: seq<Spec.Client>) returns (ghost now: seq<Spec.Client>)
      requires Valid() && AtAll(k, list) && |g| == |list| && Joining(s, View(), k, i, g, 0)
      requires forall j :: 0 <= j < |list| ==> (list[j] == client <==> j == i)
      modifies this`groups, cache, cache.Repr, clients`state, clients`shouldReadFromCache
      ensures Valid() && |now| == |list| && Joining(s, View(), k, i, now, |now|)
      ensures fresh(cache.Repr - old(cache.Repr))
    {
      hide Valid, View, LruCache.Cache.Valid, Joining, At;
      now := g;
      for j := 0 to |list|
        invariant Valid() && AtAll(k, list) && |now| == |list| && clients == old(clients)
        invariant fresh(cache.Repr - old(cache.Repr))
        invariant Joining(s, View(), k, i, now, j)
      {
        ValidApart();
        AtEach(k, list, j);
        now := JoinOne(list[j], client, k, i, j, s, now);
      }
    }

    /** Everyone of the leader's request but the leader turns to the entry. */
    method AllOthersRead(client: Client, ghost i: nat)
      requires Valid() && At(client, i)
      modifies this`groups, cache, cache.Repr, clients`state, clients`shouldReadFromCache
      ensures Valid() && Spec.Listed(old(View()), client.requestStr, i)
      ensures fresh(cache.Repr - old(cache.Repr))
      ensures var s, k := old(View()), client.requestStr;
              View() == Spec.SetGroup(s, k, Spec.OthersRead(Spec.Group(s, k), i))
                        .(cache := Spec.UseTimes(s.cache, k, |Spec.Group(s, k)| - 1))
    {
      hide Spec.OthersRead, Spec.UseTimes, Spec.SetGroup, Spec.Group, Valid, View, LruCache.Cache.Valid, Joining,
        Client.View;
      ghost var k := client.requestStr;
      ghost var s := View();
      JoinStart(client, i);
      ListedAt(client, i);
      ghost var now := JoinAll(requestClients[client.requestStr], client, k, i, s, Spec.Group(s, k));
      Joined(s, View(), k, i, now);
    }

    static lemma Joined(s: Spec.State, t: Spec.State, k: Key, i: nat, now: seq<Spec.Client>)
      requires Joining(s, t, k, i, now, |now|) && Spec.Listed(s, k, i)
      ensures t == Spec.SetGroup(s, k, Spec.OthersRead(Spec.Group(s, k), i))
                   .(cache := Spec.UseTimes(s.cache, k, |Spec.Group(s, k)| - 1))
    {
      assert now == Spec.OthersRead(Spec.Group(s, k), i);
    }

    /** std::stoi of the three characters from position 9 on. */
    static function StatusCode(chunk: Bytes): (n: Option<int>)
      requires |chunk| >= 12
      ensures n == Some(200) <==> Spec.IsOk(chunk)
    {
      assert chunk[9..12] == [chunk[9], chunk[10], chunk[11]];
      Ascii.StoiIsOk(chunk[9], chunk[10], chunk[11]);
      Ascii.Stoi(chunk[9..12])
    }

    /** The clients before place `reach` can be connected, and those before `again` once the exception handler
        tries. */
    method ReadResponseStatusCodeFromServer(client: Client, received: Received, reach: nat, again: nat, ghost i: nat)
      requires Valid() && At(client, i)
      requires received.Data? ==> Spec.StatusReadable(received.chunk)
      modifies this`requestClients, this`clients, this`groups, cache, cache.Repr, clients
      ensures Valid() && Spec.Listed(old(View()), old(client.requestStr), i)
      ensures clients <= old(clients) && fresh(cache.Repr - old(cache.Repr))
      ensures var k := old(client.requestStr);
              View() == if received.Data? then Spec.ReadStatus(old(View()), k, i, received.chunk, reach, again)
                        else Spec.StatusFailing(old(View()), k, i, again)
    {
      hide Valid, View, LruCache.Cache.Valid, Client.View, Spec.StatusFailing, Spec.StatusOk, TryOther;
      ListedAt(client, i);
      match received {
        case Data(chunk) =>
          if StatusCode(chunk) == Some(200) {
            ReadOk(client, chunk, again, i);
          } else {
            OtherTried(View(), client.requestStr, i, chunk, reach, again);
            ReadOther(client, chunk, reach, again, i);
          }
        case _ => FailStatus(client, again, i);
      }
    }

    /** The server once everyone of the leader's request reads and the leader waits for more. */
    static ghost function Settled(s: Spec.State, k: Key, i: nat): (t: Spec.State)
      requires Spec.Listed(s, k, i)
      ensures Spec.Listed(t, k, i)
    {
      var h := Spec.OthersRead(Spec.Group(s, k), i);
      Spec.SetGroup(s, k, h[i := h[i].(phase := Spec.WaitingResponse)]).(cache := Spec.UseTimes(s.cache, k, |h| - 1))
    }

    method StartWriting(client: Client, chunk: Bytes, ghost i: nat)
      requires Valid() && At(client, i)
      modifies this`groups, cache, cache.Repr
      modifies client`server, client`shouldWriteToCache, client`shouldReadFromCache
      ensures Valid() && fresh(cache.Repr - old(cache.Repr)) && Spec.Listed(old(View()), client.requestStr, i)
      ensures View() == Spec.Started(old(View()), client.requestStr, i, chunk)
      ensures Apart() && At(client, i) && client in clients
    {
      hide Valid, View, At, With, Member, Client.View, LruCache.Cache.Valid, CacheSpec.UseEntry, Spec.Started;
      ValidApart();
      ListedAt(client, i);
      StartShape(View(), client.requestStr, i, chunk);
      Receive(client, |chunk|, i);
      OpenEntry(client, i);
      ValidApart();
    }

    static lemma StartShape(s: Spec.State, k: Key, i: nat, chunk: Bytes)
      requires Spec.Listed(s, k, i)
      ensures var c := Spec.Advanced(Member(s, k, i), |chunk|);
              var t := With(s, k, i, c);
              && Spec.Listed(t, k, i) && Member(t, k, i) == c && t.cache == s.cache
              && var d := c.(writeCache := true, readCache := true);
                 With(t, k, i, d).(cache := CacheSpec.UseEntry(s.cache, k)) == Spec.Started(s, k, i, chunk)
    {
      hide CacheSpec.UseEntry;
      var c := Spec.Advanced(Member(s, k, i), |chunk|);
      WithWith(s, k, i, c, c.(writeCache := true, readCache := true));
    }

    method Settle(client: Client, ghost i: nat)
      requires Valid() && At(client, i)
      modifies this`groups, cache, cache.Repr, clients`state, clients`shouldReadFromCache
      ensures Valid() && Spec.Listed(old(View()), client.requestStr, i)
      ensures fresh(cache.Repr - old(cache.Repr))
      ensures View() == Settled(old(View()), client.requestStr, i)
    {
      hide Valid, View, At, With, Member, Client.View, LruCache.Cache.Valid, Spec.SetGroup, Spec.UseTimes,
        Spec.OthersRead;
      ValidApart();
      ListedAt(client, i);
      SettleShape(View(), client.requestStr, i);
      AllOthersRead(client, i);
      ListedAt(client, i);
      SetState(client, Spec.WaitingResponse, i);
    }

    static lemma SettleShape(s: Spec.State, k: Key, i: nat)
      requires Spec.Listed(s, k, i)
      ensures var t := Spec.SetGroup(s, k, Spec.OthersRead(Spec.Group(s, k), i))
                       .(cache := Spec.UseTimes(s.cache, k, |Spec.Group(s, k)| - 1));
              Spec.Listed(t, k, i)
              && With(t, k, i, Member(t, k, i).(phase := Spec.WaitingResponse)) == Settled(s, k, i)
    {
      var h := Spec.OthersRead(Spec.Group(s, k), i);
      var h' := h[i := h[i].(phase := Spec.WaitingResponse)];
      assert s.groups[k := h][k := h'] == s.groups[k := h'];
    }

    /** After the leader's first write: everyone turns to the entry, or the leader gives up. */
    method FinishStatus(client: Client, ok: bool, again: nat, ghost i: nat)
      requires Valid() && At(client, i)
      modifies this`requestClients, this`clients, this`groups, cache, cache.Repr, clients
      ensures Valid() && Spec.Listed(old(View()), old(client.requestStr), i)
      ensures clients <= old(clients) && fresh(cache.Repr - old(cache.Repr))
      ensures View() == if ok then Settled(old(View()), old(client.requestStr), i)
                        else Spec.StatusFailing(old(View()), old(client.requestStr), i, again)
    {
      hide Valid, View, At, Settled, Client.View, LruCache.Cache.Valid, Spec.StatusFailing;
      ValidApart();
      ListedAt(client, i);
      if ok {
        Settle(client, i);
      } else {
        FailStatus(client, again, i);
      }
    }

    method WriteThenFinish(client: Client, chunk: Bytes, again: nat, ghost i: nat)
      requires Valid() && At(client, i)
      modifies this`requestClients, this`clients, this`groups, cache, cache.Repr, clients
      ensures Valid() && Spec.Listed(old(View()), old(client.requestStr), i)
      ensures clients <= old(clients) && fresh(cache.Repr - old(cache.Repr))
      ensures var (t, ok) := Spec.WriteToCache(old(View()), old(client.requestStr), i, chunk);
              View() == if ok then Settled(t, old(client.requestStr), i)
                        else Spec.StatusFailing(t, old(client.requestStr), i, again)
    {
      hide Valid, View, At, Settled, Client.View, LruCache.Cache.Valid, Spec.StatusFailing, Spec.WriteToCache;
      ListedAt(client, i);
      ValidApart();
      var ok := WriteResponseChunkToCache(client, chunk, i);
      FinishStatus(client, ok, again, i);
    }

    method ReadOk(client: Client, chunk: Bytes, again: nat, ghost i: nat)
      requires Valid() && At(client, i)
      modifies this`requestClients, this`clients, this`groups, cache, cache.Repr, clients
      ensures Valid() && Spec.Listed(old(View()), old(client.requestStr), i)
      ensures clients <= old(clients) && fresh(cache.Repr - old(cache.Repr))
      ensures View() == Spec.StatusOk(old(View()), old(client.requestStr), i, chunk, again)
    {
      hide Valid, View, At, Spec.Started, Settled, Client.View, LruCache.Cache.Valid;
      hide Spec.StatusOk, Spec.WriteToCache, Spec.StatusFailing;
      ListedAt(client, i);
      ValidApart();
      OkShape(View(), client.requestStr, i, chunk, again);
      StartWriting(client, chunk, i);
      WriteThenFinish(client, chunk, again, i);
    }

    static lemma OkShape(s: Spec.State, k: Key, i: nat, chunk: Bytes, again: nat)
      requires Spec.Listed(s, k, i)
      ensures var (t, ok) := Spec.WriteToCache(Spec.Started(s, k, i, chunk), k, i, chunk);
              Spec.StatusOk(s, k, i, chunk, again) == if ok then Settled(t, k, i)
                else Spec.StatusFailing(t, k, i, again)
    {
      hide CacheSpec.UseEntry, Spec.WriteToCache, Spec.StatusFailed, Spec.StatusFailing, Spec.UseTimes, Spec.Started;
    }

    /** What is done once a chunk of a response that is not cached is in the client's queue. */
    static ghost function TryOther(u: Spec.State, k: Key, i: nat, reach: nat, again: nat): Spec.State
      requires Spec.Listed(u, k, i)
    {
      var t := Spec.PrepareSome(u, k, reach);
      if Spec.AllReached(Spec.Group(u, k), reach)
      then With(t, k, i, Member(t, k, i).(phase := Spec.WaitingResponse))
      else Spec.StatusFailing(t, k, i, again)
    }

    static lemma OtherTried(s: Spec.State, k: Key, i: nat, chunk: Bytes, reach: nat, again: nat)
      requires Spec.Listed(s, k, i) && !Spec.IsOk(chunk)
      ensures var u := With(s, k, i, Spec.Queued(Spec.Advanced(Member(s, k, i), |chunk|), chunk));
              Spec.Listed(u, k, i) && Spec.ReadStatus(s, k, i, chunk, reach, again) == TryOther(u, k, i, reach, again)
    {
      hide Spec.StatusFailing, Spec.StatusOk, Spec.IsOk;
      var g := Spec.Group(s, k);
      var u := With(s, k, i, Spec.Queued(Spec.Advanced(Member(s, k, i), |chunk|), chunk));
      var h := Spec.Group(u, k);
      assert u == Spec.Received(s, k, i, chunk);
      assert Spec.AllReached(h, reach) <==> Spec.AllReached(g, reach) by {
        assert forall j :: 0 <= j < |g| ==> h[j].phase == g[j].phase;
      }
      if Spec.AllReached(h, reach) {
        assert Spec.PrepareBefore(h, reach) == Spec.PrepareWaiting(h);
        var h' := Spec.PrepareWaiting(h);
        var h2 := h'[i := h'[i].(phase := Spec.WaitingResponse)];
        assert s.groups[k := h][k := h'] == s.groups[k := h'] && s.groups[k := h'][k := h2] == s.groups[k := h2];
      }
    }

    method ReadOther(client: Client, chunk: Bytes, reach: nat, again: nat, ghost i: nat)
      requires Valid() && At(client, i)
      modifies this`requestClients, this`clients, this`groups, cache, cache.Repr, clients
      ensures Valid() && Spec.Listed(old(View()), old(client.requestStr), i)
      ensures clients <= old(clients) && fresh(cache.Repr - old(cache.Repr))
      ensures var s, k := old(View()), old(client.requestStr);
              var u := With(s, k, i, Spec.Queued(Spec.Advanced(Member(s, k, i), |chunk|), chunk));
              Spec.Listed(u, k, i) && View() == TryOther(u, k, i, reach, again)
    {
      hide Valid, View, At, With, Member, Client.View, TryOther;
      ListedAt(client, i);
      ReceiveToBuffer(client, chunk, i);
      LetOthersFetch(client, reach, again, i);
    }

    /** Every waiting client of the request fetches for itself, and this one goes on with its own response. */
    method LetOthersFetch(client: Client, reach: nat, again: nat, ghost i: nat)
      requires Valid() && At(client, i)
      modifies this`requestClients, this`clients, this`groups, cache, cache.Repr, clients
      ensures Valid() && Spec.Listed(old(View()), old(client.requestStr), i)
      ensures clients <= old(clients) && fresh(cache.Repr - old(cache.Repr))
      ensures View() == TryOther(old(View()), old(client.requestStr), i, reach, again)
    {
      hide *;
      ListedAt(client, i);
      HasList(client, i);
      OtherShape(View(), client.requestStr, i, reach, again);
      var ok := PrepareAllWaitingClientsForSending(client.requestStr, reach);
      if ok {
        ListedAt(client, i);
        SetState(client, Spec.WaitingResponse, i);
      } else {
        FailStatus(client, again, i);
      }
    }

    static lemma OtherShape(u: Spec.State, k: Key, i: nat, reach: nat, again: nat)
      requires Spec.Listed(u, k, i)
      ensures var t := Spec.PrepareSome(u, k, reach);
              && Spec.Listed(t, k, i)
              && TryOther(u, k, i, reach, again)
                 == if Spec.AllReached(Spec.Group(u, k), reach)
                    then With(t, k, i, Member(t, k, i).(phase := Spec.WaitingResponse))
                    else Spec.StatusFailing(t, k, i, again)
    {
    }

    /** Receives a chunk into the client's own queue. */
    method ReceiveToBuffer(client: Client, chunk: Bytes, ghost i: nat)
      requires Valid() && At(client, i)
      modifies this`groups, client`server, client`chunks
      ensures Valid() && Spec.Listed(old(View()), client.requestStr, i)
      ensures View() == With(old(View()), client.requestStr, i,
                             Spec.Queued(Spec.Advanced(Member(old(View()), client.requestStr, i), |chunk|), chunk))
    {
      hide Valid, View, At, With, Member, Client.View, LruCache.Cache.Valid;
      ListedAt(client, i);
      ghost var c := Spec.Advanced(client.View(), |chunk|);
      WithWith(View(), client.requestStr, i, c, Spec.Queued(c, chunk));
      Receive(client, |chunk|, i);
      ListedAt(client, i);
      WriteResponseChunkToClientBuffer(client, chunk, i);
    }

    static lemma WithWith(s: Spec.State, k: Key, i: nat, c: Spec.Client, d: Spec.Client)
      requires Spec.Listed(s, k, i)
      ensures Spec.Listed(With(s, k, i, c), k, i) && Member(With(s, k, i, c), k, i) == c
      ensures With(With(s, k, i, c), k, i, d) == With(s, k, i, d)
    {
      var g := Spec.Group(s, k);
      assert g[i := c][i := d] == g[i := d];
      assert s.groups[k := g[i := c]][k := g[i := d]] == s.groups[k := g[i := d]];
    }

    /** What the server does with a chunk once the read position of the connection has moved. */
    static ghost function Delivered(s: Spec.State, k: Key, i: nat, chunk: Bytes): Spec.State
      requires Spec.Listed(s, k, i)
    {
      var c := Member(s, k, i);
      if c.writeCache then Stored(s, k, i, chunk)
      else if c.writeAll then Spec.SetGroup(s, k, Spec.QueueAll(Spec.Group(s, k), chunk))
      else With(s, k, i, Spec.Queued(c, chunk))
    }

    static ghost function Stored(s: Spec.State, k: Key, i: nat, chunk: Bytes): Spec.State
      requires Spec.Listed(s, k, i)
    {
      var (t, ok) := Spec.WriteToCache(s, k, i, chunk);
      if ok then t else Spec.Discard(t, k, i)
    }

    /** The chunk is to be written to an entry that is not there, so that its client leaves. */
    static ghost predicate Misses(s: Spec.State, k: Key, i: nat, chunk: Bytes)
      requires Spec.Listed(s, k, i)
    {
      Member(s, k, i).writeCache && !Spec.WriteToCache(s, k, i, chunk).1
    }

    /** The client leaves when this is received. */
    static ghost predicate LeavesOn(s: Spec.State, k: Key, i: nat, received: Received)
      requires Spec.Listed(s, k, i)
    {
      match received
      case Data(chunk) =>
        var t := With(s, k, i, Spec.Advanced(Member(s, k, i), |chunk|));
        Spec.Listed(t, k, i) && Misses(t, k, i, chunk)
      case ZeroLength => false
      case Failed => true
    }

    static lemma ChunkShape(s: Spec.State, k: Key, i: nat, chunk: Bytes)
      requires Spec.Listed(s, k, i)
      ensures var t := With(s, k, i, Spec.Advanced(Member(s, k, i), |chunk|));
              Spec.Listed(t, k, i) && Delivered(t, k, i, chunk) == Spec.ReadChunk(s, k, i, chunk)
    {
      var c := Spec.Advanced(Member(s, k, i), |chunk|);
      var g := Spec.Group(s, k)[i := c];
      var t := With(s, k, i, c);
      WithWith(s, k, i, c, Spec.Queued(c, chunk));
      hide Spec.WriteToCache, Spec.Discard;
      assert Spec.Group(t, k) == g;
      assert s.groups[k := g][k := Spec.QueueAll(g, chunk)] == s.groups[k := Spec.QueueAll(g, chunk)];
      assert Spec.Group(s, k)[i := Spec.Queued(c, chunk)] == g[i := Spec.Queued(c, chunk)];
    }

    /** Writes to the shared entry; a missing key ends the client. */
    method DeliverToCache(client: Client, chunk: Bytes, ghost i: nat)
      requires Valid() && At(client, i)
      modifies this`requestClients, this`clients, this`groups, cache, cache.Repr, clients
      ensures Valid() && Spec.Listed(old(View()), old(client.requestStr), i)
      ensures clients <= old(clients) && fresh(cache.Repr - old(cache.Repr))
      ensures View() == Stored(old(View()), old(client.requestStr), i, chunk)
      ensures Spec.WriteToCache(old(View()), old(client.requestStr), i, chunk).1 ==>
                Stays(client, i, old(client.requestStr)) && clients == old(clients) && cache.Repr == old(cache.Repr)
    {
      assert Stays(client, i, client.requestStr);
      hide *;
      ListedAt(client, i);
      ValidApart();
      StoredShape(View(), client.requestStr, i, chunk);
      var ok := WriteAndStay(client, chunk, i);
      DiscardUnless(client, ok, i);
    }

    /** As WriteResponseChunkToCache, and the client keeps its place. */
    method WriteAndStay(client: Client, chunk: Bytes, ghost i: nat) returns (ok: bool)
      requires Valid() && At(client, i)
      modifies this`groups, cache, cache.Repr
      modifies clients`state, clients`shouldReadFromCache, clients`chunks, clients`shouldWriteToCache,
               clients`shouldWriteToAll
      ensures Valid() && cache.Repr == old(cache.Repr) && clients == old(clients)
      ensures At(client, i) && client.requestStr == old(client.requestStr) && client in clients
      ensures Spec.Listed(old(View()), client.requestStr, i)
      ensures View() == Spec.WriteToCache(old(View()), client.requestStr, i, chunk).0
      ensures ok == Spec.WriteToCache(old(View()), client.requestStr, i, chunk).1
    {
      hide *;
      ListedAt(client, i);
      ValidApart();
      assert this !in cache.Repr && client !in cache.Repr by {
        NotInRepr(client);
      }
      ok := WriteResponseChunkToCache(client, chunk, i);
    }

    lemma NotInRepr(client: Client)
      requires Apart() && client in clients
      ensures this !in cache.Repr && client !in cache.Repr
    {
    }

    static lemma StoredShape(s: Spec.State, k: Key, i: nat, chunk: Bytes)
      requires Spec.Listed(s, k, i)
      ensures var r := Spec.WriteToCache(s, k, i, chunk);
              Stored(s, k, i, chunk) == if r.1 then r.0 else Spec.Discard(r.0, k, i)
    {
      hide Spec.WriteToCache, Spec.Discard;
    }

    /** `client` is still the `i`-th client of the same request. */
    ghost predicate Stays(client: Client, i: nat, k: Key)
      reads this`requestClients, client`requestStr
    {
      At(client, i) && client.requestStr == k
    }

    method DiscardUnless(client: Client, ok: bool, ghost i: nat)
      requires Valid() && At(client, i)
      modifies this`requestClients, this`clients, this`groups, cache, cache.Repr, clients
      ensures Valid() && Spec.Listed(old(View()), old(client.requestStr), i)
      ensures clients <= old(clients) && fresh(cache.Repr - old(cache.Repr))
      ensures ok ==> Stays(client, i, old(client.requestStr))
      ensures ok ==> clients == old(clients) && cache.Repr == old(cache.Repr)
      ensures View() == if ok then old(View()) else Spec.Discard(old(View()), old(client.requestStr), i)
    {
      assert Stays(client, i, client.requestStr);
      hide *;
      ListedAt(client, i);
      if !ok {
        DiscardClient(client, i);
      }
    }

    lemma Delivers(client: Client, i: nat, chunk: Bytes)
      requires Valid() && At(client, i)
      ensures var s, k := View(), client.requestStr;
              && Spec.Listed(s, k, i) && k in requestClients && Stays(client, i, k)
              && Delivered(s, k, i, chunk)
                 == (if client.shouldWriteToCache then Stored(s, k, i, chunk)
                     else if client.shouldWriteToAll
                     then Spec.SetGroup(s, k, Spec.QueueAll(Spec.Group(s, k), chunk))
                     else With(s, k, i, Spec.Queued(client.View(), chunk)))
              && (Misses(s, k, i, chunk) <==> client.shouldWriteToCache && !Spec.WriteToCache(s, k, i, chunk).1)
    {
      ListedAt(client, i);
      hide View, Spec.WriteToCache, Stored, With, Spec.QueueAll, Spec.Queued, Spec.SetGroup, LruCache.Cache.Valid;
    }

    lemma HasList(client: Client, i: nat)
      requires Valid() && At(client, i)
      ensures client.requestStr in requestClients
    {
    }

    method Deliver(client: Client, chunk: Bytes, ghost i: nat)
      requires Valid() && At(client, i)
      modifies this`requestClients, this`clients, this`groups, cache, cache.Repr, clients
      ensures Valid() && Spec.Listed(old(View()), old(client.requestStr), i)
      ensures clients <= old(clients) && fresh(cache.Repr - old(cache.Repr))
      ensures View() == Delivered(old(View()), old(client.requestStr), i, chunk)
      ensures !Misses(old(View()), old(client.requestStr), i, chunk) ==>
                Stays(client, i, old(client.requestStr)) && clients == old(clients) && cache.Repr == old(cache.Repr)
    {
      hide *;
      ListedAt(client, i);
      Delivers(client, i, chunk);
      if client.shouldWriteToCache {
        DeliverToCache(client, chunk, i);
      } else if client.shouldWriteToAll {
        WriteResponseChunkToAll(client.requestStr, chunk);
      } else {
        WriteResponseChunkToClientBuffer(client, chunk, i);
      }
    }

    /** The end of the response: the entry is complete, or the group that shares no entry has it all. */
    method EndResponse(client: Client, ghost i: nat)
      requires Valid() && At(client, i)
      modifies this`groups, cache, cache.Repr, clients`state
      ensures Valid() && Spec.Listed(old(View()), client.requestStr, i) && cache.Repr == old(cache.Repr)
      ensures View() == Spec.ReadEof(old(View()), client.requestStr, i)
    {
      hide Valid, View, At, With, Member, LruCache.Cache.Valid, Spec.AllGotResponse, Spec.ReadEof, CacheSpec.Complete;
      ListedAt(client, i);
      ValidApart();
      EofShape(View(), client.requestStr, i);
      HasList(client, i);
      SetState(client, Spec.GotResponse, i);
      if client.shouldWriteToCache {
        CompleteEntry(client.requestStr);
      } else if client.shouldWriteToAll {
        FinishAll(client.requestStr);
      }
    }

    static lemma EofShape(s: Spec.State, k: Key, i: nat)
      requires Spec.Listed(s, k, i)
      ensures var c := Member(s, k, i);
              var t := With(s, k, i, c.(phase := Spec.GotResponse));
              && Spec.Listed(t, k, i)
              && Spec.ReadEof(s, k, i) == if c.writeCache then t.(cache := CacheSpec.Complete(t.cache, k))
                                          else if c.writeAll
                                          then Spec.SetGroup(t, k, Spec.AllGotResponse(Spec.Group(t, k)))
                                          else t
    {
      hide CacheSpec.Complete;
      var g := Spec.Group(s, k);
      var h := g[i := g[i].(phase := Spec.GotResponse)];
      assert s.groups[k := h][k := Spec.AllGotResponse(h)] == s.groups[k := Spec.AllGotResponse(h)];
    }

    method CompleteEntry(k: Key)
      requires Valid()
      modifies cache, cache.Repr
      ensures Valid() && cache.Repr == old(cache.Repr)
      ensures View() == old(View()).(cache := CacheSpec.Complete(old(View()).cache, k))
    {
      hide Listed, Mirrored, LruCache.Cache.Valid, LruCache.Cache.View, CacheSpec.Complete;
      var _ := cache.CompleteEntry(k);
    }

    method ReadResponseFromServer(client: Client, received: Received, ghost i: nat)
      requires Valid() && At(client, i)
      modifies this`requestClients, this`clients, this`groups, cache, cache.Repr, clients
      ensures Valid() && Spec.Listed(old(View()), old(client.requestStr), i)
      ensures clients <= old(clients) && fresh(cache.Repr - old(cache.Repr))
      ensures View() == match received
                        case Data(chunk) => Spec.ReadChunk(old(View()), old(client.requestStr), i, chunk)
                        case ZeroLength => Spec.ReadEof(old(View()), old(client.requestStr), i)
                        case Failed => Spec.Discard(old(View()), old(client.requestStr), i)
      ensures !LeavesOn(old(View()), old(client.requestStr), i, received) ==>
                Stays(client, i, old(client.requestStr)) && clients == old(clients) && cache.Repr == old(cache.Repr)
    {
      assert Stays(client, i, client.requestStr);
      hide Valid, View, At, Stays, LruCache.Cache.Valid, Client.View, Spec.ReadChunk, Spec.ReadEof, Spec.Discard;
      ListedAt(client, i);
      match received {
        case Data(chunk) => ReadChunk(client, chunk, i);
        case ZeroLength => EndResponse(client, i);
        case Failed => DiscardClient(client, i);
      }
    }

    method ReadChunk(client: Client, chunk: Bytes, ghost i: nat)
      requires Valid() && At(client, i)
      modifies this`requestClients, this`clients, this`groups, cache, cache.Repr, clients
      ensures Valid() && Spec.Listed(old(View()), old(client.requestStr), i)
      ensures clients <= old(clients) && fresh(cache.Repr - old(cache.Repr))
      ensures View() == Spec.ReadChunk(old(View()), old(client.requestStr), i, chunk)
      ensures !LeavesOn(old(View()), old(client.requestStr), i, Data(chunk)) ==>
                Stays(client, i, old(client.requestStr)) && clients == old(clients) && cache.Repr == old(cache.Repr)
    {
      hide Valid, View, At, Stays, Misses, With, Member, LruCache.Cache.Valid, Client.View, Spec.ReadChunk, Delivered;
      ListedAt(client, i);
      ChunkShape(View(), client.requestStr, i, chunk);
      Receive(client, |chunk|, i);
      Deliver(client, chunk, i);
    }

    // ----- sending the response -----

    /** The client has got everything: it leaves, and what it was sent is recorded. */
    method Done(client: Client, ghost i: nat)
      requires Valid() && At(client, i)
      modifies this`requestClients, this`clients, this`groups, this`finished, cache, cache.Repr
      modifies clients`server, clients`state, clients`shouldWriteToCache
      ensures Valid() && client !in clients && Spec.Listed(old(View()), client.requestStr, i)
      ensures clients <= old(clients) && fresh(cache.Repr - old(cache.Repr))
      ensures View() == Spec.Finish(old(View()), client.requestStr, i)
    {
      ListedAt(client, i);
      ghost var record := Spec.Finished(client.requestStr, client.delivered, client.base);
      hide Valid, View, At, LruCache.Cache.Valid, Spec.Discard;
      DiscardClient(client, i);
      RecordFinished(record);
    }

    ghost method RecordFinished(record: Spec.Finished)
      requires Valid()
      modifies this`finished
      ensures Valid() && View() == old(View()).(finished := old(View()).finished + [record])
    {
      hide Listed, Mirrored, LruCache.Cache.Valid, LruCache.Cache.View;
      finished := finished + [record];
    }

    method SendUncachedResponseToClient(client: Client, room: nat, ghost i: nat)
      requires Valid() && At(client, i) && !client.shouldReadFromCache
      modifies this`requestClients, this`clients, this`groups, this`finished, cache, cache.Repr, clients
      ensures Valid() && Spec.Listed(old(View()), old(client.requestStr), i)
      ensures clients <= old(clients) && fresh(cache.Repr - old(cache.Repr))
      ensures View() == SentUncached(old(View()), old(client.requestStr), i, room)
    {
      hide Valid, View, At, With, LruCache.Cache.Valid, Spec.Finish, SentFront;
      ListedAt(client, i);
      if client.chunks == [] {
        if client.state == Spec.GotResponse {
          Done(client, i);
        }
      } else {
        SendFromChunks(client, room, i);
      }
    }

    static ghost function SentUncached(s: Spec.State, k: Key, i: nat, room: nat): Spec.State
      requires Spec.Listed(s, k, i)
    {
      var c := Member(s, k, i);
      if c.chunks != [] then With(s, k, i, SentFront(c, room))
      else if c.phase == Spec.GotResponse then Spec.Finish(s, k, i)
      else s
    }

    static lemma UncachedShape(s: Spec.State, k: Key, i: nat, room: nat)
      requires Spec.Listed(s, k, i) && !Member(s, k, i).readCache
      ensures Spec.Send(s, k, i, room) == SentUncached(s, k, i, room)
    {
      hide Spec.Finish;
    }

    method SendFromChunks(client: Client, room: nat, ghost i: nat)
      requires Valid() && At(client, i) && client.chunks != []
      modifies this`groups, client`chunks, client`sentBytes, client`delivered
      ensures Valid() && Spec.Listed(old(View()), client.requestStr, i)
      ensures View() == With(old(View()), client.requestStr, i, SentFront(old(client.View()), room))
    {
      hide Valid, ValidBut, View, With, At, SentFront;
      ListedAt(client, i);
      client.SendToClientFromChunks(room);
      ChangedOnly(client);
      Record(client, i);
    }

    method SendBytes(client: Client, bytes: Bytes, room: nat, ghost i: nat)
      requires Valid() && At(client, i)
      modifies this`groups, client`sentBytes, client`delivered
      ensures Valid() && Spec.Listed(old(View()), client.requestStr, i)
      ensures View() == With(old(View()), client.requestStr, i, TakenOf(old(client.View()), bytes, room))
    {
      hide Valid, ValidBut, View, With, At;
      ListedAt(client, i);
      var written := client.SendToClient(bytes, room);
      ChangedOnly(client);
      Record(client, i);
    }

    /** The client once its socket took what it has room for of these bytes. */
    static ghost function TakenOf(c: Spec.Client, bytes: Bytes, room: nat): Spec.Client {
      Spec.Sent(c, bytes[..Spec.Min(room, |bytes|)])
    }

    /** getEntry as a caller sees it. */
    method ReadEntry(k: Key) returns (e: Option<CacheSpec.Entry>)
      requires Valid()
      modifies cache, cache.Repr
      ensures Valid() && Apart() && cache.Repr == old(cache.Repr)
      ensures View() == old(View()).(cache := CacheSpec.Touch(old(View()).cache, k))
      ensures e == CacheSpec.Lookup(old(View()).cache, k)
    {
      hide Listed, Mirrored, LruCache.Cache.Valid, LruCache.Cache.View, CacheSpec.Touch, CacheSpec.Lookup;
      e := cache.ReadEntry(k);
    }

    method ReadSlice(k: Key, offset: nat, len: nat) returns (r: Option<Bytes>)
      requires Valid()
      requires var e := CacheSpec.Lookup(View().cache, k); e.Some? && offset + len <= |e.value.buffer|
      modifies cache, cache.Repr
      ensures Valid() && Apart() && cache.Repr == old(cache.Repr)
      ensures View() == old(View()).(cache := CacheSpec.Touch(old(View()).cache, k))
      ensures r == Some(CacheSpec.Lookup(old(View()).cache, k).value.buffer[offset..offset + len])
    {
      hide Listed, Mirrored, LruCache.Cache.Valid, LruCache.Cache.View, CacheSpec.Touch, CacheSpec.Lookup;
      r := cache.Read(k, offset, len);
    }

    /** Touching an entry does not change it. */
    lemma EntryKept(k: Key)
      requires Valid()
      ensures CacheSpec.Lookup(CacheSpec.Touch(View().cache, k), k) == CacheSpec.Lookup(View().cache, k)
    {
      cache.DistinctKeys();
      if CacheSpec.Contains(View().cache, k) {
        CacheSpec.PutEffect(View().cache, k, CacheSpec.Lookup(View().cache, k).value);
      }
    }

    static lemma WithCache(s: Spec.State, k: Key, i: nat, c: Spec.Client, t: CacheSpec.Store)
      requires Spec.Listed(s, k, i)
      ensures var u := s.(cache := t);
              Spec.Listed(u, k, i) && Member(u, k, i) == Member(s, k, i)
              && With(u, k, i, c) == With(s, k, i, c).(cache := t)
    {
    }

    /** A client whose entry is gone is left as it is: the KeyNotFound exception ends the step. */
    method SendCachedResponseToClient(client: Client, room: nat, ghost i: nat)
      requires Valid() && At(client, i) && client.shouldReadFromCache
      modifies this`requestClients, this`clients, this`groups, this`finished, cache, cache.Repr, clients
      ensures Valid() && Spec.Listed(old(View()), old(client.requestStr), i)
      ensures clients <= old(clients) && fresh(cache.Repr - old(cache.Repr))
      ensures View() == SentCached(old(View()), old(client.requestStr), i, room)
    {
      hide Valid, View, At, With, Member, LruCache.Cache.Valid, Client.View;
      hide Spec.Finish, CacheSpec.Touch, CacheSpec.Lookup, SentFrom;
      ListedAt(client, i);
      ValidApart();
      EntryKept(client.requestStr);
      TouchedShape(View(), client.requestStr, i);
      var e := ReadEntry(client.requestStr);
      if e.Some? {
        ListedAt(client, i);
        SendFromEntry(client, room, e.value, i);
      }
    }

    static ghost function SentCached(s: Spec.State, k: Key, i: nat, room: nat): Spec.State
      requires Spec.Listed(s, k, i)
    {
      var t := s.(cache := CacheSpec.Touch(s.cache, k));
      match CacheSpec.Lookup(s.cache, k)
      case None => t
      case Some(e) => SentFrom(t, k, i, e, room)
    }

    static lemma TouchedShape(s: Spec.State, k: Key, i: nat)
      requires Spec.Listed(s, k, i)
      ensures var t := s.(cache := CacheSpec.Touch(s.cache, k));
              Spec.Listed(t, k, i) && Member(t, k, i) == Member(s, k, i)
    {
    }

    static lemma CachedShape(s: Spec.State, k: Key, i: nat, room: nat)
      requires Spec.Listed(s, k, i) && Member(s, k, i).readCache
      ensures Spec.Send(s, k, i, room) == SentCached(s, k, i, room)
    {
      hide CacheSpec.Lookup, Spec.Finish;
    }

    /** What of an entry with this content is offered at once. */
    static ghost function NextSlice(buffer: Bytes, sent: nat): (r: Bytes)
      ensures sent < |buffer| ==> |r| == Spec.Min(|buffer| - sent, Spec.MAX_CHUNK_SIZE)
    {
      if sent < |buffer| then buffer[sent..sent + Spec.Min(|buffer| - sent, Spec.MAX_CHUNK_SIZE)] else ""
    }

    static ghost function SentFrom(s: Spec.State, k: Key, i: nat, e: CacheSpec.Entry, room: nat): Spec.State
      requires Spec.Listed(s, k, i)
    {
      var c := Member(s, k, i);
      if c.sent >= |e.buffer| then
        if e.completed then Spec.Finish(s, k, i) else s
      else
        With(s, k, i, TakenOf(c, NextSlice(e.buffer, c.sent), room)).(cache := CacheSpec.Touch(s.cache, k))
    }

    /** Sends from an entry that the client just looked up. */
    method SendFromEntry(client: Client, room: nat, e: CacheSpec.Entry, ghost i: nat)
      requires Valid() && At(client, i) && CacheSpec.Lookup(View().cache, client.requestStr) == Some(e)
      modifies this`requestClients, this`clients, this`groups, this`finished, cache, cache.Repr, clients
      ensures Valid() && Spec.Listed(old(View()), old(client.requestStr), i)
      ensures clients <= old(clients) && fresh(cache.Repr - old(cache.Repr))
      ensures View() == SentFrom(old(View()), old(client.requestStr), i, e, room)
    {
      hide Valid, View, At, With, Member, LruCache.Cache.Valid, Spec.Finish, CacheSpec.Touch, CacheSpec.Lookup, TakenOf;
      ValidApart();
      ListedAt(client, i);
      if client.sentBytes >= |e.buffer| {
        if e.completed {
          Done(client, i);
        }
      } else {
        SendSlice(client, room, e.buffer, i);
      }
    }

    /** Reads the next slice of the entry, which this touches once more. */
    method ReadNext(k: Key, buffer: Bytes, sent: nat) returns (bytes: Bytes)
      requires Valid() && sent < |buffer|
      requires var e := CacheSpec.Lookup(View().cache, k); e.Some? && e.value.buffer == buffer
      modifies cache, cache.Repr
      ensures Valid() && Apart() && cache.Repr == old(cache.Repr)
      ensures View() == old(View()).(cache := CacheSpec.Touch(old(View()).cache, k))
      ensures bytes == NextSlice(buffer, sent)
    {
      hide Valid, View, Apart, CacheSpec.Touch, CacheSpec.Lookup;
      var left := |buffer| - sent;
      var size := if left < Spec.MAX_CHUNK_SIZE then left else Spec.MAX_CHUNK_SIZE;
      var r := ReadSlice(k, sent, size);
      bytes := r.value;
    }

    method SendSlice(client: Client, room: nat, buffer: Bytes, ghost i: nat)
      requires Valid() && At(client, i) && client.sentBytes < |buffer|
      requires var e := CacheSpec.Lookup(View().cache, client.requestStr); e.Some? && e.value.buffer == buffer
      modifies this`groups, cache, cache.Repr, client`sentBytes, client`delivered
      ensures Valid() && Spec.Listed(old(View()), client.requestStr, i)
      ensures fresh(cache.Repr - old(cache.Repr))
      ensures var c := old(client.View());
              View() == With(old(View()), client.requestStr, i, TakenOf(c, NextSlice(buffer, c.sent), room))
                        .(cache := CacheSpec.Touch(old(View()).cache, client.requestStr))
    {
      hide Valid, View, At, With, Member, CacheSpec.Touch, CacheSpec.Lookup, LruCache.Cache.Valid, Apart;
      hide NextSlice, TakenOf, Spec.Listed;
      ListedAt(client, i);
      ValidApart();
      WithCache(View(), client.requestStr, i, TakenOf(client.View(), NextSlice(buffer, client.sentBytes), room),
                CacheSpec.Touch(View().cache, client.requestStr));
      var bytes := ReadNext(client.requestStr, buffer, client.sentBytes);
      SendBytes(client, bytes, room, i);
    }

    /** `room`: how many bytes the client's socket takes. */
    method SendResponseToClient(client: Client, room: nat, ghost i: nat)
      requires Valid() && At(client, i)
      modifies this`requestClients, this`clients, this`groups, this`finished, cache, cache.Repr, clients
      ensures Valid() && Spec.Listed(old(View()), old(client.requestStr), i)
      ensures clients <= old(clients) && fresh(cache.Repr - old(cache.Repr))
      ensures View() == Spec.Send(old(View()), old(client.requestStr), i, room)
    {
      hide Valid, View, At, Member, LruCache.Cache.Valid, SentCached, SentUncached, Spec.Send;
      ListedAt(client, i);
      if client.shouldReadFromCache {
        CachedShape(View(), client.requestStr, i, room);
        SendCachedResponseToClient(client, room, i);
      } else {
        UncachedShape(View(), client.requestStr, i, room);
        SendUncachedResponseToClient(client, room, i);
      }
    }
  }
}
