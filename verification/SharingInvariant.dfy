/** The invariant of the response-sharing protocol, request by request. */
module SharingInvariant {
  import opened Wrappers
  import opened CacheSpec
  import opened Sharing

  // ----- the stream of one client -----

  ghost function Flat(chunks: seq<Bytes>): Bytes {
    if chunks == [] then "" else chunks[0] + Flat(chunks[1..])
  }

  lemma {:induction false} FlatAppend(a: seq<Bytes>, b: seq<Bytes>)
    ensures Flat(a + b) == Flat(a) + Flat(b)
  {
    if a == [] {
      assert a + b == b;
    } else {
      FlatAppend(a[1..], b);
      assert (a + b)[1..] == a[1..] + b;
    }
  }

  lemma FlatOne(chunk: Bytes)
    ensures Flat([chunk]) == chunk
  {
    assert Flat([chunk]) == chunk + Flat([]);
  }

  /** What the client has been sent and what is queued for it. */
  ghost function Stream(c: Client): Bytes {
    c.delivered + Flat(c.chunks)
  }

  /** How far into the response the client's stream reaches. */
  ghost function Reached(c: Client): nat {
    c.base + |Stream(c)|
  }

  /** The stream is the part of the response between `base` and `Reached`. */
  ghost predicate Faithful(resp: Bytes, c: Client) {
    && c.sent == |c.delivered|
    && Reached(c) <= |resp|
    && Stream(c) == resp[c.base..Reached(c)]
  }

  // ----- the clients of one request -----

  /** The client has a request and no byte of the response. */
  ghost predicate Fetching(c: Client) {
    && c.sent == 0 && c.chunks == [] && c.delivered == "" && c.base == 0
    && !c.readCache && !c.writeCache && !c.writeAll
    && match c.phase
       case WaitingForAnother => c.server == None
       case SendingRequest => c.server == Some(0)
       case WaitingStatus => c.server == Some(0)
       case _ => false
  }

  ghost predicate Gathering(g: seq<Client>) {
    forall i :: 0 <= i < |g| ==> Fetching(g[i])
  }

  /** The client reads the entry, and writes it too while it waits for the response. */
  ghost predicate Reader(c: Client, e: Entry) {
    && c.readCache && !c.writeAll && c.base == 0 && c.chunks == []
    && c.sent == |c.delivered| && c.delivered <= e.buffer
    && match c.phase
       case GotResponse => true
       case WaitingResponse => c.writeCache && c.server == Some(|e.buffer|)
       case _ => false
  }

  ghost predicate HasWriter(g: seq<Client>) {
    exists i :: 0 <= i < |g| && g[i].phase == WaitingResponse
  }

  ghost predicate OneWriter(g: seq<Client>) {
    forall i, j :: 0 <= i < |g| && 0 <= j < |g| ==>
                     g[i].phase == WaitingResponse && g[j].phase == WaitingResponse ==> i == j
  }

  /** Everyone reads the entry, which counts them all; one of them writes it. */
  ghost predicate Cached(resp: Bytes, g: seq<Client>, e: Entry) {
    && IsOk(resp) && e.buffer <= resp && (e.completed ==> e.buffer == resp)
    && e.inUse == |g| && (g == [] ==> e.completed)
    && (forall i :: 0 <= i < |g| ==> Reader(g[i], e))
    && OneWriter(g)
    && (e.completed ==> !HasWriter(g))
  }

  /** The client is fed from its own queue, filled by one client that broadcasts. */
  ghost predicate Fed(resp: Bytes, c: Client) {
    && Faithful(resp, c) && !c.readCache
    && match c.phase
       case WaitingForAnother => true
       case GettingFromAnother => true
       case GotResponse => Reached(c) == |resp|
       case WaitingResponse => IsBroadcasting(c) && c.server.value > 0
       case _ => false
  }

  ghost predicate Broadcast(resp: Bytes, g: seq<Client>) {
    && (forall i :: 0 <= i < |g| ==> Fed(resp, g[i]))
    && OneWriter(g)
    && (forall i, j :: 0 <= i < |g| && 0 <= j < |g| && g[i].phase == WaitingResponse ==>
                         g[i].server == Some(Reached(g[j])))
  }

  /** The client reads its own connection into its own queue. */
  ghost predicate Alone(resp: Bytes, c: Client) {
    && Faithful(resp, c) && c.base == 0 && !c.readCache && !c.writeCache && !c.writeAll
    && match c.phase
       case WaitingResponse => c.server == Some(Reached(c))
       case GotResponse => Reached(c) == |resp|
       case _ => false
  }

  ghost predicate Private(resp: Bytes, g: seq<Client>) {
    forall i :: 0 <= i < |g| ==> Fetching(g[i]) || Alone(resp, g[i])
  }

  ghost predicate GroupInv(resp: Bytes, g: seq<Client>, e: Option<Entry>) {
    match e
    case Some(entry) => Cached(resp, g, entry)
    case None => if IsOk(resp) then Gathering(g) || Broadcast(resp, g) else Private(resp, g)
  }

  // ----- the whole server -----

  ghost predicate KeyInv(origin: Origin, s: State, k: Key) {
    GroupInv(origin(k), Group(s, k), Lookup(s.cache, k))
  }

  ghost predicate FinishedInv(origin: Origin, f: Finished) {
    f.base <= |origin(f.key)| && f.delivered == origin(f.key)[f.base..]
  }

  ghost predicate Inv(origin: Origin, s: State) {
    && Sound(s.cache)
    && Lookup(s.cache, "") == None && Group(s, "") == []
    && (forall k :: KeyInv(origin, s, k))
    && (forall i :: 0 <= i < |s.finished| ==> FinishedInv(origin, s.finished[i]))
  }

  /** A step changes nothing about another request than evicting its idle entry. */
  ghost predicate Elsewhere(s: State, t: State, k: Key) {
    forall k' :: k' != k ==>
                   && Group(t, k') == Group(s, k')
                   && (Lookup(t.cache, k') == Lookup(s.cache, k')
                       || (Lookup(t.cache, k') == None && Lookup(s.cache, k').value.inUse == 0))
  }

  lemma EvictedGroup(resp: Bytes, g: seq<Client>, e: Entry)
    requires Cached(resp, g, e) && e.inUse == 0
    ensures g == [] && GroupInv(resp, g, None)
  {
  }

  /** A step on the clients of `k` keeps the invariant if it keeps it for `k`. */
  lemma StepOn(origin: Origin, s: State, t: State, k: Key)
    requires Inv(origin, s) && k != ""
    requires Sound(t.cache) && Elsewhere(s, t, k) && KeyInv(origin, t, k)
    requires t.finished == s.finished
             || (exists f :: t.finished == s.finished + [f] && FinishedInv(origin, f))
    ensures Inv(origin, t)
  {
    forall k'
      ensures KeyInv(origin, t, k')
    {
      assert KeyInv(origin, s, k');
      if k' != k && Lookup(t.cache, k') != Lookup(s.cache, k') {
        EvictedGroup(origin(k'), Group(s, k'), Lookup(s.cache, k').value);
      }
    }
  }

  lemma StartInv(origin: Origin, capacity: nat)
    ensures Inv(origin, Start(capacity))
  {
  }
}
