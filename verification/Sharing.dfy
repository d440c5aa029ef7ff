/** The response-sharing protocol of the server as a state machine: clients, the list of clients of
    each request, the cache, and the events that move them. An origin connection is a read position
    in the response to its request. `delivered` and `base` record history: the bytes a client has
    been sent, and where in the response its stream starts. */
module Sharing {
  import opened Wrappers
  import opened CacheSpec
  import Ascii
  import CacheProperties

  const MAX_CHUNK_SIZE: nat := 1024

  datatype Phase =
    | WaitingForRequest
    | WaitingForAnother
    | SendingRequest
    | WaitingStatus
    | WaitingResponse
    | GotResponse
    | GettingFromAnother

  datatype Client = Client(
    phase: Phase,
    server: Option<nat>,
    sent: nat,
    chunks: seq<Bytes>,
    writeCache: bool,
    readCache: bool,
    writeAll: bool,
    delivered: Bytes,
    base: nat)

  const NEWCOMER := Client(WaitingForRequest, None, 0, [], false, false, false, "", 0)

  /** A client that left through a DONE path. */
  datatype Finished = Finished(key: Key, delivered: Bytes, base: nat)

  /** `newcomers` counts the clients that have not sent a request. */
  datatype State = State(
    newcomers: nat,
    groups: map<Key, seq<Client>>,
    cache: Store,
    finished: seq<Finished>)

  ghost function Start(capacity: nat): State {
    State(0, map[], Store([], 0, capacity), [])
  }

  ghost function Group(s: State, k: Key): seq<Client> {
    if k in s.groups then s.groups[k] else []
  }

  ghost function SetGroup(s: State, k: Key, g: seq<Client>): State {
    s.(groups := s.groups[k := g])
  }

  // ----- one client -----

  ghost function Prepared(c: Client): Client {
    c.(server := Some(0), phase := SendingRequest)
  }

  ghost function Queued(c: Client, chunk: Bytes): Client {
    c.(chunks := c.chunks + [chunk])
  }

  ghost function Advanced(c: Client, n: nat): Client {
    match c.server
    case None => c
    case Some(p) => c.(server := Some(p + n))
  }

  ghost predicate IsReadingFromCache(c: Client) {
    c.phase == GotResponse && c.readCache && c.server == None
  }

  ghost function Reading(c: Client): Client {
    c.(phase := GotResponse, readCache := true)
  }

  ghost function Obtained(c: Client, connection: Option<nat>): Client {
    c.(server := connection, phase := WaitingResponse, writeCache := true)
  }

  ghost predicate IsBroadcasting(c: Client) {
    c.phase == WaitingResponse && !c.writeCache && c.writeAll && c.server.Some?
  }

  // ----- the clients of one request -----

  ghost function PrepareWaiting(g: seq<Client>): (r: seq<Client>)
    ensures |r| == |g|
  {
    seq(|g|, i requires 0 <= i < |g| => if g[i].phase == WaitingForAnother then Prepared(g[i]) else g[i])
  }

  /** The same when the origins of the clients from place `reach` on cannot be connected to: the first of them that
      waits ends the loop. */
  ghost function PrepareBefore(g: seq<Client>, reach: nat): (r: seq<Client>)
    ensures |r| == |g|
  {
    seq(|g|, i requires 0 <= i < |g| =>
      if i < reach && g[i].phase == WaitingForAnother then Prepared(g[i]) else g[i])
  }

  /** The loop gets to its end. */
  ghost predicate AllReached(g: seq<Client>, reach: nat) {
    forall i :: reach <= i < |g| ==> g[i].phase != WaitingForAnother
  }

  ghost function QueueAll(g: seq<Client>, chunk: Bytes): (r: seq<Client>)
    ensures |r| == |g|
  {
    seq(|g|, i requires 0 <= i < |g| => Queued(g[i], chunk))
  }

  ghost function AllGotResponse(g: seq<Client>): (r: seq<Client>)
    ensures |r| == |g|
  {
    seq(|g|, i requires 0 <= i < |g| => g[i].(phase := GotResponse))
  }

  ghost function OthersRead(g: seq<Client>, leader: nat): (r: seq<Client>)
    ensures |r| == |g|
  {
    seq(|g|, i requires 0 <= i < |g| => if i == leader then g[i] else Reading(g[i]))
  }

  ghost function FirstReader(g: seq<Client>): (i: int)
    ensures -1 <= i < |g|
    ensures i >= 0 ==> IsReadingFromCache(g[i])
    ensures forall j :: 0 <= j < (if i < 0 then |g| else i) ==> !IsReadingFromCache(g[j])
  {
    if g == [] then -1
    else if IsReadingFromCache(g[0]) then 0
    else
      var r := FirstReader(g[1..]);
      assert forall j :: 0 < j < |g| ==> g[j] == g[1..][j - 1];
      if r < 0 then -1 else r + 1
  }

  /** Gives a leaving client's connection to the first client that reads from the cache without one. */
  ghost function HandOver(g: seq<Client>, connection: Option<nat>): seq<Client> {
    var i := FirstReader(g);
    if i < 0 then g else g[i := Obtained(g[i], connection)]
  }

  /** Where the stream of a client that joins and waits begins: at the read position of a client that
      is broadcasting, if there is one. */
  ghost function JoinBase(g: seq<Client>): nat {
    if i :| 0 <= i < |g| && IsBroadcasting(g[i]) then g[i].server.value else 0
  }

  ghost function WithoutClient(g: seq<Client>, i: nat): seq<Client>
    requires i < |g|
  {
    g[..i] + g[i + 1..]
  }

  ghost function AfterLeaving(g: seq<Client>, i: nat): seq<Client>
    requires i < |g|
  {
    if g[i].phase == WaitingResponse then HandOver(WithoutClient(g, i), g[i].server)
    else WithoutClient(g, i)
  }

  /** Somebody other than client `i` holds no connection. */
  ghost predicate OtherLacksConnection(g: seq<Client>, i: nat) {
    exists j :: 0 <= j < |g| && j != i && g[j].server == None
  }

  // ----- handlers -----

  ghost predicate Listed(s: State, k: Key, i: nat) {
    i < |Group(s, k)|
  }

  ghost function Discard(s: State, k: Key, i: nat): State
    requires Listed(s, k, i)
  {
    SetGroup(s, k, AfterLeaving(Group(s, k), i)).(cache := DisuseEntry(s.cache, k))
  }

  ghost function Finish(s: State, k: Key, i: nat): State
    requires Listed(s, k, i)
  {
    var c := Group(s, k)[i];
    Discard(s, k, i).(finished := s.finished + [Finished(k, c.delivered, c.base)])
  }

  /** A client that has not sent a request leaves under the empty request text. */
  ghost function DiscardFresh(s: State, k: Key): State
    requires s.newcomers > 0
  {
    SetGroup(s, k, Group(s, k)).(newcomers := s.newcomers - 1, cache := DisuseEntry(s.cache, k))
  }

  ghost function ReadRequest(s: State, k: Key, connected: bool): State
    requires s.newcomers > 0
  {
    var g := Group(s, k);
    if Contains(s.cache, k) then
      SetGroup(s, k, g + [Reading(NEWCOMER)]).(newcomers := s.newcomers - 1, cache := UseEntry(s.cache, k))
    else if g != [] then
      SetGroup(s, k, g + [NEWCOMER.(phase := WaitingForAnother, base := JoinBase(g))]).(newcomers := s.newcomers - 1)
    else if connected then
      SetGroup(s, k, [Prepared(NEWCOMER)]).(newcomers := s.newcomers - 1)
    else
      DiscardFresh(s, k)
  }

  ghost function SendRequest(s: State, k: Key, i: nat): State
    requires Listed(s, k, i)
  {
    SetGroup(s, k, Group(s, k)[i := Group(s, k)[i].(phase := WaitingStatus)])
  }

  ghost function StatusFailed(s: State, k: Key, i: nat): State
    requires Listed(s, k, i)
  {
    Discard(SetGroup(s, k, PrepareWaiting(Group(s, k))), k, i)
  }

  ghost function PrepareSome(s: State, k: Key, reach: nat): State {
    SetGroup(s, k, PrepareBefore(Group(s, k), reach))
  }

  /** The exception handler of the status: an exception while it prepares the others leaves it, and the client
      stays. */
  ghost function StatusFailing(s: State, k: Key, i: nat, reach: nat): State
    requires Listed(s, k, i)
  {
    if AllReached(Group(s, k), reach) then StatusFailed(s, k, i) else PrepareSome(s, k, reach)
  }

  /** The loop of the fallback from client `j` on: false if the entry is gone before its end. */
  ghost function FallbackLoop(g: seq<Client>, j: nat, cache: Store, k: Key,
                              chunk: Bytes): (r: (seq<Client>, Store, bool))
    requires j <= |g|
    ensures |r.0| == |g|
    decreases |g| - j
  {
    if j == |g| then (g, cache, true)
    else
      var c := g[j].(readCache := false, phase := GettingFromAnother);
      match Lookup(cache, k)
      case None => (g[j := c], cache, false)
      case Some(e) =>
        FallbackLoop(g[j := FellBack(c, e.buffer, chunk)], j + 1, DisuseEntry(Touch(cache, k), k), k, chunk)
  }

  /** A client that reads the rest of the entry and the new chunk from its own queue. */
  ghost function FellBack(c: Client, buffer: Bytes, chunk: Bytes): Client {
    var rest := if c.sent < |buffer| then [buffer[c.sent..]] else [];
    c.(readCache := false, phase := GettingFromAnother, chunks := c.chunks + rest + [chunk])
  }

  ghost function Broadcaster(c: Client): Client {
    c.(writeCache := false, writeAll := true, phase := WaitingResponse)
  }

  ghost function Fallback(s: State, k: Key, i: nat, chunk: Bytes): (r: (State, bool))
    requires Listed(s, k, i)
    ensures Listed(r.0, k, i)
  {
    var (g, cache, ok) := FallbackLoop(Group(s, k), 0, s.cache, k, chunk);
    var g' := if ok then g[i := Broadcaster(g[i])] else g;
    (SetGroup(s, k, g').(cache := cache), ok)
  }

  /** False stands for a KeyNotFound exception that leaves the write. */
  ghost function WriteToCache(s: State, k: Key, i: nat, chunk: Bytes): (r: (State, bool))
    requires Listed(s, k, i)
    ensures Listed(r.0, k, i)
  {
    var (cache, status) := Write(s.cache, k, chunk);
    match status
    case Ok => (s.(cache := cache), true)
    case KeyNotFound => (s.(cache := cache), false)
    case AllInUse => Fallback(s.(cache := cache), k, i, chunk)
  }

  ghost function UseTimes(cache: Store, k: Key, n: nat): Store {
    if n == 0 then cache else UseEntry(UseTimes(cache, k, n - 1), k)
  }

  ghost predicate IsOk(chunk: Bytes) {
    |chunk| >= 12 && chunk[9..12] == "200"
  }

  /** The leader has opened the entry and is about to write its first chunk. */
  ghost function Started(s: State, k: Key, i: nat, chunk: Bytes): (t: State)
    requires Listed(s, k, i)
    ensures Listed(t, k, i)
  {
    var g := Group(s, k);
    var leader := Advanced(g[i], |chunk|).(writeCache := true, readCache := true);
    SetGroup(s, k, g[i := leader]).(cache := UseEntry(s.cache, k))
  }

  /** The leader's first chunk has status 200: it opens the entry, writes, and everyone else of the
      request becomes a reader. */
  ghost function StatusOk(s: State, k: Key, i: nat, chunk: Bytes, again: nat): State
    requires Listed(s, k, i)
  {
    var (t, ok) := WriteToCache(Started(s, k, i, chunk), k, i, chunk);
    if !ok then StatusFailing(t, k, i, again)
    else
      var h := OthersRead(Group(t, k), i);
      SetGroup(t, k, h[i := h[i].(phase := WaitingResponse)]).(cache := UseTimes(t.cache, k, |h| - 1))
  }

  ghost function StatusOther(s: State, k: Key, i: nat, chunk: Bytes): State
    requires Listed(s, k, i)
  {
    var g := Group(s, k);
    var h := PrepareWaiting(g[i := Queued(Advanced(g[i], |chunk|), chunk)]);
    SetGroup(s, k, h[i := h[i].(phase := WaitingResponse)])
  }

  /** The client has received the chunk into its own queue. */
  ghost function Received(s: State, k: Key, i: nat, chunk: Bytes): State
    requires Listed(s, k, i)
  {
    var g := Group(s, k);
    SetGroup(s, k, g[i := Queued(Advanced(g[i], |chunk|), chunk)])
  }

  /** Reading a status, when the clients before place `reach` can be connected, and those before place `again` once
      the exception handler tries. */
  ghost function ReadStatus(s: State, k: Key, i: nat, chunk: Bytes, reach: nat, again: nat): State
    requires Listed(s, k, i)
  {
    if IsOk(chunk) then StatusOk(s, k, i, chunk, again)
    else if AllReached(Group(s, k), reach) then StatusOther(s, k, i, chunk)
    else StatusFailing(PrepareSome(Received(s, k, i, chunk), k, reach), k, i, again)
  }

  ghost function ReadChunk(s: State, k: Key, i: nat, chunk: Bytes): State
    requires Listed(s, k, i)
  {
    var g := Group(s, k);
    var c := Advanced(g[i], |chunk|);
    var advanced := SetGroup(s, k, g[i := c]);
    if c.writeCache then
      var (t, ok) := WriteToCache(advanced, k, i, chunk);
      if ok then t else Discard(t, k, i)
    else if c.writeAll then SetGroup(s, k, QueueAll(g[i := c], chunk))
    else SetGroup(s, k, g[i := Queued(c, chunk)])
  }

  ghost function ReadEof(s: State, k: Key, i: nat): State
    requires Listed(s, k, i)
  {
    var g := Group(s, k);
    var h := g[i := g[i].(phase := GotResponse)];
    if g[i].writeCache then SetGroup(s, k, h).(cache := Complete(s.cache, k))
    else if g[i].writeAll then SetGroup(s, k, AllGotResponse(h))
    else SetGroup(s, k, h)
  }

  /** What the server offers to send to the client at once. */
  ghost function Offered(s: State, k: Key, i: nat): Bytes
    requires Listed(s, k, i)
  {
    var c := Group(s, k)[i];
    if c.readCache then
      match Lookup(s.cache, k)
      case None => ""
      case Some(e) =>
        if c.sent >= |e.buffer| then ""
        else e.buffer[c.sent..c.sent + Min(|e.buffer| - c.sent, MAX_CHUNK_SIZE)]
    else if c.chunks == [] then ""
    else c.chunks[0]
  }

  function Min(a: nat, b: nat): nat {
    if a < b then a else b
  }

  ghost function Sent(c: Client, bytes: Bytes): Client {
    c.(sent := c.sent + |bytes|, delivered := c.delivered + bytes)
  }

  /** The client's socket takes the first `n` bytes of the offer. */
  ghost function SendCached(s: State, k: Key, i: nat, n: nat): State
    requires Listed(s, k, i) && n <= |Offered(s, k, i)| && Group(s, k)[i].readCache
  {
    var c := Group(s, k)[i];
    match Lookup(s.cache, k)
    case None => s
    case Some(e) =>
      var touched := s.(cache := Touch(s.cache, k));
      if c.sent >= |e.buffer| then
        if e.completed then Finish(touched, k, i) else touched
      else
        SetGroup(s, k, Group(s, k)[i := Sent(c, Offered(s, k, i)[..n])])
        .(cache := Touch(touched.cache, k))
  }

  ghost function SendUncached(s: State, k: Key, i: nat, n: nat): State
    requires Listed(s, k, i) && n <= |Offered(s, k, i)| && !Group(s, k)[i].readCache
  {
    var c := Group(s, k)[i];
    if c.chunks == [] then
      if c.phase == GotResponse then Finish(s, k, i) else s
    else
      var rest := if n == |c.chunks[0]| then [] else [c.chunks[0][n..]];
      SetGroup(s, k, Group(s, k)[i := Sent(c, c.chunks[0][..n]).(chunks := rest + c.chunks[1..])])
  }

  /** The client's socket has room for `room` bytes. */
  ghost function Send(s: State, k: Key, i: nat, room: nat): State
    requires Listed(s, k, i)
  {
    var n := Min(room, |Offered(s, k, i)|);
    if Group(s, k)[i].readCache then SendCached(s, k, i, n) else SendUncached(s, k, i, n)
  }

  // ----- events -----

  datatype Event =
    | Accept
    | BadRequest                                   // a newcomer's request cannot be read or parsed, or it hangs up
    | Request(key: Key, connected: bool)           // `connected`: whether the origin can be reached
    | RequestSent(key: Key, i: nat)
    // `reach` and `again`: those who wait can be connected before that place, and at the second try before that one
    | Status(key: Key, i: nat, chunk: Bytes, reach: nat, again: nat)
    | NoStatus(key: Key, i: nat, again: nat)       // the connection fails or ends before any byte
    | Chunk(key: Key, i: nat, chunk: Bytes)
    | Eof(key: Key, i: nat)
    | Writable(key: Key, i: nat, room: nat)        // the client's socket has room for that many bytes
    | Drop(key: Key, i: nat)                       // any error or hang-up on either socket

  /** The response of the origin to each request: the same bytes for every fetch. */
  type Origin = Key -> Bytes

  /** `chunk` is what a connection at position `c.server` receives next. */
  ghost predicate Receives(resp: Bytes, c: Client, chunk: Bytes) {
    && c.server.Some? && chunk != ""
    && c.server.value + |chunk| <= |resp|
    && chunk == resp[c.server.value..c.server.value + |chunk|]
  }

  ghost predicate StatusReadable(chunk: Bytes) {
    |chunk| >= 12 && Ascii.Stoi(chunk[9..12]).Some?
  }

  ghost predicate Enabled(origin: Origin, s: State, e: Event) {
    match e
    case Accept => true
    case BadRequest => s.newcomers > 0
    case Request(k, _) => s.newcomers > 0 && k != ""
    case RequestSent(k, i) => Listed(s, k, i) && Group(s, k)[i].phase == SendingRequest
    case NoStatus(k, i, _) => Listed(s, k, i) && Group(s, k)[i].phase == WaitingStatus
    case Status(k, i, chunk, reach, again) =>
      && Listed(s, k, i) && Group(s, k)[i].phase == WaitingStatus
      && Receives(origin(k), Group(s, k)[i], chunk) && StatusReadable(chunk)
      && StatusSafe(s, k, i, chunk, reach, again)
    case Chunk(k, i, chunk) =>
      && Listed(s, k, i) && Group(s, k)[i].phase == WaitingResponse
      && Receives(origin(k), Group(s, k)[i], chunk)
    case Eof(k, i) =>
      && Listed(s, k, i) && Group(s, k)[i].phase == WaitingResponse
      && Group(s, k)[i].server == Some(|origin(k)|)
    case Writable(k, i, _) =>
      Listed(s, k, i) && Group(s, k)[i].phase in {WaitingResponse, GotResponse, GettingFromAnother}
    case Drop(k, i) => Listed(s, k, i)
  }

  /** Reading the status leaves the server in a state that the protocol knows. */
  ghost predicate StatusSafe(s: State, k: Key, i: nat, chunk: Bytes, reach: nat, again: nat) {
    if IsOk(chunk) then FirstChunkFits(s, k, chunk) || LossSafe(Group(s, k), i, again)
    else AllReached(Group(s, k), reach) || AllReached(Group(s, k), again)
  }

  /** The clients that a lost first chunk leaves are all to be fed: nobody among them fetches for himself. Those are the
      first two once its reader has left, if there is nobody else; or everyone, the reader included, if all but the
      first two wait and the first of those cannot be connected. */
  ghost predicate LossSafe(g: seq<Client>, i: nat, again: nat) {
    || |g| <= 2 || (|g| == 3 && i == 2)
    || (i < 2 && again <= 2 && forall j :: 2 <= j < |g| ==> g[j].phase == WaitingForAnother)
  }

  /** The first chunk of a 200 response fits in the cache, or its reader is alone. */
  ghost predicate FirstChunkFits(s: State, k: Key, chunk: Bytes) {
    |Group(s, k)| == 1 || CacheProperties.InUseBytes(s.cache.items) + |chunk| <= s.cache.max
  }

  ghost function Next(origin: Origin, s: State, e: Event): State
    requires Enabled(origin, s, e)
  {
    match e
    case Accept => s.(newcomers := s.newcomers + 1)
    case BadRequest => DiscardFresh(s, "")
    case Request(k, connected) => ReadRequest(s, k, connected)
    case RequestSent(k, i) => SendRequest(s, k, i)
    case NoStatus(k, i, again) => StatusFailing(s, k, i, again)
    case Status(k, i, chunk, reach, again) => ReadStatus(s, k, i, chunk, reach, again)
    case Chunk(k, i, chunk) => ReadChunk(s, k, i, chunk)
    case Eof(k, i) => ReadEof(s, k, i)
    case Writable(k, i, room) => Send(s, k, i, room)
    case Drop(k, i) => Discard(s, k, i)
  }
}
