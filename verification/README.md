# A verified model of the SPX caching proxy

The proxy serves many clients from one thread. Clients that ask for the same thing share one fetch: one of
them reads the origin's response, and it is streamed to all of them through a shared cache entry while it
arrives. This project models that protocol, the cache under it, and the parsers that compute the cache keys, and
proves what they promise.

**Sharing a response** (`Sharing`, `SharingInvariant`, `SharingSteps`, `SharingTheorems`, `SharingWriters`,
`SharingStreams`, `SharingProgress`, `SharingLoss`, `SharingExamples`, `SharingFailures`, `Server`, `ServerEvents`,
`ServerRuns`, `ServerPolling`). `Sharing` is a state machine: the list of clients of each request, the cache, and
one step for each event that the event loop can deliver: accept, request, request sent, status chunk or none, chunk,
end of the response, any room on a client's socket, and any departure. An origin connection is a read position in
the response. Each client carries a record of the bytes it has been sent, and of where in the response its stream
starts. `SharingInvariant` says in which of four situations the clients of a request are: all fetching, all reading
one entry, all fed by one client after the cache ran full, or each on its own. `SharingSteps` proves that every step
keeps it, and `SharingTheorems` what follows on every run. `SharingWriters` follows the writer of an entry over a
run, `SharingStreams` follows each client from its request to its departure. `SharingProgress` proves what the steps
are for: room on a socket moves bytes, and the end of a response lets everyone leave as done. `SharingLoss` follows
the server out of the protocol. `Server` has the objects: clients that handlers update in place, lists of references
to them, and the heap cache; every handler is proved to end in the state that `Sharing` gives, `ServerEvents` takes
what poll reports through the handlers and through the state machine together, `ServerRuns` serves any sequence of
reports that is possible from the start and connects it with one run, and `ServerPolling` proves that what is polled
is what the clients wait for.

**The cache** (`CacheSpec`, `CacheProperties`, `CacheExamples`, `LruCache`). `CacheSpec` has the operations on a
sequence of entries in order of recency. `LruCache` is the class over a circular doubly linked list with a sentinel
and a table from keys to nodes, so that moving, erasing and appending nodes are proved on the links.
`CacheProperties` has the laws of every sequence of operations.

**Requests and keys** (`Ascii`, `RequestMachine`, `RequestProperties`, `RequestText`, `RequestBody`,
`RequestFraming`, `RequestLanguage`, `HttpRequestParser`, `ResponseLockStep`, `ResponseLanguage`, `HeaderMap`,
`RequestKey`, `KeyHeaders`, `HttpRequest`, `UrlMachine`, `UrlText`, `UrlLanguage`, `UrlParser`). A machine with one
step per character is the specification of each parser; the classes, with their loops over fields and locals, are
proved to compute its runs. The laws compare the machines with grammars written independently of them, after RFC
9112 (sections 3, 5, 5.2, 6 and 7.1) and RFC 3986 (section 3). They hold in both directions: `RequestLanguage`,
`ResponseLanguage` and `UrlLanguage` prove that each parser accepts exactly what its grammar spells.
`RequestFraming`, `KeyHeaders` and the last parts of `Ascii` and `UrlText` say with the names, numbers and
characters of the messages themselves what the constants of the machines mean.

## Where the code does not do what one may expect

Each of these is a lemma in the table below; where a property fails, the exact condition is given.

- A client that joins while another one broadcasts to the group receives only the rest of the response and is
  finished as if it had all of it (`FinishedWholeIff`, `JoinBaseIff`; a run: `LateJoinerMissesTheStart`).
- An entry can lose its writer for good: `isReadingFromCache` passes over every client that holds a connection, so
  that nobody takes over from a writer that leaves when all others have one. The entry stays incomplete as
  long as it is there, and whoever asks for it meanwhile joins it (`WriterReplacedIff`, `SingleWriter`,
  `NeverCompleted`; a run: `WriterIsLost`).
- When the very first chunk of a response does not fit and others wait, the fallback loses the entry after its
  first client: the reader of the chunk is discarded, and the first two clients wait for chunks from nobody
  (`FirstChunkIff`; a run: `FirstChunkIsLost`). If somebody else of the request fetches for himself then, the first
  client can be sent the start of the response again, and again, until it has more than the whole response
  (`StatusIff`, `StatusOkLost`, `UnsafeLossShows`, `TooMuchIff`; a run: `StartIsSentTwice`).
- When a response is not cached and somebody who waits can be connected neither at once nor by the exception
  handler, the client of the response is not discarded and takes the next chunk for another status (`StatusIff`; a
  run: `StatusIsReadTwice`).
- The steps of the protocol cover every readable status but those of the last two points, exactly: it is an event
  if and only if the invariant holds after it (`StatusIff`).
- A write whose key is absent, or idle and evicted by the write itself, spoils the byte count
  (`WriteSoundIff`, `AlwaysSoundIff`; sequences of calls: `MissingKeySpoilsCount`, `SelfEvictionSpoilsCount`). The
  server never does it (`CacheCallsAllowed`, `CacheSound`).
- The key shows neither host nor query nor body (`SameKeyIff`, `KeyIgnoresAuthorityAndQuery`), although the
  origin that is connected to is the host of the URL. All statements about delivery are about origins that give
  the same response to the same key.
- The key cannot be received as a request again, whatever its method is (`KeyReadAgain`).
- A password of digits is taken for a port (`UrlRoundTrip`, `DigitsPasswordRead`). A URL may lack the slashes after
  its scheme, or end before its path; further question marks of a query are dropped (`UrlLanguage.Language`).
- A response without a length is not read to the end of the connection, as section 6.3 of RFC 9112 has it
  (`ResponseWithoutLength`); the server itself does not parse responses.
- The pieces of a folded header are joined without the space that section 5.2 of RFC 9112 asks for, and a value
  that is chunked at the end of one of its lines makes the body chunked whatever the next line adds (`HeadRead`,
  `BodyFraming`). Other codings, and lists of codings that end with chunked, are ignored (`RequestWithLength`). The
  character after the last CR of a head with a body is not looked at (`RequestWithLength`, `RequestWithChunks`).

## Model

| member | source | states |
|---|---|---|
| CacheProperties.ExactEviction | src/cache/cache.cpp:92-96 | Freeing space removes exactly the shortest prefix, in list order, of the idle entries whose removal makes enough room; entries in use stay, in their order; the rest of the store is untouched |
| CacheProperties.AllInUseIff | src/cache/cache.cpp:50-54 | In every store that calls can reach, freeing space fails if and only if the bytes of the entries in use, the counted bytes that no entry holds and the needed bytes together exceed the budget; then exactly the idle entries have been evicted |
| CacheProperties.FreeSpaceInUse | src/cache/cache.cpp:90-96 | Freeing space frees no byte of an entry in use, whether it succeeds or not |
| CacheProperties.FreeSpaceEffect | src/cache/cache.cpp:90-96 | On success the space is there; every entry that remains is unchanged and every one that is gone was idle |
| CacheProperties.WriteOutcome | src/cache/cache.cpp:13-16 | In every store that calls can reach, a write raises AllInUse if and only if the entries in use and the stray bytes leave no room, and succeeds if and only if they do and the key is there and either in use or preceded by enough idle bytes |
| CacheProperties.WriteSoundIff | src/cache/cache.cpp:13-16 | A write to a store whose byte count is exact keeps it exact if and only if its key is still there once space has been freed, or nothing is written, or it raises AllInUse |
| CacheProperties.WriteEffect | src/cache/cache.cpp:66-75 | By outcome: success appends exactly the bytes to the entry; otherwise no entry changes; other keys keep their entry or lose it while idle; only a missing key leaves counted bytes that no entry holds |
| CacheProperties.WriteInUse | src/cache/cache.cpp:13-16 | A write to an entry in use never misses it and never evicts it: the entry is there afterwards, with the bytes appended, or as it was if the write raises AllInUse |
| CacheProperties.ApplyEffect | src/cache/cache.cpp:13-118 | Any operation other than a write (see WriteEffect) changes at most the entry of its own key, and never its bytes; every other key keeps its entry; the stray bytes stay as they are |
| CacheProperties.AlwaysBounded | src/cache/cache.cpp:90-96 | After every sequence of operations, failing ones included: keys are distinct and listed bytes <= counted bytes <= budget, so the free space never underflows |
| CacheProperties.AlwaysSoundIff | src/cache/cache.cpp:81-105 | After a sequence of operations the count is exact if and only if every write in it was harmless, a condition on the store before that write |
| CacheProperties.RecencyOrder | src/cache/cache.cpp:57-64 | After every sequence of operations the list is in the order of the last touch of each key, counting the operations; an operation touches its key if it is a use, or finds the key there |
| CacheProperties.EntryIsItsWrites | src/cache/cache.cpp:66-75 | An entry's bytes are the concatenation of all writes to its key since it was created, whatever other keys were touched, moved or evicted in between |
| CacheProperties.ReadIsWritten | src/cache/cache.cpp:23-31 | A read returns that slice of the writes if the key is there, and misses exactly when it is absent |
| CacheExamples.MissingKeySpoilsCount | src/cache/cache.cpp:13-16 | A write to a key that was never used counts bytes that no entry holds |
| CacheExamples.SelfEvictionSpoilsCount | src/cache/cache.cpp:13-16 | A write to a complete entry that nobody uses evicts this entry to make room, and counts bytes that no entry holds |
| LruCache.Node.constructor | src/cache/cache.h:41-44 | A new entry is empty, incomplete and used once |
| LruCache.Node.Append | src/cache/cache.h:30-32 | Appends the bytes and changes nothing else of the entry |
| LruCache.Node.Complete | src/cache/cache.h:34-35 | Sets the completed flag and nothing else |
| LruCache.Node.IncrementUse | src/cache/cache.h:37-38 | One more user |
| LruCache.Node.DecrementUse | src/cache/cache.h:39 | One user less; the count may become negative |
| LruCache.Cache.constructor | src/cache/cache.cpp:11 | An empty list, table and byte count |
| LruCache.Cache.Unlink | src/cache/cache.cpp:59 | Takes a node out of the doubly linked list: its neighbours link to each other, the order of the others is kept |
| LruCache.Cache.Link | src/cache/cache.cpp:101 | Relinks the last node, the new one and the sentinel; the order of the others is kept |
| LruCache.Cache.LinkLast | src/cache/cache.cpp:101 | Links a node behind all others, and lists its item |
| LruCache.Cache.Splice | src/cache/cache.cpp:59 | Moves one node of the linked list to its end by relinking; the order of all others is kept |
| LruCache.Cache.Erase | src/cache/cache.cpp:85 | Removes one node of the linked list |
| LruCache.Cache.MakeMostRecentlyUsed | src/cache/cache.cpp:57-64 | Refines the move of the key's item to the end; false exactly when the key is absent |
| LruCache.Cache.Contains | src/cache/cache.cpp:77-79 | The table finds a key if and only if the list holds it |
| LruCache.Cache.GetEntry | src/cache/cache.cpp:33-36 | Returns the node of the key, now last in the list, with the entry the abstract store has for it |
| LruCache.Cache.ReadEntry | src/cache/cache.cpp:33-36 | What a caller sees of getEntry: the entry's value, the key most recent |
| LruCache.Cache.Read | src/cache/cache.cpp:23-31 | Refines the abstract read: the slice, the key most recent |
| LruCache.Cache.Drop | src/cache/cache.cpp:81-88 | Removes the key from list, table and byte count, or does nothing |
| LruCache.Cache.RemoveLeastRecentlyUsed | src/cache/cache.cpp:38-55 | Walks the links to the first idle node and drops it; fails exactly when there is none, changing nothing |
| LruCache.Cache.FreeSpace | src/cache/cache.cpp:92-96 | The eviction loop on the linked list computes the abstract eviction and its outcome; it terminates because the list shrinks |
| LruCache.Cache.Append | src/cache/cache.cpp:66-75 | Refines the abstract append through the last node |
| LruCache.Cache.Write | src/cache/cache.cpp:13-21 | Refines the abstract write, with the same outcome in each error case |
| LruCache.Cache.UseEntry | src/cache/cache.cpp:97-105 | Refines the abstract use: counts one more user, or adds a fresh entry at the end |
| LruCache.Cache.DisuseEntry | src/cache/cache.cpp:107-118 | Refines the abstract disuse: counts one user less and drops an incomplete entry with its last user |
| LruCache.Cache.CompleteEntry | src/server.cpp:416 | Refines completing the entry found by getEntry |
| SharingSteps.NextKeeps | src/server.cpp:213-487 | Every enabled event keeps the protocol invariant and changes no other request than evicting its idle entry |
| SharingSteps.DiscardKeeps | src/server.cpp:213-236 | A departure with handover of the connection and release of the entry keeps the invariant |
| SharingSteps.RequestKeeps | src/server.cpp:281-307 | Reading a request keeps the invariant in each of its branches |
| SharingSteps.StatusOkKeeps | src/server.cpp:374-388 | Opening an entry and turning the waiting clients into readers keeps the invariant, with or without a fallback on the first chunk; so does every loss of the first chunk that leaves nobody who fetches for himself |
| SharingSteps.StatusOkLost | src/server.cpp:255-268 | A first chunk that finds no room while others wait leaves a state that the invariant knows if and only if those who stay are two clients at most, the reader having left, or everyone, all but the first two waiting and the first of these out of reach |
| SharingSteps.StatusFailingKeeps | src/server.cpp:389-394 | The exception handler of a status keeps the invariant, whoever it can connect |
| SharingSteps.StatusOtherKeeps | src/server.cpp:384-388 | A response that is not cached leaves everyone fetching for himself |
| SharingSteps.UnreachableKeeps | src/server.cpp:351-358 | The invariant holds too when the exception handler is left half-way because somebody who waits cannot be connected |
| SharingSteps.ChunkKeeps | src/server.cpp:400-411 | A chunk written to the entry, broadcast, or queued keeps the invariant |
| SharingSteps.EofKeeps | src/server.cpp:412-421 | The end of the response keeps the invariant: a completed entry is the whole response |
| SharingSteps.SendCachedKeeps | src/server.cpp:459-487 | Sending any number of bytes from the entry keeps the invariant |
| SharingSteps.SendUncachedKeeps | src/server.cpp:437-457 | Sending any number of bytes from the queue keeps the invariant |
| SharingSteps.FallbackLoopEffect | src/server.cpp:257-268 | The fallback loop reaches its end if and only if the use count is at least the number of clients left; it then gives every client its rest of the entry and the chunk, and the entry is gone exactly when the counts are equal |
| SharingSteps.FellBackStream | src/server.cpp:258-266 | For each client, delivered bytes plus queue after the fallback equal the entry's bytes plus the new chunk |
| SharingTheorems.RunInv | src/server.cpp:150-209 | The invariant holds after every number of events of every run |
| SharingTheorems.DeliveredInOrder | src/server.cpp:360-487 | On every run the bytes delivered to a client are consecutive bytes of the origin's response to its request, from its base on; a prefix of the response unless it joined a broadcast |
| SharingTheorems.FinishedFromBase | src/server.cpp:437-472 | Whoever leaves as done has been sent everything from its base to the end of the response |
| SharingProgress.CachedSend | src/server.cpp:476-483 | Sending from the cache gives a reader exactly the next bytes of the entry: as many as are left, as there is room for, and 1024 at most; the entry and the others stay as they are |
| SharingProgress.SendTouches | src/cache/cache.cpp:23-36 | Whatever is sent from the cache, its entry is then the most recently used one |
| SharingProgress.QueueSend | src/clients_list.cpp:61-70 | Sending from the queue gives a client its front chunk, or as much of it as there is room for, the rest staying in front |
| SharingProgress.EndForAll | src/server.cpp:412-421 | At the end of a response that is broadcast or cached, every client of the request, whatever it was waiting for, has got the response and is otherwise as before |
| SharingProgress.EndForOne | src/server.cpp:412-421 | At the end of a response that is a client's alone, this client has got it, and nobody else is touched |
| SharingProgress.SendServes | src/server.cpp:429-487 | Once a client has all there is to read, a send with any room gives it some of what it is owed, or lets it leave as done with the response from its base to the end; the others stay as they are |
| SharingProgress.AnySends | src/server.cpp:429-487 | From then on, sends with room to the clients of a request can follow each other in any order but only so often, and at every point those who have left as done, each with its whole stream, and those who are still there are together the clients that there were |
| SharingProgress.EveryoneFinishes | src/server.cpp:429-487 | With whatever room, such sends can go on until everyone has left as done, each recorded once |
| SharingProgress.ClientFinishes | src/server.cpp:429-487 | A client that has all there is to read leaves as done before as many sends with room as it is owed bytes and chunks, and one more, are over |
| SharingProgress.EndFinishesEveryone | src/server.cpp:412-421 | After the end of a response that is broadcast or cached, finitely many sends let every client that was listed leave as done with the response from its base to the end |
| SharingProgress.EndFinishesOne | src/server.cpp:412-421 | After the end of a response that is a client's alone, finitely many sends let it leave as done with the whole response |
| SharingProgress.ReaderFinishes | src/server.cpp:459-487 | Whoever reads a complete entry leaves as done with the whole response after finitely many sends with room |
| SharingProgress.CacheHit | src/server.cpp:286-290 | Whoever asks for a response that is complete in the cache joins and leaves as done with all of it, whether or not the origin can be reached |
| SharingProgress.ConnectsIff | src/server.cpp:284-306 | A request opens a connection if and only if the response is not in the cache, nobody else of the request is there and the origin can be reached, and its client leaves if and only if only the last fails; nobody else is touched |
| SharingProgress.NoStatusFrees | src/server.cpp:351-358 | When a client gets no status and everyone can be connected, each client that waited for its response is sending its own request on a connection of its own, and nobody else is changed |
| SharingProgress.NoStatusFreesSome | src/server.cpp:351-358 | When one of them cannot be connected, those before it send their own requests and the client without a status stays |
| SharingProgress.OtherStatusFrees | src/server.cpp:384-388 | With a status other than 200, its reader has the chunk for itself and each client that waited is sending its own request |
| SharingStreams.OwnStreams | src/server.cpp:213-487 | Every event of a request lets each of its clients go on, with the same base and more bytes delivered, in its place or the place that moves up; at most one client joins, last, or leaves, and it leaves as done only through a send |
| SharingStreams.PlaceContinues | src/server.cpp:309-326 | On every run, a client can be followed from the event at which it joined through the places it moves to; its base stays what it was then, and what it was sent is only added to |
| SharingStreams.EveryoneJoined | src/server.cpp:281-307 | On every run, whoever is listed joined at some event, and following it from there leads to its place |
| SharingStreams.RecordOfSomeone | src/server.cpp:437-472 | On every run, whoever has left as done is a client that joined at some event and was followed up to the send that finished it |
| SharingStreams.JoinBaseIff | src/server.cpp:292-295 | The client that joins at a Request event of a run starts at the beginning of the response if and only if no client of its request is broadcasting at that moment |
| SharingStreams.FinishedWholeIff | src/server.cpp:292-295 | Whoever leaves as done was sent the whole response if and only if, when it made its request, nobody was broadcasting to that request |
| SharingExamples.LateJoinerMissesTheStart | src/server.cpp:292-295 | A concrete run in which a client that joins a broadcast leaves as done without the beginning of the response |
| SharingTheorems.UseCounts | src/cache/cache.cpp:97-118 | On every run an entry counts exactly the clients in its request's list, all and only they read it, and an unused entry is complete |
| SharingTheorems.EntryIsResponse | src/server.cpp:412-416 | On every run an entry is a prefix of the response, and a completed one the whole of it |
| SharingTheorems.CacheSound | src/cache/cache.cpp:90-96 | On every run of the server the byte count is exact and within the budget |
| SharingTheorems.CacheCallsAllowed | src/server.cpp:244-253 | On every run, whoever writes the cache, with the first chunk or a later one, has an entry that is present and in use, so that the write neither misses nor evicts it; whoever leaves is counted by its entry |
| SharingTheorems.ConnectionsOwned | src/clients_list.cpp:109-121 | On every run, a client that sends, waits for a status or for the response owns a connection; the writer's stands at the byte where the entry ends |
| SharingWriters.WriterReplacedIff | src/server.cpp:219-232 | When the writer of an entry leaves, one of the others takes its connection if and only if another client of the request has none of its own; a new writer stands at the byte where the entry ends, and the entry keeps its bytes and vanishes only with the last client |
| SharingWriters.SingleWriter | src/server.cpp:374-388 | On every run an entry has at most one writer and a completed one none; an incomplete one has a writer if and only if no event since it was created took its writer away while everyone else of the request held a connection |
| SharingFailures.WriterIsLost | src/clients_list.cpp:77-80 | A concrete run in which the writer leaves, the only other client holds a connection of its own, and a later client joins an entry that is incomplete and has no writer; NeverCompleted says that this stays so |
| SharingWriters.NeverCompleted | src/clients_list.cpp:77-80 | On every run, once an entry has lost its writer, it stays incomplete with the same bytes and without a writer as long as it is there |
| SharingWriters.LostStays | src/server.cpp:219-232 | On every run, an entry that has lost its writer is incomplete and nobody writes it, whatever has happened since |
| SharingTheorems.EventsIsolated | src/server.cpp:213-487 | An event changes nobody of another request; another request's entry is unchanged, or was complete, unused and is evicted |
| SharingTheorems.FirstChunkIff | src/server.cpp:374-388 | The first write for a new entry raises no exception if and only if its chunk fits beside the entries in use or the leader is alone in its list |
| SharingFailures.FirstChunkIsLost | src/server.cpp:255-268 | A concrete run, with one client waiting and a cache without room, in which the first chunk is lost with its entry; the leader is discarded and the other client is left waiting for chunks from nobody |
| SharingFailures.StartIsSentTwice | src/server.cpp:255-268 | A concrete run with three clients that fetch for themselves and a cache without room: two of them lose their first chunks to the third, which is sent the start of the response twice, so that what it was sent is no part of the response |
| SharingSteps.SecondTry | src/server.cpp:384-394 | If somebody who waits cannot be connected at first, but everyone can when the exception handler tries, a response that is not cached ends as if there had been none |
| SharingTheorems.StatusIff | src/server.cpp:360-395 | Reading any status, whoever can be connected at the first and at the second try, leaves the server in a state that the invariant knows if and only if a chunk with status 200 is stored or safely lost, or one of the two tries connects everyone who waits for a response of another status |
| SharingFailures.StatusIsReadTwice | src/server.cpp:384-394 | A concrete run, with one client waiting that cannot be connected, after which the client of the response waits for a second status with the first chunk in its queue |
| SharingLoss.UnsafeLossShows | src/server.cpp:255-268 | From every state of the protocol in which the loss of a first chunk is not safe, whoever can be connected then, the events can go on so that a client of the request is sent more bytes than the whole response has |
| SharingLoss.UnsafeSpoils | src/server.cpp:351-395 | Every unsafe loss leads, at once or after a client that gets no status, to a client that is fed from its queue among others who fetch for themselves into a full cache |
| SharingLoss.LosesAgain | src/server.cpp:255-268 | From there, somebody can join and the next one who fetches lose his first chunk too: the client that is fed has the chunk queued once more, and all is as before |
| SharingLoss.TooMuchIff | src/server.cpp:360-395 | From every state of the protocol, a client can be sent more than its whole response only if a status can be read that is not safe; where every response has status 200, if and only if |
| Server.Client.constructor | src/clients_list.cpp:34-41 | A new client waits for its request with everything else empty |
| Server.Client.IsReadingFromCache | src/clients_list.cpp:77-80 | Agrees with the protocol's test |
| Server.Client.ObtainServerConnection | src/clients_list.cpp:82-86 | Moves the connection: the other client has none afterwards |
| Server.Client.SendToClient | src/clients_list.cpp:55-59 | As much of the chunk as the socket has room for, and exactly that prefix, is delivered and counted |
| Server.Client.SendToClientFromChunks | src/clients_list.cpp:61-70 | Delivers a prefix of the front chunk and puts the rest back to the front |
| Server.Server.constructor | src/server.cpp:84-91 | The start state of the protocol |
| Server.Server.AcceptClient | src/server.cpp:211 | One newcomer more; nobody else changes |
| Server.Server.RemoveFromRequestClients | src/server.cpp:318-326 | Exactly this client leaves the list of its request, the order of the others is kept, and no discarded client is in any list |
| Server.Server.FindReader | src/server.cpp:222-226 | The first client of the list that reads the cache without a connection |
| Server.Server.DiscardClient | src/server.cpp:213-236 | Refines the protocol's departure, including handover and release of the entry |
| Server.Server.DiscardNewcomer | src/server.cpp:213-236 | A client without a request leaves under the empty text, for which an empty list is created |
| Server.Server.AddToRequestClients | src/server.cpp:309-316 | The client becomes the last of its request's list |
| Server.Server.HasClientsWithRequest | src/server.cpp:328-332 | Whether the list of the request is not empty |
| Server.Server.SetClientToGetResponseFromCache | src/server.cpp:275-279 | The client reads the entry, which counts it |
| Server.Server.ReadRequestFromClient | src/server.cpp:281-307 | Refines the protocol's step in all branches: cached, waiting, fetching, unreachable origin, unreadable request |
| Server.Server.SendRequestToServer | src/server.cpp:334-349 | Refines the protocol's step, or the departure if sending fails |
| Server.Server.PrepareForSendingRequest | src/server.cpp:65-70 | The client owns a connection at position 0 and sends its request, or nothing changes if it cannot be connected |
| Server.Server.PrepareAllWaitingClientsForSending | src/server.cpp:351-358 | The loop over the list prepares exactly the waiting clients, or those before the first one that cannot be connected; it gets to its end if and only if there is none |
| Server.Server.FailStatus | src/server.cpp:389-394 | The exception handler of the status: prepares those who wait and discards the client, or keeps it if one of them cannot be connected |
| Server.Server.WriteResponseChunkToClientBuffer | src/server.cpp:238-242 | The chunk is queued last |
| Server.Server.WriteResponseChunkToAll | src/server.cpp:406-408 | Every client of the request queues the chunk |
| Server.Server.WriteResponseChunkToCache | src/server.cpp:244-253 | Refines the protocol's write, falling back on AllInUse |
| Server.Server.FallbackToClientBuffer | src/server.cpp:255-273 | The loop over the clients, the cache and the leader refine the protocol's fallback; false exactly when the entry is gone before the end |
| Server.Server.AllOthersRead | src/server.cpp:379-383 | Everyone of the request but the leader turns to the entry, which counts them |
| Server.Server.StatusCode | src/server.cpp:366-372 | What std::stoi makes of the three characters, with its spaces, signs and refusals, is 200 if and only if they are 200 |
| Server.Server.ReadResponseStatusCodeFromServer | src/server.cpp:360-395 | Refines the protocol's step for a status and its failure, whoever can or cannot be connected at the first and at the second try |
| Server.Server.FinishAll | src/server.cpp:418-420 | Every client of the request has got the response |
| Server.Server.EndResponse | src/server.cpp:412-421 | Refines the protocol's end of the response |
| Server.Server.ReadResponseFromServer | src/server.cpp:397-427 | Refines the protocol's step for a chunk, the end of the response and an error |
| Server.Server.SendUncachedResponseToClient | src/server.cpp:437-457 | Refines sending from the queue, including leaving as done |
| Server.Server.SendCachedResponseToClient | src/server.cpp:459-487 | Refines sending from the entry, including leaving as done; a missing entry changes nothing |
| Server.Server.SendResponseToClient | src/server.cpp:429-435 | Refines the protocol's send for any room that the socket has |
| ServerEvents.HandleServerSocketEvents | src/server.cpp:144-157 | A client is accepted, or an error of the socket ends the server, or a failing accept changes nothing; the invariant holds again |
| ServerEvents.HandleClientSocketEvents | src/server.cpp:159-209 | Whatever bits poll reports for any client that is there, and whatever its sockets then give that the protocol allows, the objects go through the protocol's events for it, a read and the send that follows it in the same call included, and its invariant holds again |
| ServerEvents.StillSends | src/server.cpp:192-206 | After a successful read the client is still listed and may be sent to in the same call |
| ServerEvents.GetPollfds | src/clients_list.cpp:91-130 | A socket is polled for an event if and only if the state of a listed client asks for it; it requires what the assertions require |
| ServerEvents.PollingAllowed | src/clients_list.cpp:109-121 | While the invariant holds the assertions of polling never fail |
| ServerPolling.PollClients | src/clients_list.cpp:91-130 | Of the clients that are there, a newcomer's socket is polled for input and nothing else; a listed client's own socket is polled for output if and only if output alone is an event of room, and the one to its origin for output if and only if output alone is its request being sent, and for input if and only if input alone is a status, or a chunk or the end of the response; nothing else is polled |
| ServerPolling.PolledIff | src/clients_list.cpp:104-126 | The same for every state of the protocol: what is polled is what a report of that bit alone amounts to |
| ServerPolling.FailuresDrop | src/server.cpp:161-164 | An error lets any listed client go; so does a lone hang-up while it may be sent to, and a hang-up or a failure while its request is to be sent |
| ServerPolling.BothReported | src/server.cpp:187-203 | Input and output together are what is received and then, unless that fails, a send in the same call |
| ServerPolling.NothingReported | src/server.cpp:168-186 | Without data, input for a status is its absence, and a report about somebody who waits for another client is nothing |
| ServerPolling.ListenerReports | src/server.cpp:144-157 | Input on the server's socket is a client, if accepting succeeds, and nothing else is; exactly an error ends the server |
| ServerPolling.PossibleIff | src/server.cpp:159-209 | A report about a listed client is possible exactly if what is received, in a state in which something is, is what the origin sends next or its end, and a status is readable and safe |
| ServerPolling.OthersPossible | src/server.cpp:144-167 | Every report about the server's socket is possible, and every one about a newcomer that is there, unless its request has the empty key |
| ServerPolling.NewcomerFails | src/server.cpp:161-167 | A newcomer with an error or an unreadable request is let go |
| ServerRuns.Start | src/server.cpp:84-91 | The server as built has no client and an empty cache, all of it new, and is at the start of a run |
| ServerRuns.HandleReport | src/server.cpp:127-142 | A report about the server, a newcomer or a listed client, that is possible in the state so far, takes the objects on along the run, to the state that the report leads to; whatever clients and nodes it adds are new |
| ServerRuns.Serve | src/server.cpp:126-142 | From the start, every sequence of reports that is possible, one after the other on the state machine alone, takes the objects along one run, whose events are those of the reports, to its end or to an error of the server's own socket |
| ServerRuns.ServeAndShow | src/server.cpp:126-142 | After every possible sequence of reports from the start, every client object has been sent consecutive bytes of the response to its request, every record is a response from the base on, and the byte count of the cache object is exact and within its budget |
| ServerRuns.RunMore | src/server.cpp:127-142 | Events that are possible one after the other at the end of a run continue it |
| ServerRuns.ObjectsDeliver | src/clients_list.cpp:55-70 | While the objects follow a run, as they do after all that Serve and HandleReport serve, the bytes that any client object has been sent, in a list or not, are consecutive bytes of the response to its request |
| ServerRuns.ObjectsCacheSound | src/cache/cache.cpp:90-96 | While the objects follow a run, the byte count of the cache object is exact and within its budget |
| RequestProperties.SplitInvariance | src/http/httpparser/httprequestparser.hpp:43-45 | Any partition of the input gives the result, the request, the parser state and the number of characters read that the whole input gives |
| RequestProperties.RunConcat | src/http/httpparser/httprequestparser.hpp:373-376 | Two calls continue each other exactly while the first is incomplete |
| RequestProperties.FramedRun | src/http/httpparser/httprequestparser.hpp:207-219 | On every input the framing noted in the parser is the one its headers announce |
| RequestProperties.BodyFraming | src/http/httpparser/httprequestparser.hpp:233-269 | What is missing and what is stored of a body make up the announced length, on completion nothing is missing; without POST or PUT no body state is reached; a body is read in chunks if and only if some header line of the input, when it ended, was a Transfer-Encoding with the value chunked |
| RequestProperties.ChunkedRun | src/http/httpparser/httprequestparser.hpp:209-218 | On every input the chunked flag is set if and only if it was set before or some header line that ended in the input said chunked; nothing that a folded line adds later takes it back |
| RequestProperties.ChunkConservation | src/http/httpparser/httprequestparser.hpp:301-355 | On every input the stored content and what is missing of the current chunk make up the sizes read; on completion the content is as long as their sum |
| RequestProperties.LastStep | src/http/httpparser/httprequestparser.hpp:43-45 | A parse that stops was incomplete one character earlier |
| RequestText.HeadRead | src/http/httpparser/httprequestparser.hpp:48-232 | Every well-formed head, with folded header lines, is read as the request it stands for; the pieces of a folded value are joined without a space; the body is in chunks if and only if some Transfer-Encoding line says chunked at one of its line ends, and the method has a body |
| RequestText.RequestLineRead | src/http/httpparser/httprequestparser.hpp:48-164 | Method, target and version of every well-formed request line are read back |
| RequestBody.ChunkedRead | src/http/httpparser/httprequestparser.hpp:270-369 | Decoding inverts encoding for every list of non-empty chunks with any spelling of the sizes, extensions and trailers of the accepted alphabet, and completes exactly on the last character |
| RequestBody.DecodeEncode | src/http/httpparser/httprequestparser.hpp:270-369 | The same for the usual encoder, with hexadecimal sizes |
| RequestBody.AfterHeadNoted | src/http/httpparser/httprequestparser.hpp:207-219 | After every well-formed head the noted length is the announced one, for a method with a body, and chunks are expected if and only if the head says so |
| RequestBody.RequestWithoutBody | src/http/httpparser/httprequestparser.hpp:252-256 | A request whose method has no body, or that announces the length 0 or none and has no line that says chunked, completes on the LF of the empty line, whatever follows |
| RequestBody.RequestWithLength | src/http/httpparser/httprequestparser.hpp:262-269 | A body of the announced length is stored as it is, and nothing after it is read |
| RequestBody.RequestWithChunks | src/http/httpparser/httprequestparser.hpp:250-251 | A whole chunked request is decoded into its head and its content, and nothing after it is read |
| RequestFraming.LengthRead | src/http/httpparser/httprequestparser.hpp:207-219 | Every POST and every PUT with a Content-Length line, its name in any case, among any other lines: exactly its body is stored, and nothing after it is read |
| RequestFraming.ChunksRead | src/http/httpparser/httprequestparser.hpp:207-219 | Every POST and every PUT with a Transfer-Encoding line that says chunked, in any case, among any other lines: its chunks are decoded, and nothing after them is read |
| RequestFraming.NoBodyRead | src/http/httpparser/httprequestparser.hpp:207-219 | A request of any other method ends with its head and has no content, whatever its lines announce |
| RequestFraming.SilentRead | src/http/httpparser/httprequestparser.hpp:252-256 | A POST or PUT that announces neither a length nor a coding ends with its head and has no content |
| RequestFraming.KeepAliveMeans | src/http/httpparser/httprequestparser.hpp:234-248 | The connection is kept alive if and only if the first Connection header says Keep-Alive, in any case, or there is none and the version is 1.1 or from 2 on |
| RequestLanguage.SimpleRead | src/http/httpparser/httprequestparser.hpp:76-80 | A request of HTTP/0.9 completes with the CR after its target, with that method and target, the version 0.9 and no headers |
| RequestLanguage.HeadLanguage | src/http/httpparser/httprequestparser.hpp:48-232 | The parser stands at the start of a header line exactly after the texts of well-formed heads |
| RequestLanguage.BodyLanguage | src/http/httpparser/httprequestparser.hpp:270-369 | A chunked body is accepted to its last character exactly if the grammar of the chunked coding spells it |
| RequestLanguage.ReadingOf | src/http/httpparser/httprequestparser.hpp:48-376 | Whatever has been read without an error is, in the state that the parser is in, the beginning of a message |
| RequestLanguage.Language | src/http/httpparser/httprequestparser.hpp:43-376 | On every input, the parser completes after n characters if and only if these are a message of the grammar: of HTTP/0.9, without a body, with a body of the announced length, or in chunks; nothing else is accepted, and no message begins with another |
| HttpRequestParser.HttpRequestParser.Consume | src/http/httpparser/httprequestparser.hpp:43-376 | The loop over the characters, with the object's fields and the request filled in place, computes the machine's run |
| HttpRequestParser.HttpRequestParser.ConsumeMethod | src/http/httpparser/httprequestparser.hpp:48-86 | One character of method or target, in place |
| HttpRequestParser.HttpRequestParser.ConsumeVersion | src/http/httpparser/httprequestparser.hpp:87-164 | One character of the version, in place |
| HttpRequestParser.HttpRequestParser.ConsumeHeader | src/http/httpparser/httprequestparser.hpp:165-232 | One character of the header lines, in place |
| HttpRequestParser.HttpRequestParser.NoteFraming | src/http/httpparser/httprequestparser.hpp:209-218 | What the end of a header line notes for a method with a body |
| HttpRequestParser.HttpRequestParser.FindConnection | src/http/httpparser/httprequestparser.hpp:234-235 | The first header named Connection, in any case |
| HttpRequestParser.HttpRequestParser.ConsumeEnd | src/http/httpparser/httprequestparser.hpp:233-261 | The character after the last CR of the head decides how the body is read |
| HttpRequestParser.HttpRequestParser.ConsumePost | src/http/httpparser/httprequestparser.hpp:262-269 | One character of a body of known length |
| HttpRequestParser.HttpRequestParser.ConsumeSize | src/http/httpparser/httprequestparser.hpp:270-314 | One character of a chunk size line |
| HttpRequestParser.HttpRequestParser.ConsumeData | src/http/httpparser/httprequestparser.hpp:349-369 | One character of chunk data or of the line end after it |
| HttpRequestParser.HttpRequestParser.ConsumeTrailer | src/http/httpparser/httprequestparser.hpp:315-348 | One character of the trailers |
| ResponseLockStep.LockStepRun | src/http/httpparser/httpresponseparser.hpp:159-363 | From the header lines on and for every input, the response parser and the request parser of a method with a body agree on result, state, headers, content and the characters they read |
| ResponseLockStep.LockStep | src/http/httpparser/httpresponseparser.hpp:159-363 | One character keeps the two parsers in step |
| ResponseLockStep.ResponseWithChunks | src/http/httpparser/httpresponseparser.hpp:250-363 | A chunked response is decoded, completes exactly on its last character, and nothing after it is read |
| ResponseLockStep.ResponseWithoutLength | src/http/httpparser/httpresponseparser.hpp:225-250 | A response that announces no length and no chunks completes with its head and has no content, whatever follows |
| ResponseLanguage.Language | src/http/httpparser/httpresponseparser.hpp:159-363 | After a status line, on every input, the response parser completes after n characters if and only if these are a message of the grammar: without a body, with a body of the announced length, or in chunks |
| ResponseLanguage.FromRequest | src/http/httpparser/httpresponseparser.hpp:159-363 | A request that begins with the request line of a response's companion is that line and a message of the response grammar |
| HeaderMap.NormalizedMeaning | src/http/http_request.cpp:37-47 | The normalised headers are sorted without duplicates and give each name its last value, close for Connection, and nothing for the removed names |
| HeaderMap.NormalizedTwice | src/http/http_request.cpp:37-47 | Normalising twice is normalising once |
| HeaderMap.NormalizedAlike | src/http/http_request.cpp:37-47 | Two header lists are normalised alike if and only if they mean the same |
| HeaderMap.InsertFind | src/http/http_request.cpp:41-45 | Inserting or assigning a pair changes the lookup of its name only |
| HeaderMap.SameMap | src/http/http_request.cpp:54-56 | The iteration order depends on the contents only: equal lookups, equal sequences |
| HeaderMap.RemovedAnywhere | src/http/http_request.cpp:5-9 | A header named Range, Proxy-Connection or Upgrade-Insecure-Requests makes no difference to the normalised headers, wherever it stands |
| HeaderMap.KeptByName | src/http/http_request.cpp:37-47 | Of every other name the normalised headers have the last value, or close for Connection, and of a name that is not there nothing |
| KeyHeaders.KeyIgnoresHeader | src/http/http_request.cpp:37-47 | To every received request with header lines, a line with one of these three names can be added anywhere without changing the key |
| KeyHeaders.KeyOfMessage | src/http/http_request.cpp:12-26 | Every received text with a key begins with a message of the grammar |
| RequestKey.PrintThenParse | src/http/http_request.cpp:50-60 | Parsing the printed request completes and gives back method, path, version and headers, for every method without a body |
| RequestKey.PrintThenParseHead | src/http/http_request.cpp:50-60 | For every method the printed text up to the headers gives them back |
| RequestKey.KeyInjective | src/http/http_request.cpp:50-60 | Two printed requests are equal if and only if everything they show is |
| RequestKey.ReceivedPrintable | src/http/http_request.cpp:31-48 | Every request that is received can be printed: what the two parsers accept has the characters that the printer needs |
| RequestKey.SameKeyIff | src/http/http_request.cpp:31-60 | Two received texts have the same key if and only if method, path and version are equal and the headers mean the same |
| RequestKey.KeyNotEmpty | src/http/http_request.cpp:57-59 | No received request has the empty key, which stands for clients without a request |
| RequestKey.KeyReadAgain | src/http/http_request.cpp:31-60 | Of every request, POST and PUT included, the key is refused when received as a request: its target is a path and no URL; for methods without a body the parser gives back what the key shows, with the headers already normalised |
| RequestKey.KeyIgnoresAuthorityAndQuery | src/http/http_request.cpp:50-53 | Requests of any method and with any body for URLs that differ in scheme, credentials, host, port, query or fragment but not in the path share a key, and there is one if and only if the request is complete |
| HttpRequest.HttpRequest.AddHeaders | src/http/http_request.cpp:37-47 | The loop over the received headers adds them to the map, filtered and normalised |
| HttpRequest.HttpRequest.Parse | src/http/http_request.cpp:31-48 | Fills the request from the parsed text, or fails exactly when the parse is not complete |
| HttpRequest.HttpRequest.ToString | src/http/http_request.cpp:50-60 | The loop over the headers builds the printed text; without a valid URL there is none |
| HttpRequest.GetHttpRequest | src/clients_list.cpp:71-75 | What a client does with the text it receives gives the key of SameKeyIff |
| UrlText.UrlRoundTrip | src/http/httpparser/urlparser.hpp:103-258 | Parsing an assembled URL gives back every component if and only if its password, if any, is not made of digits only |
| UrlText.DigitsPasswordRead | src/http/httpparser/urlparser.hpp:201-218 | What happens otherwise: an invalid URL, or a failed assertion if the password is not empty |
| UrlText.PortToConnect | src/http/httpparser/urlparser.hpp:72-86 | The port is the decimal port of the URL reduced to 16 bits, itself if and only if below 65536, or 443 or 80 if there is none |
| UrlText.UsualUrl | src/http/httpparser/urlparser.hpp:72-86 | For every host of letters, digits and - . _ ~ %, and every path, the URL with http or https gives back host and path, and the port 80 or 443, or the one that is written |
| UrlText.UrlAlphabets | src/http/httpparser/urlparser.hpp:89-102 | The characters of a host, a scheme and a password, one by one |
| UrlText.BareHostRead | src/http/httpparser/urlparser.hpp:159-213 | Without credentials, what could be a user name and a password turns out to be host and port |
| UrlText.PasswordRead | src/http/httpparser/urlparser.hpp:175-213 | Digits that could be a port turn out to start a password |
| UrlParser.UrlParser.Parse | src/http/httpparser/urlparser.hpp:103-258 | The loop over the characters, with its local variables and the object's fields, computes the machine's run and its end |
| UrlParser.UrlParser.ParseAuthority | src/http/httpparser/urlparser.hpp:159-198 | One character of user name, password or host, in place |
| UrlParser.UrlParser.ParsePort | src/http/httpparser/urlparser.hpp:201-230 | One character of a port, or of what may be a password, in place |
| UrlParser.UrlParser.HttpPort | src/http/httpparser/urlparser.hpp:72-86 | The port of the URL or the default of its scheme |
| UrlLanguage.Language | src/http/httpparser/urlparser.hpp:103-258 | A text is taken for a valid URL, and for this one, if and only if it is the text of a reading that stands for it: of all components up to a path, the slashes after the scheme missing or not, or of a beginning of that which does not end in the digits of a port |
| UrlLanguage.ReadingOf | src/http/httpparser/urlparser.hpp:103-250 | Whatever the parser has read without an error is the text of a reading, in the state that the parser is in |
| UrlLanguage.ReadingRead | src/http/httpparser/urlparser.hpp:103-250 | Every reading is what the parser makes of its text, further question marks of a query dropped |
| Ascii.ReadBack | src/http/httpparser/httprequestparser.hpp:303 | The numbers that atoi and strtol read are those that a stream printed |
| Ascii.TokenAlphabet | src/http/httpparser/httprequestparser.hpp:378-411 | A character of a method or header name is a letter, a digit or one of the fifteen others of a token |
| Ascii.NoCaseIff | src/http/httpparser/httprequestparser.hpp:212-216 | strcasecmp finds two texts equal if and only if they are, letter by letter, up to upper and lower case |
| Ascii.LessDecided | src/http/http_request.cpp:54-56 | The order of the headers is decided by the first character that differs, and a name is before its continuations |
| Ascii.SignedRead | src/http/httpparser/httprequestparser.hpp:213 | atoi skips spaces and reads a sign |
| Ascii.StopsAt | src/http/httpparser/httprequestparser.hpp:303 | A number ends with the first character that is no digit |
| Ascii.PrefixRead | src/http/httpparser/httprequestparser.hpp:303 | strtol reads a number with the prefix 0x or 0X as without it |
| Ascii.StoiIsOk | src/server.cpp:369-372 | Of all texts of three characters std::stoi reads only 200 as 200 |

## Left out

- Sockets, poll, name resolution, signals, command line and logging: what they deliver is an event or a
  parameter, any chunk, any room, an end, an error, who can be connected.
- Fairness: nothing says that poll ever reports. `SharingProgress` says what happens when it does; a client that waits
  for a status, or for the rest of a response, waits for its origin.
- Origins that answer the same request differently: the steps assume one response for each key.
- Server.Server.ReadResponseStatusCodeFromServer: requires a status chunk of at least 12 bytes in which std::stoi
  finds a number; otherwise the code reads past the chunk, or ends the program by an exception of the standard
  library, which only main catches.
- A Content-Length that is negative, or too large for a string, ends the program in the same way when the parser
  reserves that many bytes (src/http/httpparser/httprequestparser.hpp:213-214); the model goes on reading the body.
- What happens to a client in the rest of the step that discards it: a step ends there. An exception while
  bytes are sent to a client is the event of its departure.
- SharingTheorems.DeliveredInOrder: its runs have no status that is not safe. After such a one some runs deliver in
  order and some do not; `UnsafeLossShows` and `TooMuchIff` say what it can lead to.
- ServerEvents.HandleClientSocketEvents: requires that what is received is what the origin sends, and that a status
  leaves the server in the protocol; `StatusIff` says exactly which ones do. The first client that cannot be
  connected is given by its place in the list.
- Server.Server.ReadRequestFromClient: takes the key as a parameter, so that a request text that makes the URL
  parser abort ends the program there and not here; `HttpRequest.GetHttpRequest` computes the key.
- File descriptors: the table of clients indexed by them is a set of clients, and finding a client by its
  descriptor is not modelled.
- The fixed buffer, the size limit and the search for an empty line when a request is received: the parser is
  given the text.
- C++ lifetimes, and the capacity that vectors and strings reserve.
- Overflow of version numbers, of atoi and of strtol: numbers are unbounded, except that a Content-Length becomes
  a 64-bit size and a port 16 bits. A header state without a header, where the code would read a missing element,
  cannot be reached and fails in the model.
- Text with NUL bytes in headers: the parser rejects them there, so that comparing C strings is comparing
  sequences.
- std::map, std::list and std::unordered_map: the list is modelled down to its links; the ordered map is the
  sequence of its pairs; the table is a map.
- HttpResponseParser: nothing in the server uses it. Its header and body states are modelled on values, without
  the object that is updated in place, and its status line is not modelled.
- `inspect()`, the scripts, and the Python origin server.
