/** Runs in which an entry loses its writer, in which the first chunk of a response finds no room and is even sent
    twice, and in which those who wait cannot be connected. */
module SharingFailures {
  import opened Wrappers
  import Ascii
  import opened CacheSpec
  import opened Sharing
  import opened SharingInvariant
  import opened SharingSteps
  import opened SharingTheorems
  import opened SharingWriters
  import CP = CacheProperties
  import opened SharingExamples
  import Progress = SharingProgress

  /** The part of a state that these runs are about. */
  ghost predicate Shows(s: State, newcomers: nat, g: seq<Client>, cache: Store) {
    s.newcomers == newcomers && Group(s, "k") == g && s.cache == cache
  }

  /** Some run under `events` ends in a state that shows this. */
  ghost predicate Reaches(origin: Origin, capacity: nat, events: seq<Event>, newcomers: nat, g: seq<Client>,
                          cache: Store) {
    exists states :: && |states| == |events| + 1 && Run(origin, capacity, events, states)
                     && Shows(states[|events|], newcomers, g, cache)
  }

  /** From any state that shows the one, `e` leads to a state that shows the other. */
  ghost predicate Leads(origin: Origin, e: Event, n: nat, g: seq<Client>, cache: Store, m: nat, h: seq<Client>,
                        after: Store) {
    forall s :: Shows(s, n, g, cache) ==> Enabled(origin, s, e) && Shows(Next(origin, s, e), m, h, after)
  }

  lemma ReachMore(origin: Origin, capacity: nat, events: seq<Event>, e: Event, n: nat, g: seq<Client>, cache: Store,
                  m: nat, h: seq<Client>, after: Store)
    requires Reaches(origin, capacity, events, n, g, cache) && Leads(origin, e, n, g, cache, m, h, after)
    ensures Reaches(origin, capacity, events + [e], m, h, after)
  {
    hide Run, Enabled, Next, Shows;
    var states :| |states| == |events| + 1 && Run(origin, capacity, events, states)
                  && Shows(states[|events|], n, g, cache);
    RunExtends(origin, capacity, events, states, e);
    var more := states + [Next(origin, states[|events|], e)];
    assert more[|events + [e]|] == Next(origin, states[|events|], e);
  }

  lemma ReachStart(origin: Origin, capacity: nat)
    ensures Reaches(origin, capacity, [], 0, [], Store([], 0, capacity))
  {
    assert Run(origin, capacity, [], [Start(capacity)]);
  }

  const WAITING := NEWCOMER.(phase := WaitingForAnother)
  ghost const ASKING := Prepared(NEWCOMER)

  ghost function Empty(capacity: nat): Store {
    Store([], 0, capacity)
  }

  // ----- the events -----

  lemma Accepts(origin: Origin, n: nat, g: seq<Client>, cache: Store)
    ensures Leads(origin, Accept, n, g, cache, n + 1, g, cache)
  {
  }

  lemma Fetches(origin: Origin, n: nat, capacity: nat)
    ensures Leads(origin, Request("k", true), n + 1, [], Empty(capacity), n, [ASKING], Empty(capacity))
  {
  }

  lemma Waits(origin: Origin, n: nat, g: seq<Client>, capacity: nat)
    requires g != [] && forall i :: 0 <= i < |g| ==> g[i].phase != WaitingResponse
    ensures Leads(origin, Request("k", true), n + 1, g, Empty(capacity), n, g + [WAITING], Empty(capacity))
  {
    assert WAITING == NEWCOMER.(phase := WaitingForAnother, base := JoinBase(g));
  }

  lemma Reads(n: nat, g: seq<Client>, e: Entry, size: nat, capacity: nat)
    ensures Leads(Answer, Request("k", true), n + 1, g, Store([Item("k", e)], size, capacity),
                  n, g + [Reading(NEWCOMER)], Store([Item("k", e.(inUse := e.inUse + 1))], size, capacity))
  {
    var cache := Store([Item("k", e)], size, capacity);
    assert Put(cache, "k", e.(inUse := e.inUse + 1)) == Store([Item("k", e.(inUse := e.inUse + 1))], size, capacity);
  }

  lemma Asks(origin: Origin, n: nat, g: seq<Client>, i: nat, cache: Store)
    requires i < |g| && g[i].phase == SendingRequest
    ensures Leads(origin, RequestSent("k", i), n, g, cache, n, g[i := g[i].(phase := WaitingStatus)], cache)
  {
  }

  lemma Fails(capacity: nat)
    ensures Leads(Answer, NoStatus("k", 0, 4), 0, [ASKED, WAITING, WAITING], Empty(capacity), 0, [ASKING, ASKING],
              Empty(capacity))
  {
    var g := [ASKED, WAITING, WAITING];
    assert PrepareWaiting(g) == [ASKED, ASKING, ASKING];
    assert WithoutClient([ASKED, ASKING, ASKING], 0) == [ASKING, ASKING];
  }

  // ----- two clients ask for the same -----

  ghost const ASK_TWICE: seq<Event> := [Accept, Request("k", true), Accept, Request("k", true)]

  lemma OneWaits(origin: Origin, capacity: nat)
    ensures Reaches(origin, capacity, ASK_TWICE, 0, [ASKING, WAITING], Empty(capacity))
  {
    hide Reaches, Leads;
    var none: Store := Empty(capacity);
    ReachStart(origin, capacity);
    Accepts(origin, 0, [], none);
    ReachMore(origin, capacity, [], Accept, 0, [], none, 1, [], none);
    assert [] + [Accept] == [Accept];
    Fetches(origin, 0, capacity);
    ReachMore(origin, capacity, [Accept], Request("k", true), 1, [], none, 0, [ASKING], none);
    Accepts(origin, 0, [ASKING], none);
    assert [Accept] + [Request("k", true)] == ASK_TWICE[..2];
    ReachMore(origin, capacity, ASK_TWICE[..2], Accept, 0, [ASKING], none, 1, [ASKING], none);
    Waits(origin, 0, [ASKING], capacity);
    assert ASK_TWICE[..2] + [Accept] == ASK_TWICE[..3] && [ASKING] + [WAITING] == [ASKING, WAITING];
    ReachMore(origin, capacity, ASK_TWICE[..3], Request("k", true), 1, [ASKING], none, 0, [ASKING, WAITING], none);
    assert ASK_TWICE[..3] + [Request("k", true)] == ASK_TWICE;
  }

  // ----- the writer is lost -----

  const WRITER := Client(WaitingResponse, Some(12), 0, [], true, true, false, "", 0)
  ghost const READER := Reading(ASKING)

  /** The entry of "k", holding the status, with this many users. */
  ghost function WithEntry(users: int): Store {
    Store([Item("k", Entry(STATUS, false, users))], 12, 100)
  }

  lemma OnlyItem(e: Entry)
    ensures Find([Item("k", e)], "k") == 0 && Without([Item("k", e)], "k") == []
  {
    assert [Item("k", e)][0].key == "k";
  }

  lemma FirstChunkCounted(used: Store)
    requires used == Store([Item("k", FRESH_ENTRY)], 0, 100)
    ensures Write(used, "k", STATUS) == (AppendTo(used.(current := 12), "k", STATUS), Ok)
  {
    hide AppendTo;
    assert FreeSpace(used, 12) == (used, true);
    hide FreeSpace;
    OnlyItem(FRESH_ENTRY);
  }

  lemma FirstChunkAppended(counted: Store)
    requires counted == Store([Item("k", FRESH_ENTRY)], 12, 100)
    ensures AppendTo(counted, "k", STATUS) == WithEntry(1)
  {
    OnlyItem(FRESH_ENTRY);
    hide Find;
    assert "" + STATUS == STATUS;
  }

  lemma FirstChunkWritten()
    ensures Write(UseEntry(Empty(100), "k"), "k", STATUS) == (WithEntry(1), Ok)
  {
    var used := Store([Item("k", FRESH_ENTRY)], 0, 100);
    assert UseEntry(Empty(100), "k") == used;
    hide *;
    FirstChunkCounted(used);
    FirstChunkAppended(used.(current := 12));
  }

  lemma SecondUser()
    ensures UseTimes(WithEntry(1), "k", 1) == WithEntry(2)
  {
    OnlyItem(Entry(STATUS, false, 1));
    assert UseEntry(WithEntry(1), "k") == WithEntry(2);
    assert UseTimes(WithEntry(1), "k", 0) == WithEntry(1);
  }

  lemma StatusIsOk()
    ensures IsOk(STATUS) && StatusReadable(STATUS) && Receives(Answer("k"), ASKED, STATUS)
  {
    assert STATUS[9..12] == "200";
    assert Answer("k")[0..12] == STATUS;
    Ascii.StoiIsOk('2', '0', '0');
  }

  lemma OpensEntry(s: State)
    requires Shows(s, 0, [ASKED, ASKING], Empty(100))
    ensures Shows(StatusOk(s, "k", 0, STATUS, 0), 0, [WRITER, READER], WithEntry(2))
  {
    FirstChunkWritten();
    SecondUser();
    hide Write, UseEntry, UseTimes, IsOk;
    var leader := WRITER.(phase := WaitingStatus);
    assert [ASKED, ASKING][0 := leader] == [leader, ASKING];
    var h := OthersRead([leader, ASKING], 0);
    assert h == [leader, READER] && h[0 := WRITER] == [WRITER, READER];
  }

  lemma OpensEnabled(s: State)
    requires Shows(s, 0, [ASKED, ASKING], Empty(100))
    ensures Enabled(Answer, s, Status("k", 0, STATUS, 0, 0))
  {
    StatusIsOk();
    hide IsOk, StatusReadable, Receives, Answer;
    assert CP.InUseBytes([]) == 0;
  }

  lemma Opens()
    ensures Leads(Answer, Status("k", 0, STATUS, 0, 0), 0, [ASKED, ASKING], Empty(100), 0, [WRITER, READER],
              WithEntry(2))
  {
    hide Enabled, StatusOk, IsOk, StatusReadable, Receives, Shows, WithEntry;
    StatusIsOk();
    forall s | Shows(s, 0, [ASKED, ASKING], Empty(100))
      ensures Enabled(Answer, s, Status("k", 0, STATUS, 0, 0))
      ensures Shows(Next(Answer, s, Status("k", 0, STATUS, 0, 0)), 0, [WRITER, READER], WithEntry(2))
    {
      OpensEnabled(s);
      OpensEntry(s);
    }
  }

  lemma Leaves()
    ensures Leads(Answer, Drop("k", 0), 0, [WRITER, READER], WithEntry(2), 0, [READER], WithEntry(1))
  {
    assert WithoutClient([WRITER, READER], 0) == [READER];
    assert FirstReader([READER][1..]) == -1;
    assert FirstReader([READER]) == -1;
    assert DisuseEntry(WithEntry(2), "k") == WithEntry(1);
  }

  ghost const LOST: seq<Event> :=
    [Accept, Request("k", true), Accept, Request("k", true), Accept, Request("k", true),
     RequestSent("k", 0), NoStatus("k", 0, 4), RequestSent("k", 0), Status("k", 0, STATUS, 0, 0), Drop("k", 0),
     Accept, Request("k", true)]

  lemma ThreeAsk()
    ensures Reaches(Answer, 100, LOST[..8], 0, [ASKING, ASKING], Empty(100))
  {
    hide Reaches, Leads;
    var none: Store := Empty(100);
    OneWaits(Answer, 100);
    Accepts(Answer, 0, [ASKING, WAITING], none);
    assert ASK_TWICE == LOST[..4];
    ReachMore(Answer, 100, LOST[..4], Accept, 0, [ASKING, WAITING], none, 1, [ASKING, WAITING], none);
    Waits(Answer, 0, [ASKING, WAITING], 100);
    assert LOST[..4] + [Accept] == LOST[..5] && [ASKING, WAITING] + [WAITING] == [ASKING, WAITING, WAITING];
    ReachMore(Answer, 100, LOST[..5], Request("k", true), 1, [ASKING, WAITING], none,
              0, [ASKING, WAITING, WAITING], none);
    Asks(Answer, 0, [ASKING, WAITING, WAITING], 0, none);
    assert LOST[..5] + [Request("k", true)] == LOST[..6];
    assert [ASKING, WAITING, WAITING][0 := ASKED] == [ASKED, WAITING, WAITING];
    ReachMore(Answer, 100, LOST[..6], RequestSent("k", 0), 0, [ASKING, WAITING, WAITING], none,
              0, [ASKED, WAITING, WAITING], none);
    Fails(100);
    assert LOST[..6] + [RequestSent("k", 0)] == LOST[..7];
    ReachMore(Answer, 100, LOST[..7], NoStatus("k", 0, 4), 0, [ASKED, WAITING, WAITING], none, 0, [ASKING, ASKING],
              none);
    assert LOST[..7] + [NoStatus("k", 0, 4)] == LOST[..8];
  }

  /** Two waiting clients get connections of their own when the first one fails. One of them writes the entry and
      leaves; the other reads it but holds a connection, so that nobody takes over. The entry stays incomplete,
      and whoever asks later joins it. */
  lemma WriterIsLost()
    ensures Reaches(Answer, 100, LOST, 0, [READER, Reading(NEWCOMER)], WithEntry(2))
    ensures !HasWriter([READER, Reading(NEWCOMER)]) && Lookup(WithEntry(2), "k") == Some(Entry(STATUS, false, 2))
  {
    hide Reaches, Leads;
    ThreeAsk();
    Asks(Answer, 0, [ASKING, ASKING], 0, Empty(100));
    assert [ASKING, ASKING][0 := ASKED] == [ASKED, ASKING];
    ReachMore(Answer, 100, LOST[..8], RequestSent("k", 0), 0, [ASKING, ASKING], Empty(100), 0, [ASKED, ASKING],
              Empty(100));
    Opens();
    assert LOST[..8] + [RequestSent("k", 0)] == LOST[..9];
    ReachMore(Answer, 100, LOST[..9], Status("k", 0, STATUS, 0, 0), 0, [ASKED, ASKING], Empty(100), 0, [WRITER, READER],
              WithEntry(2));
    Leaves();
    assert LOST[..9] + [Status("k", 0, STATUS, 0, 0)] == LOST[..10];
    ReachMore(Answer, 100, LOST[..10], Drop("k", 0), 0, [WRITER, READER], WithEntry(2), 0, [READER], WithEntry(1));
    Accepts(Answer, 0, [READER], WithEntry(1));
    assert LOST[..10] + [Drop("k", 0)] == LOST[..11];
    ReachMore(Answer, 100, LOST[..11], Accept, 0, [READER], WithEntry(1), 1, [READER], WithEntry(1));
    Reads(0, [READER], Entry(STATUS, false, 1), 12, 100);
    assert LOST[..11] + [Accept] == LOST[..12] && [READER] + [Reading(NEWCOMER)] == [READER, Reading(NEWCOMER)];
    ReachMore(Answer, 100, LOST[..12], Request("k", true), 1, [READER], WithEntry(1), 0, [READER, Reading(NEWCOMER)],
              WithEntry(2));
    assert LOST[..12] + [Request("k", true)] == LOST;
    EntryFound();
  }

  lemma EntryFound()
    ensures Lookup(WithEntry(2), "k") == Some(Entry(STATUS, false, 2))
  {
    OnlyItem(Entry(STATUS, false, 2));
  }

  // ----- the first chunk finds no room -----

  ghost const NO_ROOM: seq<Event> :=
    [Accept, Request("k", true), Accept, Request("k", true), RequestSent("k", 0)]

  /** In a cache of no bytes, with a client waiting, the first chunk of a response is lost: the fallback drops the
      entry after its first client. The leader is discarded, and the other client waits for chunks from nobody. */
  lemma FirstChunkIsLost()
    ensures Reaches(Answer, 0, NO_ROOM + [Status("k", 0, STATUS, 0, 0)], 0, [WAITING.(phase := GettingFromAnother)],
              Empty(0))
    ensures forall s :: Shows(s, 0, [ASKED, WAITING], Empty(0)) ==>
                          && !FirstChunkFits(s, "k", STATUS)
                          && !WriteToCache(Started(s, "k", 0, STATUS), "k", 0, STATUS).1
  {
    hide Reaches, Leads, WriteToCache, Started, FirstChunkFits;
    forall s | Shows(s, 0, [ASKED, WAITING], Empty(0))
      ensures !FirstChunkFits(s, "k", STATUS)
      ensures !WriteToCache(Started(s, "k", 0, STATUS), "k", 0, STATUS).1
    {
      LosesEntry(s);
    }
    hide Shows;
    TwoAsk(Answer);
    StatusLoses();
    ReachMore(Answer, 0, NO_ROOM, Status("k", 0, STATUS, 0, 0), 0, [ASKED, WAITING], Empty(0),
              0, [WAITING.(phase := GettingFromAnother)], Empty(0));
  }

  lemma StatusLoses()
    ensures Leads(Answer, Status("k", 0, STATUS, 0, 0), 0, [ASKED, WAITING], Empty(0),
                  0, [WAITING.(phase := GettingFromAnother)], Empty(0))
  {
    hide StatusOk, IsOk, StatusReadable, Receives, WriteToCache, Started, FirstChunkFits;
    StatusIsOk();
    forall s | Shows(s, 0, [ASKED, WAITING], Empty(0))
      ensures Enabled(Answer, s, Status("k", 0, STATUS, 0, 0))
      ensures Shows(Next(Answer, s, Status("k", 0, STATUS, 0, 0)), 0, [WAITING.(phase := GettingFromAnother)], Empty(0))
    {
      LosesEntry(s);
    }
  }

  lemma TwoAsk(origin: Origin)
    ensures Reaches(origin, 0, NO_ROOM, 0, [ASKED, WAITING], Empty(0))
  {
    hide Reaches, Leads;
    OneWaits(origin, 0);
    Asks(origin, 0, [ASKING, WAITING], 0, Empty(0));
    assert ASK_TWICE == NO_ROOM[..4] && [ASKING, WAITING][0 := ASKED] == [ASKED, WAITING];
    ReachMore(origin, 0, NO_ROOM[..4], RequestSent("k", 0), 0, [ASKING, WAITING], Empty(0),
              0, [ASKED, WAITING], Empty(0));
    assert NO_ROOM[..4] + [RequestSent("k", 0)] == NO_ROOM;
  }

  lemma LosesEntry(s: State)
    requires Shows(s, 0, [ASKED, WAITING], Empty(0))
    ensures !FirstChunkFits(s, "k", STATUS)
    ensures !WriteToCache(Started(s, "k", 0, STATUS), "k", 0, STATUS).1
    ensures Shows(StatusOk(s, "k", 0, STATUS, 0), 0, [WAITING.(phase := GettingFromAnother)], Empty(0))
  {
    FullCache();
    assert CP.InUseBytes([]) == 0;
    var c := FellBack(OPENER, "", STATUS);
    var d := WAITING.(phase := GettingFromAnother);
    hide Write, UseEntry, Touch, FellBack;
    assert [ASKED, WAITING][0 := OPENER] == [OPENER, WAITING];
    assert [OPENER, WAITING][0 := c] == [c, WAITING] && [c, WAITING][1 := d] == [c, d];
    assert FallbackLoop([c, WAITING], 1, EMPTY, "k", STATUS) == ([c, d], EMPTY, false);
    assert FallbackLoop([OPENER, WAITING], 0, UseEntry(EMPTY, "k"), "k", STATUS) == ([c, d], EMPTY, false);
    var t := WriteToCache(Started(s, "k", 0, STATUS), "k", 0, STATUS).0;
    assert Group(t, "k") == [c, d] && t.cache == EMPTY;
    LeaderGivesUp(t, c, d);
  }

  lemma LeaderGivesUp(t: State, c: Client, d: Client)
    requires Shows(t, 0, [c, d], EMPTY) && c.phase == GettingFromAnother && d.phase == GettingFromAnother
    ensures Shows(StatusFailed(t, "k", 0), 0, [d], EMPTY)
  {
    assert PrepareWaiting([c, d]) == [c, d];
    assert WithoutClient([c, d], 0) == [d];
  }

  // ----- the beginning of a response is sent twice -----

  ghost const REPEATED: seq<Event> :=
    ASK_TWICE + [Accept, Request("k", true), Accept, Request("k", true), RequestSent("k", 0), NoStatus("k", 0, 4),
                 RequestSent("k", 1), RequestSent("k", 2)]

  /** The clients are these, and the cache has no entry for them nor any room. */
  ghost predicate NoRoom(s: State, g: seq<Client>) {
    Group(s, "k") == g && Sound(s.cache) && Lookup(s.cache, "k") == None && s.cache.max == 0
  }

  lemma LosesChunk(s: State, g: seq<Client>, i: nat)
    requires NoRoom(s, g) && i < |g| && |g| >= 2 && g[i].phase == WaitingStatus
    requires forall j :: 0 <= j < |g| ==> g[j].phase != WaitingForAnother
    ensures Listed(s, "k", i)
    ensures NoRoom(StatusOk(s, "k", i, STATUS, 0), WithoutClient(PrepareWaiting(Lost(Opened(g, i, 12), STATUS)), i))
  {
    hide Lookup, Sound, WriteToCache, Started, DisuseEntry, WithoutClient, FirstChunkFits, PrepareWaiting;
    NothingFits(s);
    LostWrite(s, "k", i, STATUS);
    var t := WriteToCache(Started(s, "k", i, STATUS), "k", i, STATUS).0;
    DisuseEffect(t.cache, "k");
    assert AllReached(Group(t, "k"), 0);
    LostPhase(g, i);
  }

  lemma LostPhase(g: seq<Client>, i: nat)
    requires i < |g| && |g| >= 2 && g[i].phase == WaitingStatus
    ensures PrepareWaiting(Lost(Opened(g, i, 12), STATUS))[i].phase != WaitingResponse
  {
  }

  lemma NothingFits(s: State)
    requires Sound(s.cache) && s.cache.max == 0
    ensures |Group(s, "k")| >= 2 ==> !FirstChunkFits(s, "k", STATUS)
  {
    hide Sound;
  }

  /** The queue of a client that has nothing else to read: one chunk is sent. */
  lemma SendsChunk(s: State, c: Client, rest: seq<Client>)
    requires NoRoom(s, [c] + rest) && c.chunks == [STATUS] && c.phase == GettingFromAnother && !c.readCache
    ensures Listed(s, "k", 0)
    ensures NoRoom(Send(s, "k", 0, 12),
                   [c.(sent := c.sent + 12, chunks := [], delivered := c.delivered + STATUS)] + rest)
  {
    hide Send, Sound, Lookup;
    Progress.QueueSend(s, "k", 0, 12);
    var d := c.(sent := c.sent + 12, chunks := [], delivered := c.delivered + STATUS);
    assert [STATUS][1..] == [] && ([c] + rest)[0 := d] == [d] + rest;
  }

  ghost const FIRST := ASKING.(phase := GettingFromAnother, chunks := [STATUS])
  ghost const SENT_ONCE := FIRST.(sent := 12, chunks := [], delivered := STATUS)
  ghost const SENT_TWICE := FIRST.(sent := 24, chunks := [], delivered := STATUS + STATUS)

  lemma OnceLost()
    ensures WithoutClient(PrepareWaiting(Lost(Opened([ASKING, ASKED, ASKED], 1, 12), STATUS)), 1) == [FIRST, ASKED]
    ensures WithoutClient(PrepareWaiting(Lost(Opened([SENT_ONCE, ASKED], 1, 12), STATUS)), 1)
            == [SENT_ONCE.(chunks := [STATUS])]
  {
    assert [] + [] + [STATUS] == [STATUS];
  }

  lemma FirstLoss(s: State)
    requires NoRoom(s, [ASKING, ASKED, ASKED])
    ensures Listed(s, "k", 1) && NoRoom(StatusOk(s, "k", 1, STATUS, 0), [FIRST, ASKED])
  {
    OnceLost();
    hide StatusOk, NoRoom, Lost, Opened, WithoutClient, PrepareWaiting;
    LosesChunk(s, [ASKING, ASKED, ASKED], 1);
  }

  lemma FirstSend(s: State)
    requires NoRoom(s, [FIRST, ASKED])
    ensures Listed(s, "k", 0) && NoRoom(Send(s, "k", 0, 12), [SENT_ONCE, ASKED])
  {
    hide Send, NoRoom;
    assert [FIRST, ASKED] == [FIRST] + [ASKED] && [SENT_ONCE, ASKED] == [SENT_ONCE] + [ASKED] && "" + STATUS == STATUS;
    SendsChunk(s, FIRST, [ASKED]);
  }

  lemma SecondLoss(s: State)
    requires NoRoom(s, [SENT_ONCE, ASKED])
    ensures Listed(s, "k", 1) && NoRoom(StatusOk(s, "k", 1, STATUS, 0), [SENT_ONCE.(chunks := [STATUS])])
  {
    OnceLost();
    hide StatusOk, NoRoom, Lost, Opened, WithoutClient, PrepareWaiting;
    LosesChunk(s, [SENT_ONCE, ASKED], 1);
  }

  lemma SecondSend(s: State)
    requires NoRoom(s, [SENT_ONCE.(chunks := [STATUS])])
    ensures Listed(s, "k", 0) && NoRoom(Send(s, "k", 0, 12), [SENT_TWICE])
  {
    hide Send, NoRoom;
    var c := SENT_ONCE.(chunks := [STATUS]);
    assert [c] == [c] + [] && [SENT_TWICE] == [SENT_TWICE] + [];
    SendsChunk(s, c, []);
  }

  /** From here the second client loses its first chunk, which the first one has by then and is sent. The third one
      then loses its first chunk too, and the first one is sent it again. */
  ghost predicate Repeats(s: State) {
    && Listed(s, "k", 1)
    && var t := StatusOk(s, "k", 1, STATUS, 0);
       NoRoom(t, [FIRST, ASKED])
       && var u := Send(t, "k", 0, 12);
          NoRoom(u, [SENT_ONCE, ASKED])
          && var v := StatusOk(u, "k", 1, STATUS, 0);
             NoRoom(v, [SENT_ONCE.(chunks := [STATUS])])
             && NoRoom(Send(v, "k", 0, 12), [SENT_TWICE])
  }

  lemma RepeatsFrom(s: State)
    requires NoRoom(s, [ASKING, ASKED, ASKED])
    ensures Repeats(s)
  {
    hide StatusOk, Send, NoRoom;
    FirstLoss(s);
    var t := StatusOk(s, "k", 1, STATUS, 0);
    FirstSend(t);
    var u := Send(t, "k", 0, 12);
    SecondLoss(u);
    SecondSend(StatusOk(u, "k", 1, STATUS, 0));
  }

  /** Three clients fetch for themselves, and the start of the response reaches the first of them twice: what it has
      been sent in the end is no part of the response. */
  lemma StartIsSentTwice()
    ensures Reaches(Answer, 0, REPEATED, 0, [ASKING, ASKED, ASKED], Empty(0))
    ensures forall s :: Shows(s, 0, [ASKING, ASKED, ASKED], Empty(0)) ==> Repeats(s)
    ensures Receives(Answer("k"), ASKED, STATUS) && IsOk(STATUS) && StatusReadable(STATUS)
    ensures SENT_TWICE.delivered == STATUS + STATUS
    ensures forall base: nat :: !IsPartOf(SENT_TWICE.delivered, Answer("k"), base)
  {
    FourAsk();
    StatusIsOk();
    assert |STATUS + STATUS| == 24 && |Answer("k")| == 14;
    forall s | Shows(s, 0, [ASKING, ASKED, ASKED], Empty(0))
      ensures Repeats(s)
    {
      assert NoRoom(s, [ASKING, ASKED, ASKED]);
      RepeatsFrom(s);
      hide Repeats;
    }
    hide Shows, Reaches, Receives, Repeats, IsOk, StatusReadable;
  }

  lemma FourAsk()
    ensures Reaches(Answer, 0, REPEATED, 0, [ASKING, ASKED, ASKED], Empty(0))
  {
    hide Reaches, Leads;
    var none: Store := Empty(0);
    FourJoin();
    Asks(Answer, 0, [ASKING, WAITING, WAITING, WAITING], 0, none);
    assert [ASKING, WAITING, WAITING, WAITING][0 := ASKED] == [ASKED, WAITING, WAITING, WAITING];
    ReachMore(Answer, 0, REPEATED[..8], RequestSent("k", 0), 0, [ASKING, WAITING, WAITING, WAITING], none,
              0, [ASKED, WAITING, WAITING, WAITING], none);
    assert REPEATED[..8] + [RequestSent("k", 0)] == REPEATED[..9];
    FirstFails();
    ReachMore(Answer, 0, REPEATED[..9], NoStatus("k", 0, 4), 0, [ASKED, WAITING, WAITING, WAITING], none,
              0, [ASKING, ASKING, ASKING], none);
    assert REPEATED[..9] + [NoStatus("k", 0, 4)] == REPEATED[..10];
    Asks(Answer, 0, [ASKING, ASKING, ASKING], 1, none);
    assert [ASKING, ASKING, ASKING][1 := ASKED] == [ASKING, ASKED, ASKING];
    ReachMore(Answer, 0, REPEATED[..10], RequestSent("k", 1), 0, [ASKING, ASKING, ASKING], none,
              0, [ASKING, ASKED, ASKING], none);
    assert REPEATED[..10] + [RequestSent("k", 1)] == REPEATED[..11];
    Asks(Answer, 0, [ASKING, ASKED, ASKING], 2, none);
    assert [ASKING, ASKED, ASKING][2 := ASKED] == [ASKING, ASKED, ASKED];
    ReachMore(Answer, 0, REPEATED[..11], RequestSent("k", 2), 0, [ASKING, ASKED, ASKING], none,
              0, [ASKING, ASKED, ASKED], none);
    assert REPEATED[..11] + [RequestSent("k", 2)] == REPEATED;
  }

  lemma FourJoin()
    ensures Reaches(Answer, 0, REPEATED[..8], 0, [ASKING, WAITING, WAITING, WAITING], Empty(0))
  {
    hide Reaches, Leads;
    var none: Store := Empty(0);
    OneWaits(Answer, 0);
    assert ASK_TWICE == REPEATED[..4];
    Joins([ASKING, WAITING], REPEATED[..4]);
    assert [ASKING, WAITING] + [WAITING] == [ASKING, WAITING, WAITING];
    assert REPEATED[..4] + [Accept, Request("k", true)] == REPEATED[..6];
    Joins([ASKING, WAITING, WAITING], REPEATED[..6]);
    assert [ASKING, WAITING, WAITING] + [WAITING] == [ASKING, WAITING, WAITING, WAITING];
    assert REPEATED[..6] + [Accept, Request("k", true)] == REPEATED[..8];
  }

  lemma Joins(g: seq<Client>, events: seq<Event>)
    requires g != [] && forall i :: 0 <= i < |g| ==> g[i].phase != WaitingResponse
    requires Reaches(Answer, 0, events, 0, g, Empty(0))
    ensures Reaches(Answer, 0, events + [Accept, Request("k", true)], 0, g + [WAITING], Empty(0))
  {
    hide Reaches, Leads;
    Accepts(Answer, 0, g, Empty(0));
    ReachMore(Answer, 0, events, Accept, 0, g, Empty(0), 1, g, Empty(0));
    Waits(Answer, 0, g, 0);
    ReachMore(Answer, 0, events + [Accept], Request("k", true), 1, g, Empty(0), 0, g + [WAITING], Empty(0));
    assert events + [Accept] + [Request("k", true)] == events + [Accept, Request("k", true)];
  }

  lemma FirstFails()
    ensures Leads(Answer, NoStatus("k", 0, 4), 0, [ASKED, WAITING, WAITING, WAITING], Empty(0),
                  0, [ASKING, ASKING, ASKING], Empty(0))
  {
    var g := [ASKED, WAITING, WAITING, WAITING];
    assert PrepareWaiting(g) == [ASKED, ASKING, ASKING, ASKING];
    assert WithoutClient([ASKED, ASKING, ASKING, ASKING], 0) == [ASKING, ASKING, ASKING];
  }

  // ----- those who wait cannot be connected -----

  const NOT_FOUND: Bytes := "HTTP/1.1 404"

  ghost function Missing(k: Key): Bytes {
    NOT_FOUND + TAIL
  }

  lemma StatusIsNotOk()
    ensures !IsOk(NOT_FOUND) && StatusReadable(NOT_FOUND) && Receives(Missing("k"), ASKED, NOT_FOUND)
  {
    var code := NOT_FOUND[9..12];
    assert code[0] == '4' && code[1] == '0' && code == [code[0], code[1], code[2]];
    assert Missing("k")[0..12] == NOT_FOUND;
    assert Ascii.SkipSpace(code) == code;
  }

  ghost const STUCK := ASKED.(server := Some(12), chunks := [NOT_FOUND])

  /** The status of a response that is not cached has been received, and the client that waits cannot be connected,
      neither at once nor by the exception handler: the client of the response still waits for a status, in a state
      that the protocol does not know, and takes the next chunk for one. */
  lemma StatusIsReadTwice()
    ensures Reaches(Missing, 0, NO_ROOM, 0, [ASKED, WAITING], Empty(0))
    ensures forall s :: Shows(s, 0, [ASKED, WAITING], Empty(0)) ==>
                          && !IsOk(NOT_FOUND) && StatusReadable(NOT_FOUND)
                          && Receives(Missing("k"), Group(s, "k")[0], NOT_FOUND)
                          && Shows(ReadStatus(s, "k", 0, NOT_FOUND, 0, 0), 0, [STUCK, WAITING], Empty(0))
                          && !Inv(Missing, ReadStatus(s, "k", 0, NOT_FOUND, 0, 0))
  {
    TwoAsk(Missing);
    StatusIsNotOk();
    hide IsOk, StatusReadable, Receives, Reaches, Inv, ReadStatus;
    forall s | Shows(s, 0, [ASKED, WAITING], Empty(0))
      ensures Shows(ReadStatus(s, "k", 0, NOT_FOUND, 0, 0), 0, [STUCK, WAITING], Empty(0))
      ensures !Inv(Missing, ReadStatus(s, "k", 0, NOT_FOUND, 0, 0))
    {
      Stuck(s);
      NotFetching(Missing, ReadStatus(s, "k", 0, NOT_FOUND, 0, 0), "k", 0);
    }
  }

  lemma Stuck(s: State)
    requires Shows(s, 0, [ASKED, WAITING], Empty(0)) && !IsOk(NOT_FOUND)
    ensures Shows(ReadStatus(s, "k", 0, NOT_FOUND, 0, 0), 0, [STUCK, WAITING], Empty(0))
  {
    hide IsOk, StatusFailed;
    var g, h := [ASKED, WAITING], [STUCK, WAITING];
    assert g[1].phase == WaitingForAnother && h[1].phase == WaitingForAnother;
    assert [] + [NOT_FOUND] == [NOT_FOUND] && g[0 := STUCK] == h;
    assert PrepareBefore(h, 0) == h;
  }
}
