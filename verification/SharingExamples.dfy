/** Runs that show where the guarantees of the protocol end. */
module SharingExamples {
  import opened Wrappers
  import Ascii
  import opened CacheSpec
  import opened Sharing
  import opened SharingTheorems

  const STATUS: Bytes := "HTTP/1.1 200"
  const TAIL: Bytes := "ab"

  ghost function Answer(k: Key): Bytes {
    STATUS + TAIL
  }

  const EMPTY := Store([], 0, 0)

  /** One client, listed under "k". */
  ghost function One(newcomers: nat, c: Client): State {
    State(newcomers, map["k" := [c]], EMPTY, [])
  }

  /** Two clients, listed under "k". */
  ghost function Two(c: Client, d: Client): State {
    State(0, map["k" := [c, d]], EMPTY, [])
  }

  const LEADER := Client(WaitingResponse, Some(12), 0, [STATUS], false, false, true, "", 0)
  const LATE := Client(WaitingForAnother, None, 0, [], false, false, false, "", 12)
  const LEADER_FED := LEADER.(server := Some(14), chunks := [STATUS, TAIL])
  const LATE_FED := LATE.(chunks := [TAIL])
  const LEADER_AT_END := LEADER_FED.(phase := GotResponse)
  const LATE_AT_END := LATE_FED.(phase := GotResponse)
  const LATE_SENT := LATE_AT_END.(sent := 2, chunks := [], delivered := TAIL)

  ghost function LateEvents(): seq<Event> {
    [ Accept, Request("k", true), RequestSent("k", 0), Status("k", 0, STATUS, 0, 0),
      Accept, Request("k", true), Chunk("k", 0, TAIL), Eof("k", 0),
      Writable("k", 1, 2), Writable("k", 1, 0) ]
  }

  ghost function LateStates(): seq<State> {
    [ Start(0),
      Start(0).(newcomers := 1),
      One(0, Prepared(NEWCOMER)),
      One(0, ASKED),
      One(0, LEADER),
      One(1, LEADER),
      Two(LEADER, LATE),
      Two(LEADER_FED, LATE_FED),
      Two(LEADER_AT_END, LATE_AT_END),
      Two(LEADER_AT_END, LATE_SENT),
      One(0, LEADER_AT_END).(finished := [Finished("k", TAIL, 12)]) ]
  }

  /** `e` takes the run from `s` to `t`. */
  ghost predicate Step(s: State, e: Event, t: State) {
    Enabled(Answer, s, e) && Next(Answer, s, e) == t
  }

  /** States are equal when their groups are. */
  lemma SameState(s: State, t: State)
    requires s.newcomers == t.newcomers && s.groups == t.groups && s.cache == t.cache
    requires s.finished == t.finished
    ensures s == t
  {
  }

  lemma FetchSteps()
    ensures var s := LateStates();
            Step(s[0], Accept, s[1]) && Step(s[1], Request("k", true), s[2]) && Step(s[2], RequestSent("k", 0), s[3])
  {
    var s := LateStates();
    SameState(Next(Answer, s[1], Request("k", true)), s[2]);
    var c := Prepared(NEWCOMER);
    assert [c][0 := c.(phase := WaitingStatus)] == [c.(phase := WaitingStatus)];
    SameState(Next(Answer, s[2], RequestSent("k", 0)), s[3]);
  }

  lemma FullCache()
    ensures Write(UseEntry(EMPTY, "k"), "k", STATUS) == (UseEntry(EMPTY, "k"), AllInUse)
    ensures Lookup(UseEntry(EMPTY, "k"), "k") == Some(FRESH_ENTRY)
    ensures DisuseEntry(Touch(UseEntry(EMPTY, "k"), "k"), "k") == EMPTY
  {
    var started := UseEntry(EMPTY, "k");
    assert started == Store([Item("k", FRESH_ENTRY)], 0, 0);
    assert FirstIdle(started.items) == -1;
    assert Touch(started, "k") == started;
  }

  const OPENER := Client(WaitingStatus, Some(12), 0, [], true, true, false, "", 0)

  lemma LoneFallback()
    ensures FallbackLoop([OPENER], 0, UseEntry(EMPTY, "k"), "k", STATUS)
              == ([FellBack(OPENER, "", STATUS)], EMPTY, true)
    ensures Broadcaster(FellBack(OPENER, "", STATUS)) == LEADER
  {
    FullCache();
    var d := FellBack(OPENER, "", STATUS);
    assert d.chunks == [STATUS];
    hide UseEntry, Touch, DisuseEntry, Lookup;
    assert FallbackLoop([d], 1, EMPTY, "k", STATUS) == ([d], EMPTY, true);
    assert [OPENER][0 := d] == [d];
  }

  lemma StatusWrite()
    ensures var started := One(0, OPENER).(cache := UseEntry(EMPTY, "k"));
            WriteToCache(started, "k", 0, STATUS) == (One(0, LEADER), true)
  {
    FullCache();
    LoneFallback();
    hide UseEntry, FallbackLoop, Write, FellBack, Broadcaster, Lookup, Find;
    var d := FellBack(OPENER, "", STATUS);
    assert [d][0 := Broadcaster(d)] == [LEADER];
    var started := One(0, OPENER).(cache := UseEntry(EMPTY, "k"));
    var t := SetGroup(started, "k", [LEADER]).(cache := EMPTY);
    assert Fallback(started, "k", 0, STATUS) == (t, true);
    SameState(t, One(0, LEADER));
  }

  ghost const ASKED := Prepared(NEWCOMER).(phase := WaitingStatus)

  lemma StatusEnabled()
    ensures Enabled(Answer, One(0, ASKED), Status("k", 0, STATUS, 0, 0)) && IsOk(STATUS)
  {
    assert STATUS[9..12] == "200";
    Ascii.StoiIsOk('2', '0', '0');
    assert Answer("k")[0..12] == STATUS;
    assert Group(One(0, ASKED), "k") == [ASKED];
  }

  lemma StatusResult()
    ensures StatusOk(One(0, ASKED), "k", 0, STATUS, 0) == One(0, LEADER)
  {
    StatusWrite();
    hide UseEntry, WriteToCache, Lookup;
    OpenerAlone();
    var s := One(0, ASKED);
    assert Group(s, "k") == [ASKED] && Group(One(0, LEADER), "k") == [LEADER];
    assert [ASKED][0 := OPENER] == [OPENER];
    SameState(Started(s, "k", 0, STATUS),
              One(0, OPENER).(cache := UseEntry(EMPTY, "k")));
    SameState(StatusOk(s, "k", 0, STATUS, 0), One(0, LEADER));
  }

  /** The lone leader's first chunk does not fit into a cache of no bytes: it broadcasts to itself. */
  lemma StatusStep()
    ensures Step(One(0, ASKED), Status("k", 0, STATUS, 0, 0), One(0, LEADER))
  {
    StatusEnabled();
    StatusResult();
    hide StatusOk, IsOk, Receives, StatusReadable;
  }

  lemma OpenerAlone()
    ensures OthersRead([LEADER], 0) == [LEADER] && [LEADER][0 := LEADER.(phase := WaitingResponse)] == [LEADER]
  {
    assert OthersRead([LEADER], 0) == [LEADER];
  }

  lemma JoinSteps()
    ensures Step(One(0, LEADER), Accept, One(1, LEADER)) && Step(One(1, LEADER), Request("k", true), Two(LEADER, LATE))
  {
    hide UseEntry, DisuseEntry;
    assert Group(One(1, LEADER), "k") == [LEADER];
    assert [LEADER] + [LATE] == [LEADER, LATE];
    assert IsBroadcasting([LEADER][0]);
    SameState(Next(Answer, One(1, LEADER), Request("k", true)), Two(LEADER, LATE));
  }

  lemma ChunkStep()
    ensures Step(Two(LEADER, LATE), Chunk("k", 0, TAIL), Two(LEADER_FED, LATE_FED))
  {
    hide WriteToCache;
    var s := Two(LEADER, LATE);
    assert Group(s, "k") == [LEADER, LATE];
    assert Answer("k")[12..14] == TAIL;
    var advanced := LEADER.(server := Some(14));
    assert [STATUS] + [TAIL] == [STATUS, TAIL] && [] + [TAIL] == [TAIL];
    assert [LEADER, LATE][0 := advanced] == [advanced, LATE];
    assert QueueAll([advanced, LATE], TAIL) == [LEADER_FED, LATE_FED];
    SameState(Next(Answer, s, Chunk("k", 0, TAIL)), Two(LEADER_FED, LATE_FED));
  }

  lemma EofStep()
    ensures Step(Two(LEADER_FED, LATE_FED), Eof("k", 0), Two(LEADER_AT_END, LATE_AT_END))
  {
    var s := Two(LEADER_FED, LATE_FED);
    assert Group(s, "k") == [LEADER_FED, LATE_FED];
    assert [LEADER_FED, LATE_FED][0 := LEADER_AT_END] == [LEADER_AT_END, LATE_FED];
    assert AllGotResponse([LEADER_AT_END, LATE_FED]) == [LEADER_AT_END, LATE_AT_END];
    SameState(Next(Answer, s, Eof("k", 0)), Two(LEADER_AT_END, LATE_AT_END));
  }

  lemma DeliveryStep()
    ensures Step(Two(LEADER_AT_END, LATE_AT_END), Writable("k", 1, 2), Two(LEADER_AT_END, LATE_SENT))
  {
    var s := Two(LEADER_AT_END, LATE_AT_END);
    assert Group(s, "k") == [LEADER_AT_END, LATE_AT_END];
    assert TAIL[..2] == TAIL && [TAIL][1..] == [] && "" + TAIL == TAIL;
    assert Sent(LATE_AT_END, TAIL).(chunks := [] + [TAIL][1..]) == LATE_SENT;
    assert [LEADER_AT_END, LATE_AT_END][1 := LATE_SENT] == [LEADER_AT_END, LATE_SENT];
    hide Answer, Finish;
    SameState(Send(s, "k", 1, 2), Two(LEADER_AT_END, LATE_SENT));
  }

  lemma FinishStep()
    ensures Step(Two(LEADER_AT_END, LATE_SENT), Writable("k", 1, 0),
                 One(0, LEADER_AT_END).(finished := [Finished("k", TAIL, 12)]))
  {
    var s := Two(LEADER_AT_END, LATE_SENT);
    assert Group(s, "k") == [LEADER_AT_END, LATE_SENT];
    assert WithoutClient([LEADER_AT_END, LATE_SENT], 1) == [LEADER_AT_END];
    assert DisuseEntry(EMPTY, "k") == EMPTY;
    hide Answer, WithoutClient, DisuseEntry;
    assert [] + [Finished("k", TAIL, 12)] == [Finished("k", TAIL, 12)];
    SameState(Send(s, "k", 1, 0), One(0, LEADER_AT_END).(finished := [Finished("k", TAIL, 12)]));
  }

  lemma EveryStep(n: nat)
    requires n < 10
    ensures Step(LateStates()[n], LateEvents()[n], LateStates()[n + 1])
  {
    hide Step, One, Two;
    if n < 3 {
      FetchSteps();
    } else if n == 3 {
      StatusStep();
    } else if n < 6 {
      JoinSteps();
    } else if n == 6 {
      ChunkStep();
    } else if n == 7 {
      EofStep();
    } else if n == 8 {
      DeliveryStep();
    } else {
      FinishStep();
    }
  }

  lemma StepsRun(e: seq<Event>, s: seq<State>)
    requires |s| == |e| + 1 && s[0] == Start(0)
    requires forall n :: 0 <= n < |e| ==> Step(s[n], e[n], s[n + 1])
    ensures Run(Answer, 0, e, s)
  {
    hide Enabled, Next;
    forall n | 0 <= n < |e|
      ensures Enabled(Answer, s[n], e[n]) && s[n + 1] == Next(Answer, s[n], e[n])
    {
      assert Step(s[n], e[n], s[n + 1]);
    }
  }

  /** A client that joins a broadcast leaves as done without the beginning of the response: this run is
      one of the cases that FinishedWholeIff excludes. */
  lemma LateJoinerMissesTheStart()
    ensures Run(Answer, 0, LateEvents(), LateStates())
    ensures Finished("k", TAIL, 12) in LateStates()[10].finished && !(TAIL <= Answer("k"))
  {
    assert TAIL[0] != Answer("k")[0];
    hide Step;
    forall n | 0 <= n < 10
      ensures Step(LateStates()[n], LateEvents()[n], LateStates()[n + 1])
    {
      EveryStep(n);
    }
    StepsRun(LateEvents(), LateStates());
  }
}
