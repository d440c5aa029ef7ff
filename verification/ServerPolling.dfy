/** Why polling asks for what it asks for: a socket is polled exactly when what it then reports is an event that the
    client waits for. */
module ServerPolling {
  import opened Wrappers
  import opened Server
  import opened ServerEvents
  import opened ServerRuns
  import Spec = Sharing
  import SharingInvariant
  import CacheSpec

  const INPUT := Revents(false, true, false, false)
  const OUTPUT := Revents(false, false, true, false)

  // ----- what a report of one bit alone amounts to -----

  /** Input is the request of a newcomer. */
  ghost predicate AwaitsRequest(origin: Spec.Origin, v: Spec.State) {
    forall io: Io :: io.request.Some? && io.request.value != "" ==>
      var e := Spec.Request(io.request.value, io.connected);
      ReportEvents(v, AtNewcomer(INPUT, io)) == [e] && Spec.Enabled(origin, v, e)
  }

  /** Output is room for bytes of the response. */
  ghost predicate AwaitsRoom(origin: Spec.Origin, v: Spec.State, k: Key, i: nat) {
    forall io: Io ::
      var e := Spec.Writable(k, i, io.room);
      ReportEvents(v, AtListed(k, i, OUTPUT, io)) == [e] && Spec.Enabled(origin, v, e)
  }

  /** Output is the request being sent, if sending succeeds. */
  ghost predicate AwaitsSending(origin: Spec.Origin, v: Spec.State, k: Key, i: nat) {
    forall io: Io :: io.sends ==>
      var e := Spec.RequestSent(k, i);
      ReportEvents(v, AtListed(k, i, OUTPUT, io)) == [e] && Spec.Enabled(origin, v, e)
  }

  /** Input is the status of the response. */
  ghost predicate AwaitsStatus(origin: Spec.Origin, v: Spec.State, k: Key, i: nat)
    requires Spec.Listed(v, k, i)
  {
    forall io: Io :: io.received.Data? ==> IsStatus(origin, v, k, i, io)
  }

  ghost predicate IsStatus(origin: Spec.Origin, v: Spec.State, k: Key, i: nat, io: Io)
    requires Spec.Listed(v, k, i) && io.received.Data?
  {
    var chunk := io.received.chunk;
    var e := Spec.Status(k, i, chunk, io.reach, io.again);
    && ReportEvents(v, AtListed(k, i, INPUT, io)) == [e]
    && (Spec.Enabled(origin, v, e)
        <==> Spec.Receives(origin(k), Spec.Group(v, k)[i], chunk) && Spec.StatusReadable(chunk)
             && Spec.StatusSafe(v, k, i, chunk, io.reach, io.again))
  }

  /** Input is the next chunk of the response, or its end. */
  ghost predicate AwaitsResponse(origin: Spec.Origin, v: Spec.State, k: Key, i: nat)
    requires Spec.Listed(v, k, i)
  {
    forall io: Io ::
      var c, report := Spec.Group(v, k)[i], AtListed(k, i, INPUT, io);
      match io.received
      case Data(chunk) =>
        && ReportEvents(v, report) == [Spec.Chunk(k, i, chunk)]
        && (Spec.Enabled(origin, v, Spec.Chunk(k, i, chunk)) <==> Spec.Receives(origin(k), c, chunk))
      case ZeroLength =>
        && ReportEvents(v, report) == [Spec.Eof(k, i)]
        && (Spec.Enabled(origin, v, Spec.Eof(k, i)) <==> c.server == Some(|origin(k)|))
      case Failed => ReportEvents(v, report) == [Spec.Drop(k, i)]
  }

  // ----- what is polled -----

  /** A listed client's own socket is polled for room, and the one to its origin for sending or for what is received,
      exactly if that is what it waits for. */
  lemma PolledIff(origin: Spec.Origin, v: Spec.State, k: Key, i: nat)
    requires Spec.Listed(v, k, i)
    ensures var state := Spec.Group(v, k)[i].phase;
            && (Polls(state, ToClient, false) <==> AwaitsRoom(origin, v, k, i))
            && (Polls(state, ToServer, false) <==> AwaitsSending(origin, v, k, i))
            && (Polls(state, ToServer, true) <==> AwaitsStatus(origin, v, k, i) || AwaitsResponse(origin, v, k, i))
  {
    RoomIff(origin, v, k, i);
    SendingIff(origin, v, k, i);
    StatusIff(origin, v, k, i);
    ResponseIff(origin, v, k, i);
  }

  const ANY_IO := Io(None, true, true, Data("x"), 0, 0, 0)

  lemma RoomIff(origin: Spec.Origin, v: Spec.State, k: Key, i: nat)
    requires Spec.Listed(v, k, i)
    ensures AwaitsRoom(origin, v, k, i)
            <==> Spec.Group(v, k)[i].phase in {Spec.WaitingResponse, Spec.GotResponse, Spec.GettingFromAnother}
  {
    assert AwaitsRoom(origin, v, k, i) ==> ReportEvents(v, AtListed(k, i, OUTPUT, ANY_IO)) == [Spec.Writable(k, i, 0)];
  }

  lemma SendingIff(origin: Spec.Origin, v: Spec.State, k: Key, i: nat)
    requires Spec.Listed(v, k, i)
    ensures AwaitsSending(origin, v, k, i) <==> Spec.Group(v, k)[i].phase == Spec.SendingRequest
  {
    var report := AtListed(k, i, OUTPUT, ANY_IO);
    assert AwaitsSending(origin, v, k, i) ==> ReportEvents(v, report) == [Spec.RequestSent(k, i)];
  }

  lemma StatusIff(origin: Spec.Origin, v: Spec.State, k: Key, i: nat)
    requires Spec.Listed(v, k, i)
    ensures AwaitsStatus(origin, v, k, i) <==> Spec.Group(v, k)[i].phase == Spec.WaitingStatus
  {
    hide Spec.StatusSafe, Spec.Receives, Spec.StatusReadable;
    var events := ReportEvents(v, AtListed(k, i, INPUT, ANY_IO));
    if Spec.Group(v, k)[i].phase == Spec.WaitingStatus {
      assert forall io: Io :: io.received.Data? ==> IsStatus(origin, v, k, i, io);
    } else {
      assert events != [] ==> !events[0].Status?;
      assert !IsStatus(origin, v, k, i, ANY_IO);
    }
  }

  lemma ResponseIff(origin: Spec.Origin, v: Spec.State, k: Key, i: nat)
    requires Spec.Listed(v, k, i)
    ensures AwaitsResponse(origin, v, k, i) <==> Spec.Group(v, k)[i].phase == Spec.WaitingResponse
  {
    hide Spec.StatusSafe, Spec.Receives, Spec.StatusReadable;
    assert AwaitsResponse(origin, v, k, i) ==>
             ReportEvents(v, AtListed(k, i, INPUT, ANY_IO)) == [Spec.Chunk(k, i, "x")];
  }

  /** What of a listed client is polled, through what is reported. */
  ghost predicate PolledAsAwaited(origin: Spec.Origin, v: Spec.State, c: Client, i: nat, res: seq<Pollfd>)
    reads c
  {
    var k := c.requestStr;
    && Spec.Listed(v, k, i) && Pollfd(c, ToClient, true) !in res
    && (Pollfd(c, ToClient, false) in res <==> AwaitsRoom(origin, v, k, i))
    && (Pollfd(c, ToServer, false) in res <==> AwaitsSending(origin, v, k, i))
    && (Pollfd(c, ToServer, true) in res <==> AwaitsStatus(origin, v, k, i) || AwaitsResponse(origin, v, k, i))
  }

  /** What is polled of the clients that are there: the sockets on which they wait for something, and no others. */
  method PollClients(s: Server, clients: seq<Client>, ghost origin: Spec.Origin) returns (res: seq<Pollfd>)
    requires s.Valid() && SharingInvariant.Inv(origin, s.View()) && forall c :: c in clients ==> c in s.clients
    ensures forall p :: p in res ==> p.client in clients
    ensures forall c :: c in clients && c in s.waiting ==>
              && AwaitsRequest(origin, s.View())
              && forall p :: p in res && p.client == c <==> p == Pollfd(c, ToClient, true)
    ensures forall c, i :: c in clients && c !in s.waiting && i >= 0 && s.At(c, i) ==>
              PolledAsAwaited(origin, s.View(), c, i, res)
  {
    hide Server.Valid, Server.View, Server.At, SharingInvariant.Inv, PolledAsAwaited, AwaitsRequest;
    forall c | c in clients
      ensures PollsServer(c.state) ==> c.server.Some?
    {
      PollingAllowed(s, c, origin);
    }
    res := GetPollfds(clients);
    forall c | c in clients && c in s.waiting
      ensures c.state == Spec.WaitingForRequest && AwaitsRequest(origin, s.View())
    {
      NewcomerPolled(s, c, origin);
    }
    forall c, i | c in clients && c !in s.waiting && i >= 0 && s.At(c, i)
      ensures PolledAsAwaited(origin, s.View(), c, i, res)
    {
      ListedPolled(s, c, i, origin, res);
    }
  }

  lemma NewcomerPolled(s: Server, c: Client, origin: Spec.Origin)
    requires s.Valid() && c in s.waiting
    ensures c.state == Spec.WaitingForRequest && AwaitsRequest(origin, s.View())
  {
    s.Newcomer(c);
    hide Server.Valid;
    NewcomerAwaits(origin, s.View());
  }

  lemma ListedPolled(s: Server, c: Client, i: nat, origin: Spec.Origin, res: seq<Pollfd>)
    requires s.Valid() && SharingInvariant.Inv(origin, s.View()) && c in s.clients && c !in s.waiting && s.At(c, i)
    requires forall socket, input :: Pollfd(c, socket, input) in res <==> Polls(c.state, socket, input)
    ensures PolledAsAwaited(origin, s.View(), c, i, res)
  {
    ListedPhase(s, c, origin);
    s.ListedAt(c, i);
    hide Server.Valid, Server.View, Server.At, SharingInvariant.Inv, AwaitsRoom, AwaitsSending, AwaitsStatus,
      AwaitsResponse;
    PolledIff(origin, s.View(), c.requestStr, i);
  }

  lemma NewcomerAwaits(origin: Spec.Origin, v: Spec.State)
    requires v.newcomers > 0
    ensures AwaitsRequest(origin, v)
  {
  }

  // ----- what lets a client go -----

  /** An error on either socket lets any listed client go; so does a lone hang-up while it may be sent to, and any
      hang-up or failure while its request is to be sent. */
  lemma FailuresDrop(v: Spec.State, k: Key, i: nat, r: Revents, io: Io)
    requires Spec.Listed(v, k, i)
    requires var state := Spec.Group(v, k)[i].phase;
             || r.error
             || (r == Revents(false, false, false, true)
                 && state in {Spec.WaitingResponse, Spec.GotResponse, Spec.GettingFromAnother})
             || ((r.hangup || !io.sends) && state == Spec.SendingRequest)
    ensures ReportEvents(v, AtListed(k, i, r, io)) == [Spec.Drop(k, i)]
  {
  }

  /** And a departure takes exactly one client out of the list. */
  lemma DropLeaves(origin: Spec.Origin, v: Spec.State, k: Key, i: nat)
    requires Spec.Listed(v, k, i)
    ensures Spec.Enabled(origin, v, Spec.Drop(k, i))
    ensures |Spec.Group(Spec.Next(origin, v, Spec.Drop(k, i)), k)| == |Spec.Group(v, k)| - 1
  {
    hide Spec.FirstReader, CacheSpec.DisuseEntry;
  }

  // ----- the other reports -----

  /** The server's own socket: input is a client, if accepting succeeds; an error ends the server. */
  lemma ListenerReports(origin: Spec.Origin, v: Spec.State, r: Revents, accepts: bool)
    ensures EndsServer(AtServer(r, accepts)) <==> r.error
    ensures !r.error && r.input && accepts ==>
              ReportEvents(v, AtServer(r, accepts)) == [Spec.Accept] && Spec.Enabled(origin, v, Spec.Accept)
    ensures r.error || !r.input || !accepts ==> ReportEvents(v, AtServer(r, accepts)) == []
  {
  }

  /** A newcomer with an error, or with a request that cannot be read, is let go. */
  lemma NewcomerFails(origin: Spec.Origin, v: Spec.State, r: Revents, io: Io)
    requires v.newcomers > 0 && (r.error || io.request == None)
    ensures ReportEvents(v, AtNewcomer(r, io)) == [Spec.BadRequest] && Spec.Enabled(origin, v, Spec.BadRequest)
    ensures Spec.Next(origin, v, Spec.BadRequest).newcomers == v.newcomers - 1
  {
    hide CacheSpec.DisuseEntry;
  }

  /** Input and output together, while the response is awaited: what is received comes first, and if that succeeds the
      client is sent to in the same call. */
  lemma BothReported(v: Spec.State, k: Key, i: nat, io: Io)
    requires Spec.Listed(v, k, i) && Spec.Group(v, k)[i].phase == Spec.WaitingResponse
    ensures ReportEvents(v, AtListed(k, i, Revents(false, true, true, false), io))
            == match io.received
               case Data(chunk) => [Spec.Chunk(k, i, chunk), Spec.Writable(k, i, io.room)]
               case ZeroLength => [Spec.Eof(k, i), Spec.Writable(k, i, io.room)]
               case Failed => [Spec.Drop(k, i)]
  {
  }

  /** A status that does not come, and reports about somebody who waits for another client. */
  lemma NothingReported(v: Spec.State, k: Key, i: nat, r: Revents, io: Io)
    requires Spec.Listed(v, k, i) && !r.error
    ensures Spec.Group(v, k)[i].phase == Spec.WaitingStatus && !io.received.Data? ==>
              ReportEvents(v, AtListed(k, i, r, io)) == [Spec.NoStatus(k, i, io.again)]
    ensures Spec.Group(v, k)[i].phase == Spec.WaitingForAnother ==> ReportEvents(v, AtListed(k, i, r, io)) == []
  {
  }

  /** Whatever is reported about somebody who is there is possible, as long as what is received is what the origin sends
      next, and a status is a safe one. */
  lemma PossibleIff(origin: Spec.Origin, v: Spec.State, k: Key, i: nat, r: Revents, io: Io)
    requires Spec.Listed(v, k, i)
    ensures var c := Spec.Group(v, k)[i];
            Possible(origin, v, AtListed(k, i, r, io))
            <==> || r.error || io.received.Failed?
                 || (c.phase != Spec.WaitingStatus && (c.phase != Spec.WaitingResponse || !r.input))
                 || (c.phase == Spec.WaitingStatus
                     && (io.received.Data? ==>
                           && Spec.Receives(origin(k), c, io.received.chunk)
                           && Spec.StatusReadable(io.received.chunk)
                           && Spec.StatusSafe(v, k, i, io.received.chunk, io.reach, io.again)))
                 || (c.phase == Spec.WaitingResponse
                     && (if io.received.Data? then Spec.Receives(origin(k), c, io.received.chunk)
                         else c.server == Some(|origin(k)|)))
  {
    hide Spec.Receives, Spec.StatusReadable, Spec.StatusSafe;
    var events := ReportEvents(v, AtListed(k, i, r, io));
    assert Possible(origin, v, AtListed(k, i, r, io)) <==> events == [] || Spec.Enabled(origin, v, events[0]);
  }

  lemma OthersPossible(origin: Spec.Origin, v: Spec.State, r: Revents, accepts: bool, io: Io)
    ensures Possible(origin, v, AtServer(r, accepts))
    ensures Possible(origin, v, AtNewcomer(r, io)) <==>
              v.newcomers > 0 && (r.error || io.request == None || io.request.value != "")
  {
  }
}
