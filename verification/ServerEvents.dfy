/** The event loop over the objects of the server: what is polled for, and how what poll reports is handled.
    Whatever is reported, the objects end in the state that the protocol gives, and its invariant holds again. */
module ServerEvents {
  import opened Wrappers
  import opened Server
  import Spec = Sharing
  import SharingInvariant
  import SharingSteps
  import SharingTheorems
  import CacheSpec

  // ----- what is reported, and the events it amounts to -----

  datatype Revents = Revents(error: bool, input: bool, output: bool, hangup: bool) {
    predicate OnlyHangup() {
      hangup && !error && !input && !output
    }
  }

  /** What the sockets give: the request that is read, whether its origin can be reached, whether the request can be
      sent, what is received from the origin, how many bytes the client takes, and which of those who wait can be
      connected: the ones before place `reach`, and those before `again` when the exception handler tries. */
  datatype Io = Io(request: Option<Key>, connected: bool, sends: bool, received: Received, room: nat,
                   reach: nat, again: nat)

  ghost function OutEvents(k: Key, i: nat, r: Revents, io: Io): seq<Spec.Event> {
    if r.OnlyHangup() then [Spec.Drop(k, i)]
    else if r.output then [Spec.Writable(k, i, io.room)]
    else []
  }

  ghost function InEvent(k: Key, i: nat, io: Io): Spec.Event {
    match io.received
    case Data(chunk) => Spec.Chunk(k, i, chunk)
    case ZeroLength => Spec.Eof(k, i)
    case Failed => Spec.Drop(k, i)
  }

  ghost function StatusEvent(k: Key, i: nat, io: Io): Spec.Event {
    if io.received.Data? then Spec.Status(k, i, io.received.chunk, io.reach, io.again)
    else Spec.NoStatus(k, i, io.again)
  }

  ghost function ListedEvents(state: Spec.Phase, k: Key, i: nat, r: Revents, io: Io): seq<Spec.Event> {
    if r.error then [Spec.Drop(k, i)]
    else
      match state
      case WaitingForRequest => []
      case WaitingForAnother => []
      case SendingRequest => [if r.hangup || !io.sends then Spec.Drop(k, i) else Spec.RequestSent(k, i)]
      case WaitingStatus => [StatusEvent(k, i, io)]
      case WaitingResponse =>
        if !r.input then OutEvents(k, i, r, io)
        else if io.received.Failed? then [InEvent(k, i, io)]
        else [InEvent(k, i, io)] + OutEvents(k, i, r, io)
      case GotResponse => OutEvents(k, i, r, io)
      case GettingFromAnother => OutEvents(k, i, r, io)
  }

  ghost function NewcomerEvent(r: Revents, io: Io): Spec.Event {
    if r.error || io.request.None? then Spec.BadRequest else Spec.Request(io.request.value, io.connected)
  }

  // ----- several events -----

  ghost predicate AllEnabled(origin: Spec.Origin, s: Spec.State, events: seq<Spec.Event>)
    decreases |events|
  {
    events == []
    || (Spec.Enabled(origin, s, events[0]) && AllEnabled(origin, Spec.Next(origin, s, events[0]), events[1..]))
  }

  ghost function After(origin: Spec.Origin, s: Spec.State, events: seq<Spec.Event>): Spec.State
    requires AllEnabled(origin, s, events)
    decreases |events|
  {
    if events == [] then s else After(origin, Spec.Next(origin, s, events[0]), events[1..])
  }

  lemma AfterNone(origin: Spec.Origin, s: Spec.State)
    ensures AllEnabled(origin, s, []) && After(origin, s, []) == s
  {
  }

  lemma AfterOne(origin: Spec.Origin, s: Spec.State, e: Spec.Event)
    requires Spec.Enabled(origin, s, e)
    ensures AllEnabled(origin, s, [e]) && After(origin, s, [e]) == Spec.Next(origin, s, e)
  {
    hide Spec.Enabled, Spec.Next;
    var t := Spec.Next(origin, s, e);
    assert [e][1..] == [] && AllEnabled(origin, t, []) && After(origin, t, []) == t;
  }

  lemma {:induction false} AfterInv(origin: Spec.Origin, s: Spec.State, events: seq<Spec.Event>)
    requires SharingInvariant.Inv(origin, s) && AllEnabled(origin, s, events)
    ensures SharingInvariant.Inv(origin, After(origin, s, events))
    decreases |events|
  {
    if events != [] {
      hide SharingInvariant.Inv, Spec.Enabled, Spec.Next;
      SharingSteps.NextKeeps(origin, s, events[0]);
      AfterInv(origin, Spec.Next(origin, s, events[0]), events[1..]);
    }
  }

  /** A client that has received something is still there, and may be sent to. */
  lemma StillSends(origin: Spec.Origin, s: Spec.State, k: Key, i: nat, io: Io)
    requires SharingInvariant.Inv(origin, s) && Spec.Listed(s, k, i)
             && Spec.Group(s, k)[i].phase == Spec.WaitingResponse
    requires !io.received.Failed? && Spec.Enabled(origin, s, InEvent(k, i, io))
    ensures var t := Spec.Next(origin, s, InEvent(k, i, io));
            Spec.Listed(t, k, i) && Spec.Group(t, k)[i].phase in {Spec.WaitingResponse, Spec.GotResponse}
    ensures !Server.LeavesOn(s, k, i, io.received)
  {
    if io.received.Data? {
      StillReceives(origin, s, k, i, io.received.chunk);
    }
  }

  lemma StillReceives(origin: Spec.Origin, s: Spec.State, k: Key, i: nat, chunk: Bytes)
    requires SharingInvariant.Inv(origin, s) && Spec.Listed(s, k, i)
             && Spec.Group(s, k)[i].phase == Spec.WaitingResponse
    requires Spec.Receives(origin(k), Spec.Group(s, k)[i], chunk)
    ensures var t := Spec.ReadChunk(s, k, i, chunk);
            Spec.Listed(t, k, i) && Spec.Group(t, k)[i].phase == Spec.WaitingResponse
    ensures !Server.LeavesOn(s, k, i, Data(chunk))
  {
    assert SharingInvariant.KeyInv(origin, s, k);
    var g := Spec.Group(s, k);
    if CacheSpec.Contains(s.cache, k) {
      SharingSteps.WriterFacts(origin(k), g, i, CacheSpec.Lookup(s.cache, k).value);
      var advanced := Spec.SetGroup(s, k, g[i := Spec.Advanced(g[i], |chunk|)]);
      SharingSteps.WriteToCacheEffect(advanced, k, i, chunk);
      hide CacheSpec.Lookup, CacheSpec.Write, Spec.WriteToCache, SharingInvariant.Inv;
    } else {
      SharingSteps.UncachedChunk(origin(k), g, i, chunk);
      hide CacheSpec.Lookup, SharingInvariant.GroupInv, SharingInvariant.Inv, Spec.WriteToCache;
    }
  }

  // ----- handling -----

  /** The events that a report about the server's own socket amounts to. */
  ghost function AcceptEvents(r: Revents, accepts: bool): seq<Spec.Event> {
    if !r.error && r.input && accepts then [Spec.Accept] else []
  }

  /** `accepts` stands for the absence of an exception while a connection is accepted. False stands for the exception
      that ends the server. */
  method HandleServerSocketEvents(s: Server, r: Revents, accepts: bool, ghost origin: Spec.Origin) returns (ok: bool)
    requires s.Valid() && SharingInvariant.Inv(origin, s.View())
    modifies s
    ensures s.Valid() && ok == !r.error
    ensures fresh(s.clients - old(s.clients))
    ensures AllEnabled(origin, old(s.View()), AcceptEvents(r, accepts))
    ensures s.View() == After(origin, old(s.View()), AcceptEvents(r, accepts))
    ensures SharingInvariant.Inv(origin, s.View())
  {
    AfterNone(origin, s.View());
    AfterOne(origin, s.View(), Spec.Accept);
    AfterInv(origin, s.View(), AcceptEvents(r, accepts));
    hide Server.Valid, Server.View, Client.View, SharingInvariant.Inv;
    if r.error {
      return false;
    }
    if r.input && accepts {
      var _ := s.AcceptClient();
    }
    ok := true;
  }

  /** A client that has not sent its request. */
  method HandleNewcomer(s: Server, client: Client, r: Revents, io: Io, ghost origin: Spec.Origin)
    requires s.Valid() && client in s.waiting
    requires Spec.Enabled(origin, s.View(), NewcomerEvent(r, io))
    modifies s, s.cache, s.cache.Repr, client
    ensures s.Valid() && s.View() == Spec.Next(origin, old(s.View()), NewcomerEvent(r, io))
    ensures s.clients <= old(s.clients) && fresh(s.cache.Repr - old(s.cache.Repr))
  {
    s.Newcomer(client);
    hide Server.Valid, Server.View, Client.View, Spec.ReadRequest, Spec.DiscardFresh;
    if r.error {
      s.DiscardNewcomer(client, "");
    } else {
      s.ReadRequestFromClient(client, io.request, io.connected);
    }
  }

  /** Sends to a client, or lets it go if all that is reported is that it hung up. */
  method HandleOutput(s: Server, client: Client, r: Revents, io: Io, ghost i: nat, ghost origin: Spec.Origin)
    requires s.Valid() && SharingInvariant.Inv(origin, s.View()) && s.At(client, i)
    requires client.state == Spec.WaitingResponse || client.state == Spec.GotResponse
             || client.state == Spec.GettingFromAnother
    modifies s, s.cache, s.cache.Repr, s.clients
    ensures s.Valid()
    ensures s.clients <= old(s.clients) && fresh(s.cache.Repr - old(s.cache.Repr))
    ensures AllEnabled(origin, old(s.View()), OutEvents(old(client.requestStr), i, r, io))
    ensures s.View() == After(origin, old(s.View()), OutEvents(old(client.requestStr), i, r, io))
  {
    OutEnabled(s, client, r, io, i, origin);
    s.ListedAt(client, i);
    hide Server.Valid, Server.View, Server.At, Client.View, SharingInvariant.Inv, Spec.Send, Spec.Discard, AllEnabled,
      After;
    if r.OnlyHangup() {
      s.DiscardClient(client, i);
    } else if r.output {
      s.SendResponseToClient(client, io.room, i);
    }
  }

  lemma OutEnabled(s: Server, client: Client, r: Revents, io: Io, i: nat, origin: Spec.Origin)
    requires s.Valid() && s.At(client, i)
    requires client.state == Spec.WaitingResponse || client.state == Spec.GotResponse
             || client.state == Spec.GettingFromAnother
    ensures var k, v := client.requestStr, s.View();
            var events := OutEvents(k, i, r, io);
            && AllEnabled(origin, v, events) && Spec.Listed(v, k, i)
            && After(origin, v, events) == if r.OnlyHangup() then Spec.Discard(v, k, i)
                                           else if r.output then Spec.Send(v, k, i, io.room)
                                           else v
  {
    hide Server.Valid, Server.View, Server.At, AllEnabled, After, Spec.Discard, Spec.Send;
    var k, v := client.requestStr, s.View();
    s.ListedAt(client, i);
    AfterNone(origin, v);
    AfterOne(origin, v, Spec.Drop(k, i));
    AfterOne(origin, v, Spec.Writable(k, i, io.room));
  }

  /** Receives the next part of the response. */
  method HandleInput(s: Server, client: Client, io: Io, ghost i: nat, ghost origin: Spec.Origin)
    requires s.Valid() && SharingInvariant.Inv(origin, s.View()) && s.At(client, i)
             && client.state == Spec.WaitingResponse
    requires Spec.Enabled(origin, s.View(), InEvent(client.requestStr, i, io))
    modifies s, s.cache, s.cache.Repr, s.clients
    ensures s.Valid() && SharingInvariant.Inv(origin, s.View())
    ensures s.clients <= old(s.clients) && fresh(s.cache.Repr - old(s.cache.Repr))
    ensures s.View() == Spec.Next(origin, old(s.View()), InEvent(old(client.requestStr), i, io))
    ensures !io.received.Failed? ==>
              && s.Stays(client, i, old(client.requestStr)) && s.clients == old(s.clients)
              && s.cache.Repr == old(s.cache.Repr)
              && (client.state == Spec.WaitingResponse || client.state == Spec.GotResponse)
  {
    hide *;
    ghost var k := client.requestStr;
    s.ListedAt(client, i);
    InputKeeps(s, client, io, i, origin);
    InNext(origin, s.View(), k, i, io);
    s.ReadResponseFromServer(client, io.received, i);
    if io.received != Failed {
      StaysAt(s, client, i, k);
    }
  }

  lemma InNext(origin: Spec.Origin, s: Spec.State, k: Key, i: nat, io: Io)
    requires Spec.Enabled(origin, s, InEvent(k, i, io))
    ensures Spec.Next(origin, s, InEvent(k, i, io))
            == match io.received
               case Data(chunk) => Spec.ReadChunk(s, k, i, chunk)
               case ZeroLength => Spec.ReadEof(s, k, i)
               case Failed => Spec.Discard(s, k, i)
  {
    hide Spec.ReadChunk, Spec.ReadEof, Spec.Discard;
  }

  lemma InputKeeps(s: Server, client: Client, io: Io, i: nat, origin: Spec.Origin)
    requires s.Valid() && SharingInvariant.Inv(origin, s.View()) && s.At(client, i)
             && client.state == Spec.WaitingResponse
    requires Spec.Enabled(origin, s.View(), InEvent(client.requestStr, i, io))
    ensures var k, v := client.requestStr, s.View();
            var t := Spec.Next(origin, v, InEvent(k, i, io));
            && SharingInvariant.Inv(origin, t) && Spec.Listed(v, k, i)
            && (!io.received.Failed? ==>
                  && !Server.LeavesOn(v, k, i, io.received)
                  && Spec.Listed(t, k, i) && Spec.Group(t, k)[i].phase in {Spec.WaitingResponse, Spec.GotResponse})
  {
    s.ListedAt(client, i);
    SharingSteps.NextKeeps(origin, s.View(), InEvent(client.requestStr, i, io));
    hide SharingInvariant.Inv, Spec.Next, Spec.Enabled, InEvent;
    if !io.received.Failed? {
      StillSends(origin, s.View(), client.requestStr, i, io);
    }
  }

  lemma StaysAt(s: Server, client: Client, i: nat, k: Key)
    requires s.Valid() && s.Stays(client, i, k)
    ensures Spec.Listed(s.View(), k, i) && client.state == Spec.Group(s.View(), k)[i].phase && s.At(client, i)
  {
    s.ListedAt(client, i);
  }

  /** A client that waits for its response: what is received first, then what can be sent. */
  method HandleResponse(s: Server, client: Client, r: Revents, io: Io, ghost i: nat, ghost origin: Spec.Origin)
    requires s.Valid() && SharingInvariant.Inv(origin, s.View()) && s.At(client, i)
             && client.state == Spec.WaitingResponse
    requires !r.error && r.input
    requires Spec.Enabled(origin, s.View(), InEvent(client.requestStr, i, io))
    modifies s, s.cache, s.cache.Repr, s.clients
    ensures s.Valid()
    ensures s.clients <= old(s.clients) && fresh(s.cache.Repr - old(s.cache.Repr))
    ensures var events := ListedEvents(Spec.WaitingResponse, old(client.requestStr), i, r, io);
            AllEnabled(origin, old(s.View()), events) && s.View() == After(origin, old(s.View()), events)
  {
    ghost var k := client.requestStr;
    ghost var v := s.View();
    hide Server.Valid, Server.View, Server.At, Client.View, SharingInvariant.Inv, Spec.Enabled, Spec.Next, AllEnabled,
      After, OutEvents;
    HandleInput(s, client, io, i, origin);
    ghost var t := s.View();
    if io.received == Failed {
      AfterOne(origin, v, InEvent(k, i, io));
      return;
    }
    HandleOutput(s, client, r, io, i, origin);
    AfterMore(origin, v, InEvent(k, i, io), OutEvents(k, i, r, io));
  }

  lemma AfterMore(origin: Spec.Origin, s: Spec.State, d: Spec.Event, events: seq<Spec.Event>)
    requires Spec.Enabled(origin, s, d) && AllEnabled(origin, Spec.Next(origin, s, d), events)
    ensures AllEnabled(origin, s, [d] + events)
    ensures After(origin, s, [d] + events) == After(origin, Spec.Next(origin, s, d), events)
  {
    hide Spec.Enabled, Spec.Next;
    assert ([d] + events)[1..] == events;
  }

  method HandleSending(s: Server, client: Client, r: Revents, io: Io, ghost i: nat, ghost origin: Spec.Origin)
    requires s.Valid() && s.At(client, i) && client.state == Spec.SendingRequest && !r.error
    modifies s, s.cache, s.cache.Repr, s.clients
    ensures s.Valid()
    ensures s.clients <= old(s.clients) && fresh(s.cache.Repr - old(s.cache.Repr))
    ensures var events := ListedEvents(Spec.SendingRequest, old(client.requestStr), i, r, io);
            AllEnabled(origin, old(s.View()), events) && s.View() == After(origin, old(s.View()), events)
  {
    SendingShape(s, client, r, io, i, origin);
    hide *;
    s.ListedAt(client, i);
    if r.hangup {
      s.DiscardClient(client, i);
    } else {
      s.SendRequestToServer(client, io.sends, i);
    }
  }

  lemma SendingShape(s: Server, client: Client, r: Revents, io: Io, i: nat, origin: Spec.Origin)
    requires s.Valid() && s.At(client, i) && client.state == Spec.SendingRequest && !r.error
    ensures var k, v := client.requestStr, s.View();
            var events := ListedEvents(Spec.SendingRequest, k, i, r, io);
            && Spec.Listed(v, k, i) && AllEnabled(origin, v, events)
            && After(origin, v, events) == if r.hangup || !io.sends then Spec.Discard(v, k, i)
                                           else Spec.SendRequest(v, k, i)
  {
    var k, v := client.requestStr, s.View();
    s.ListedAt(client, i);
    hide Spec.Discard, Spec.SendRequest;
    AfterOne(origin, v, if r.hangup || !io.sends then Spec.Drop(k, i) else Spec.RequestSent(k, i));
  }

  method HandleStatus(s: Server, client: Client, r: Revents, io: Io, ghost i: nat, ghost origin: Spec.Origin)
    requires s.Valid() && s.At(client, i) && client.state == Spec.WaitingStatus && !r.error
    requires Spec.Enabled(origin, s.View(), StatusEvent(client.requestStr, i, io))
    modifies s, s.cache, s.cache.Repr, s.clients
    ensures s.Valid()
    ensures s.clients <= old(s.clients) && fresh(s.cache.Repr - old(s.cache.Repr))
    ensures var events := ListedEvents(Spec.WaitingStatus, old(client.requestStr), i, r, io);
            AllEnabled(origin, old(s.View()), events) && s.View() == After(origin, old(s.View()), events)
  {
    StatusShape(s, client, r, io, i, origin);
    hide *;
    s.ReadResponseStatusCodeFromServer(client, io.received, io.reach, io.again, i);
  }

  lemma StatusShape(s: Server, client: Client, r: Revents, io: Io, i: nat, origin: Spec.Origin)
    requires s.Valid() && s.At(client, i) && client.state == Spec.WaitingStatus && !r.error
    requires Spec.Enabled(origin, s.View(), StatusEvent(client.requestStr, i, io))
    ensures var k, v := client.requestStr, s.View();
            var events := ListedEvents(Spec.WaitingStatus, k, i, r, io);
            && Spec.Listed(v, k, i) && AllEnabled(origin, v, events)
            && (io.received.Data? ==> Spec.StatusReadable(io.received.chunk))
            && After(origin, v, events)
               == if io.received.Data? then Spec.ReadStatus(v, k, i, io.received.chunk, io.reach, io.again)
                  else Spec.StatusFailing(v, k, i, io.again)
  {
    hide Server.Valid, Server.View, Server.At, AllEnabled, After, Spec.StatusReadable, Spec.Receives, Spec.StatusSafe,
      Spec.ReadStatus, Spec.StatusFailing;
    var k, v := client.requestStr, s.View();
    s.ListedAt(client, i);
    AfterOne(origin, v, StatusEvent(k, i, io));
  }

  method HandleError(s: Server, client: Client, r: Revents, io: Io, ghost i: nat, ghost origin: Spec.Origin)
    requires s.Valid() && s.At(client, i) && r.error
    modifies s, s.cache, s.cache.Repr, s.clients
    ensures s.Valid()
    ensures s.clients <= old(s.clients) && fresh(s.cache.Repr - old(s.cache.Repr))
    ensures var events := ListedEvents(old(client.state), old(client.requestStr), i, r, io);
            AllEnabled(origin, old(s.View()), events) && s.View() == After(origin, old(s.View()), events)
  {
    hide Server.Valid, Server.View, Server.At, AllEnabled, After, Spec.Discard;
    s.ListedAt(client, i);
    AfterOne(origin, s.View(), Spec.Drop(client.requestStr, i));
    s.DiscardClient(client, i);
  }

  /** A client that has sent its request. */
  method HandleListed(s: Server, client: Client, r: Revents, io: Io, ghost i: nat, ghost origin: Spec.Origin)
    requires s.Valid() && SharingInvariant.Inv(origin, s.View()) && s.At(client, i)
    requires var events := ListedEvents(client.state, client.requestStr, i, r, io);
             events == [] || Spec.Enabled(origin, s.View(), events[0])
    modifies s, s.cache, s.cache.Repr, s.clients
    ensures s.Valid()
    ensures s.clients <= old(s.clients) && fresh(s.cache.Repr - old(s.cache.Repr))
    ensures var events := old(ListedEvents(client.state, client.requestStr, i, r, io));
            AllEnabled(origin, old(s.View()), events) && s.View() == After(origin, old(s.View()), events)
  {
    hide Server.Valid, Server.View, Server.At, SharingInvariant.Inv, AllEnabled, After, OutEvents, Spec.Enabled;
    if r.error {
      HandleError(s, client, r, io, i, origin);
    } else if client.state == Spec.SendingRequest {
      HandleSending(s, client, r, io, i, origin);
    } else if client.state == Spec.WaitingStatus {
      HandleStatus(s, client, r, io, i, origin);
    } else if client.state == Spec.WaitingResponse && r.input {
      HandleResponse(s, client, r, io, i, origin);
    } else if client.state == Spec.WaitingResponse || client.state == Spec.GotResponse
              || client.state == Spec.GettingFromAnother {
      HandleOutput(s, client, r, io, i, origin);
    } else {
      AfterNone(origin, s.View());
    }
  }

  /** The events that a report about `client` amounts to. */
  ghost function EventsOf(s: Server, client: Client, i: nat, r: Revents, io: Io): seq<Spec.Event>
    reads s, client
  {
    if client in s.waiting then [NewcomerEvent(r, io)]
    else ListedEvents(client.state, client.requestStr, i, r, io)
  }

  /** What poll reports about one client, in any state in which the invariant holds. What is received must be what the
      origin sends, and a status one that leaves the server in the protocol; the sending that may follow is always
      possible. */
  method HandleClientSocketEvents(s: Server, client: Client, r: Revents, io: Io, ghost i: nat,
                                  ghost origin: Spec.Origin)
    requires s.Valid() && SharingInvariant.Inv(origin, s.View()) && client in s.clients
    requires client !in s.waiting ==> s.At(client, i)
    requires EventsOf(s, client, i, r, io) == [] || Spec.Enabled(origin, s.View(), EventsOf(s, client, i, r, io)[0])
    modifies s, s.cache, s.cache.Repr, s.clients
    ensures s.Valid() && AllEnabled(origin, old(s.View()), old(EventsOf(s, client, i, r, io)))
    ensures s.clients <= old(s.clients) && fresh(s.cache.Repr - old(s.cache.Repr))
    ensures s.View() == After(origin, old(s.View()), old(EventsOf(s, client, i, r, io)))
    ensures SharingInvariant.Inv(origin, s.View())
  {
    ghost var v := s.View();
    ghost var events := EventsOf(s, client, i, r, io);
    var listed := IsListed(s, client, origin);
    hide Server.Valid, Server.View, Server.At, Client.View, SharingInvariant.Inv, Spec.Enabled, Spec.Next, AllEnabled,
      After;
    if listed {
      HandleListed(s, client, r, io, i, origin);
    } else {
      AfterOne(origin, v, NewcomerEvent(r, io));
      HandleNewcomer(s, client, r, io, origin);
    }
    AfterInv(origin, v, events);
  }

  /** A client waits for its request exactly while it is in no list. */
  method IsListed(s: Server, client: Client, ghost origin: Spec.Origin) returns (listed: bool)
    requires s.Valid() && SharingInvariant.Inv(origin, s.View()) && client in s.clients
    ensures listed <==> client !in s.waiting
  {
    listed := client.state != Spec.WaitingForRequest;
    if client !in s.waiting {
      ListedPhase(s, client, origin);
    }
  }

  lemma ListedPhase(s: Server, client: Client, origin: Spec.Origin)
    requires s.Valid() && SharingInvariant.Inv(origin, s.View()) && client in s.clients && client !in s.waiting
    ensures client.state != Spec.WaitingForRequest
  {
    var k := client.requestStr;
    var i :| 0 <= i < |s.requestClients[k]| && s.requestClients[k][i] == client;
    assert Spec.Group(s.View(), k)[i] == client.View();
    assert SharingInvariant.KeyInv(origin, s.View(), k);
    ListedIsAsked(origin(k), Spec.Group(s.View(), k), CacheSpec.Lookup(s.View().cache, k), i);
  }

  lemma ListedIsAsked(resp: Bytes, g: seq<Spec.Client>, e: Option<CacheSpec.Entry>, i: nat)
    requires SharingInvariant.GroupInv(resp, g, e) && i < |g|
    ensures g[i].phase != Spec.WaitingForRequest
  {
    if e.Some? {
      assert SharingInvariant.Reader(g[i], e.value);
    }
  }

  // ----- polling -----

  datatype Socket = ToClient | ToServer

  datatype Pollfd = Pollfd(client: Client, socket: Socket, forInput: bool)

  /** What a client in this state waits for. */
  predicate Polls(state: Spec.Phase, socket: Socket, forInput: bool) {
    match state
    case WaitingForRequest => socket.ToClient? && forInput
    case WaitingForAnother => false
    case SendingRequest => socket.ToServer? && !forInput
    case WaitingStatus => socket.ToServer? && forInput
    case WaitingResponse => if socket.ToServer? then forInput else !forInput
    case GotResponse => socket.ToClient? && !forInput
    case GettingFromAnother => socket.ToClient? && !forInput
  }

  predicate PollsServer(state: Spec.Phase) {
    state.SendingRequest? || state.WaitingStatus? || state.WaitingResponse?
  }

  method GetPollfds(clients: seq<Client>) returns (res: seq<Pollfd>)
    requires forall c :: c in clients && PollsServer(c.state) ==> c.server.Some?
    ensures forall p :: p in res <==> p.client in clients && Polls(p.client.state, p.socket, p.forInput)
  {
    res := [];
    for i := 0 to |clients|
      invariant forall p :: p in res <==> p.client in clients[..i] && Polls(p.client.state, p.socket, p.forInput)
    {
      var c := clients[i];
      ghost var before := res;
      match c.state {
        case WaitingForRequest => res := res + [Pollfd(c, ToClient, true)];
        case WaitingForAnother =>
        case SendingRequest =>
          assert c.server.Some?;
          res := res + [Pollfd(c, ToServer, false)];
        case WaitingStatus =>
          assert c.server.Some?;
          res := res + [Pollfd(c, ToServer, true)];
        case WaitingResponse =>
          assert c.server.Some?;
          res := res + [Pollfd(c, ToServer, true)];
          res := res + [Pollfd(c, ToClient, false)];
        case GotResponse => res := res + [Pollfd(c, ToClient, false)];
        case GettingFromAnother => res := res + [Pollfd(c, ToClient, false)];
      }
      assert forall p :: p in res <==> p in before || (p.client == c && Polls(c.state, p.socket, p.forInput));
    }
  }

  /** While the invariant holds the assertions of polling do: every client that polls a server owns a
      connection to it. */
  lemma PollingAllowed(s: Server, c: Client, origin: Spec.Origin)
    requires s.Valid() && SharingInvariant.Inv(origin, s.View()) && c in s.clients
    ensures PollsServer(c.state) ==> c.server.Some?
  {
    if c !in s.waiting {
      var k := c.requestStr;
      var i :| 0 <= i < |s.requestClients[k]| && s.requestClients[k][i] == c;
      var g := Spec.Group(s.View(), k);
      assert g[i] == c.View();
      assert SharingInvariant.KeyInv(origin, s.View(), k);
      SharingTheorems.ConnectionOwned(origin(k), g, CacheSpec.Lookup(s.View().cache, k), i);
    }
  }
}
