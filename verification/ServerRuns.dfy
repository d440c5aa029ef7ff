/** The server as built: from its start, whatever is reported, the objects follow a run of the protocol. */
module ServerRuns {
  import opened Wrappers
  import opened Server
  import opened ServerEvents
  import opened SharingTheorems
  import Spec = Sharing
  import SharingInvariant
  import CacheSpec

  lemma {:induction false} RunMore(origin: Spec.Origin, capacity: nat, events: seq<Spec.Event>,
                                   states: seq<Spec.State>, more: seq<Spec.Event>)
    returns (all: seq<Spec.State>)
    requires Run(origin, capacity, events, states) && AllEnabled(origin, states[|events|], more)
    ensures Run(origin, capacity, events + more, all) && states <= all
    ensures all[|events + more|] == After(origin, states[|events|], more)
    decreases |more|
  {
    hide Spec.Enabled, Spec.Next;
    if more == [] {
      assert events + more == events;
      all := states;
    } else {
      var t := Spec.Next(origin, states[|events|], more[0]);
      RunExtends(origin, capacity, events, states, more[0]);
      assert (states + [t])[|events + [more[0]]|] == t;
      all := RunMore(origin, capacity, events + [more[0]], states + [t], more[1..]);
      assert events + [more[0]] + more[1..] == events + more;
    }
  }

  /** The objects are where the run has got to. */
  ghost predicate Follows(s: Server, origin: Spec.Origin, capacity: nat, events: seq<Spec.Event>,
                          states: seq<Spec.State>)
    reads s, s.cache
  {
    Run(origin, capacity, events, states) && s.View() == states[|events|]
  }

  // ----- reports -----

  /** What poll reports: about the server's own socket, about a client that has sent no request, or about client `i`
      of request `k`. */
  datatype Report =
    | AtServer(r: Revents, accepts: bool)
    | AtNewcomer(r: Revents, io: Io)
    | AtListed(k: Key, i: nat, r: Revents, io: Io)

  predicate EndsServer(report: Report) {
    report.AtServer? && report.r.error
  }

  ghost function ReportEvents(v: Spec.State, report: Report): seq<Spec.Event> {
    match report
    case AtServer(r, accepts) => AcceptEvents(r, accepts)
    case AtNewcomer(r, io) => [NewcomerEvent(r, io)]
    case AtListed(k, i, r, io) =>
      if Spec.Listed(v, k, i) then ListedEvents(Spec.Group(v, k)[i].phase, k, i, r, io) else []
  }

  /** The report is about somebody who is there; what is received is what the origin sends, and a status is one that
      leaves the server in the protocol. */
  ghost predicate Possible(origin: Spec.Origin, v: Spec.State, report: Report) {
    && (report.AtNewcomer? ==> v.newcomers > 0) && (report.AtListed? ==> Spec.Listed(v, report.k, report.i))
    && var events := ReportEvents(v, report);
       events == [] || Spec.Enabled(origin, v, events[0])
  }

  /** The state after a report. */
  ghost function Reported(origin: Spec.Origin, v: Spec.State, report: Report): Spec.State {
    var events := ReportEvents(v, report);
    if AllEnabled(origin, v, events) then After(origin, v, events) else v
  }

  /** These reports can follow each other from `v` on, until one ends the server. */
  ghost predicate AllPossible(origin: Spec.Origin, v: Spec.State, reports: seq<Report>)
    decreases |reports|
  {
    reports == [] || EndsServer(reports[0])
    || (Possible(origin, v, reports[0]) && AllPossible(origin, Reported(origin, v, reports[0]), reports[1..]))
  }

  ghost function AllEvents(origin: Spec.Origin, v: Spec.State, reports: seq<Report>): seq<Spec.Event>
    decreases |reports|
  {
    if reports == [] || EndsServer(reports[0]) then []
    else ReportEvents(v, reports[0]) + AllEvents(origin, Reported(origin, v, reports[0]), reports[1..])
  }

  // ----- serving them -----

  method Start(capacity: nat, ghost origin: Spec.Origin) returns (s: Server)
    ensures fresh(s) && fresh(s.cache) && fresh(s.cache.Repr) && s.clients == {}
    ensures s.Valid() && Follows(s, origin, capacity, [], [Spec.Start(capacity)])
  {
    s := new Server(capacity);
  }

  /** Finds a client that has sent no request, whichever it is. */
  method FindNewcomer(s: Server, ghost origin: Spec.Origin) returns (client: Client)
    requires s.Valid() && SharingInvariant.Inv(origin, s.View()) && s.View().newcomers > 0
    ensures client in s.clients && client in s.waiting
  {
    assert exists c :: c in s.clients && c.state == Spec.WaitingForRequest by {
      var c :| c in s.waiting;
      s.Newcomer(c);
    }
    client :| client in s.clients && client.state == Spec.WaitingForRequest;
    if client !in s.waiting {
      ListedPhase(s, client, origin);
    }
  }

  lemma PlaceOf(s: Server, k: Key, i: nat)
    requires s.Valid() && Spec.Listed(s.View(), k, i)
    ensures k in s.requestClients && i < |s.requestClients[k]|
    ensures var c := s.requestClients[k][i];
            && s.At(c, i) && c in s.clients && c !in s.waiting && c.requestStr == k
            && c.state == Spec.Group(s.View(), k)[i].phase
  {
  }

  /** One report takes the objects on along the run. */
  method HandleReport(s: Server, report: Report, ghost origin: Spec.Origin, ghost capacity: nat,
                      ghost events: seq<Spec.Event>, ghost states: seq<Spec.State>)
    returns (ok: bool, ghost all: seq<Spec.State>)
    requires s.Valid() && Follows(s, origin, capacity, events, states)
    requires EndsServer(report) || Possible(origin, s.View(), report)
    modifies s, s.cache, s.cache.Repr, s.clients
    ensures s.Valid() && ok == !EndsServer(report)
    ensures fresh(s.cache.Repr - old(s.cache.Repr)) && fresh(s.clients - old(s.clients))
    ensures Follows(s, origin, capacity, events + ReportEvents(old(s.View()), report), all) && states <= all
    ensures AllEnabled(origin, old(s.View()), ReportEvents(old(s.View()), report))
    ensures s.View() == Reported(origin, old(s.View()), report)
  {
    hide Server.Valid, Server.View, Server.At, Run, SharingInvariant.Inv, Spec.Enabled, AllEnabled, After;
    ghost var v := s.View();
    ghost var more := ReportEvents(v, report);
    RunInv(origin, capacity, events, states, |events|);
    match report {
      case AtServer(r, accepts) =>
        ok := HandleServerSocketEvents(s, r, accepts, origin);
      case AtNewcomer(r, io) =>
        var client := FindNewcomer(s, origin);
        HandleClientSocketEvents(s, client, r, io, 0, origin);
        ok := true;
      case AtListed(k, i, r, io) =>
        PlaceOf(s, k, i);
        HandleClientSocketEvents(s, s.requestClients[k][i], r, io, i, origin);
        ok := true;
    }
    all := RunMore(origin, capacity, events, states, more);
  }

  /** The server as built, from its start, under any reports that are possible: what the objects go through is a run of
      the protocol. */
  method Serve(capacity: nat, reports: seq<Report>, ghost origin: Spec.Origin)
    returns (s: Server, ok: bool, ghost states: seq<Spec.State>)
    requires AllPossible(origin, Spec.Start(capacity), reports)
    ensures s.Valid() && Follows(s, origin, capacity, AllEvents(origin, Spec.Start(capacity), reports), states)
    ensures ok <==> forall j :: 0 <= j < |reports| ==> !EndsServer(reports[j])
  {
    s := Start(capacity, origin);
    states := [Spec.Start(capacity)];
    ok := true;
    ghost var events: seq<Spec.Event> := [];
    ghost var all := AllEvents(origin, Spec.Start(capacity), reports);
    hide Server.Valid, Server.View, Run, Reported, ReportEvents, Possible;
    for n := 0 to |reports|
      invariant s.Valid() && Follows(s, origin, capacity, events, states) && ok
      invariant fresh(s) && fresh(s.cache) && fresh(s.cache.Repr) && fresh(s.clients)
      invariant AllPossible(origin, s.View(), reports[n..])
      invariant all == events + AllEvents(origin, s.View(), reports[n..])
      invariant forall j :: 0 <= j < n ==> !EndsServer(reports[j])
    {
      ghost var v := s.View();
      var report := reports[n];
      assert reports[n..][0] == report && reports[n..][1..] == reports[n + 1..];
      if EndsServer(report) {
        ok := false;
        break;
      }
      var _, longer := HandleReport(s, report, origin, capacity, events, states);
      assert events + ReportEvents(v, report) + AllEvents(origin, s.View(), reports[n + 1..]) == all;
      events := events + ReportEvents(v, report);
      states := longer;
    }
    assert events == all;
  }

  // ----- what the objects show -----

  /** Every client that is there and has sent its request has its place. */
  lemma HasPlace(s: Server, client: Client) returns (i: nat)
    requires s.Valid() && client in s.clients && client !in s.waiting
    ensures s.At(client, i)
  {
    i :| i < |s.requestClients[client.requestStr]| && s.requestClients[client.requestStr][i] == client;
  }

  /** What any client object has been sent is the part of the response to its request that begins at its base. */
  lemma ObjectsDeliver(s: Server, client: Client, origin: Spec.Origin, capacity: nat, events: seq<Spec.Event>,
                       states: seq<Spec.State>)
    requires s.Valid() && client in s.clients && Follows(s, origin, capacity, events, states)
    ensures IsPartOf(client.delivered, origin(client.requestStr), client.base)
    ensures client.sentBytes == |client.delivered|
  {
    if client in s.waiting {
      s.Newcomer(client);
    } else {
      var i := HasPlace(s, client);
      s.ListedAt(client, i);
      hide Server.Valid, Server.View, Server.At, Run, IsPartOf;
      DeliveredInOrder(origin, capacity, events, states, |events|, client.requestStr, i);
    }
  }

  /** The cache object never holds more than its budget, and counts exactly what it holds. */
  lemma ObjectsCacheSound(s: Server, origin: Spec.Origin, capacity: nat, events: seq<Spec.Event>,
                          states: seq<Spec.State>)
    requires s.Valid() && Follows(s, origin, capacity, events, states)
    ensures CacheSpec.TotalSize(s.cache.View().items) == s.cache.currentSize <= s.cache.maxSize
  {
    hide Server.Valid, Run;
    CacheSound(origin, capacity, events, states, |events|);
  }

  /** The server under any possible reports, seen from outside: every client has been sent consecutive bytes of the
      response to its request, and whoever left as done has all of them from its base on. */
  method ServeAndShow(capacity: nat, reports: seq<Report>, ghost origin: Spec.Origin) returns (s: Server, ok: bool)
    requires AllPossible(origin, Spec.Start(capacity), reports)
    ensures forall c :: c in s.clients ==> IsPartOf(c.delivered, origin(c.requestStr), c.base)
    ensures forall f :: f in s.finished ==> f.base <= |origin(f.key)| && f.delivered == origin(f.key)[f.base..]
    ensures CacheSpec.TotalSize(s.cache.View().items) == s.cache.currentSize <= s.cache.maxSize
  {
    ghost var states;
    s, ok, states := Serve(capacity, reports, origin);
    ghost var events := AllEvents(origin, Spec.Start(capacity), reports);
    forall c | c in s.clients
      ensures IsPartOf(c.delivered, origin(c.requestStr), c.base)
    {
      ObjectsDeliver(s, c, origin, capacity, events, states);
    }
    forall f | f in s.finished
      ensures f.base <= |origin(f.key)| && f.delivered == origin(f.key)[f.base..]
    {
      FinishedFromBase(origin, capacity, events, states, |events|, f);
    }
    ObjectsCacheSound(s, origin, capacity, events, states);
  }
}
