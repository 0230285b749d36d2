/** What an endpoint does with one datagram, case by case, and that the statistics are exact for as long as their
    channel has room. */
module RelayStats {
  import opened Text
  import opened Commands
  import opened Connections
  import opened Stages
  import opened Stats
  import opened Relay
  import opened RelayAccounts
  import Tokens
  import Sources

  // ---------------------------------------------------------------- one datagram

  /** In every case the datagram is booked once and the fitting events are published. */
  lemma HandleEffects(ep: Endpoint, h: Handler, r: Preprocessed, origin: Origin, client: int, port: Option<int>)
    ensures var (ep', events) := Handle(ep, h, r, origin, client, port);
            match r
            case Command(result) =>
              && ep' == ep.(handler := h, tally := ep'.tally) && ep'.tally.commands == ep.tally.commands + 1
              && events == if result.DegradationResult? then [DegradationUpdate(ep.port, result.percentage)] else []
            case Degraded =>
              ep' == ep.(handler := h, tally := ep'.tally) && ep'.tally.degraded == ep.tally.degraded + 1 && events == []
            case Invalid =>
              && ep' == ep.(handler := h, tally := ep'.tally) && ep'.tally.rejected == ep.tally.rejected + 1
              && events == [MalformedPacketProcessed(ep.port)]
            case Traffic(player, data) =>
              if player in ep.stage.pool.conns || port.Some? then
                && ep'.running == ep.running && |ep'.stage.accepted| == |ep.stage.accepted| + 1
                && player in ep'.stage.pool.conns
                && events == [ValidPacketProcessed(ep.port)] +
                             (if player in ep.stage.pool.conns then [] else [PlayerConnected(player)])
              else
                && !ep'.running && ep'.stage == ep.stage && ep'.tally.unconnected == ep.tally.unconnected + 1
                && events == [ValidPacketProcessed(ep.port)]
            case Crash => events == []
  {
  }

  /** On the way back an endpoint drops the percentage that it is set to, too, and delivers everything else to the
      client recorded for the port. */
  lemma DeliversTheRest(ep: Endpoint, client: int)
    requires ep.back != [] && ep.stage.pool.ClientOf(ep.back[0].port) == Some(client) && 0 <= ep.handler.degradation <= 100
    ensures |set draw | 0 <= draw < 100 && Deliver(ep, draw).delivered == ep.delivered| == ep.handler.degradation
    ensures forall draw ::
              && Deliver(ep, draw).back == ep.back[1..]
              && (|| Deliver(ep, draw).delivered == ep.delivered
                  || Deliver(ep, draw).delivered == ep.delivered + [Delivery(client, ep.back[0].data, ep.back[0].id)])
  {
    hide ShouldDrop;
    DropsItsPercentage(ep.handler.degradation, ep.handler.degradation);
    forall draw ensures Deliver(ep, draw).delivered == ep.delivered <==> ShouldDrop(ep.handler.degradation, draw) {
      var more := ep.delivered + [Delivery(client, ep.back[0].data, ep.back[0].id)];
      assert |more| == |ep.delivered| + 1;
    }
    assert (set draw | 0 <= draw < 100 && Deliver(ep, draw).delivered == ep.delivered) ==
           set d | 0 <= d < 100 && ShouldDrop(ep.handler.degradation, d);
  }

  // ---------------------------------------------------------------- exact statistics

  /** What is counted or waits to be counted for the endpoint's port is what happened there. */
  ghost predicate Exact(ep: Endpoint, stats: Collection) {
    && stats.counters.Valid(ep.port) + multiset(stats.channel)[ValidPacketProcessed(ep.port)] ==
       |ep.stage.accepted| + ep.tally.unconnected
    && stats.counters.Malformed(ep.port) + multiset(stats.channel)[MalformedPacketProcessed(ep.port)] == ep.tally.rejected
  }

  ghost predicate AllExact(s: State) {
    forall e | 0 <= e < |s.endpoints| && s.endpoints[e].port in s.stats.counters.endpointStats ::
      Exact(s.endpoints[e], s.stats)
  }

  /** The events published are exactly those about what changes at the endpoint. */
  ghost predicate Matches(ep: Endpoint, ep': Endpoint, events: seq<StatsEvent>) {
    && ep'.port == ep.port
    && multiset(events)[ValidPacketProcessed(ep.port)] + |ep.stage.accepted| + ep.tally.unconnected ==
       |ep'.stage.accepted| + ep'.tally.unconnected
    && multiset(events)[MalformedPacketProcessed(ep.port)] + ep.tally.rejected == ep'.tally.rejected
  }

  ghost predicate AllMatch(a: seq<Endpoint>, b: seq<Endpoint>, events: seq<StatsEvent>) {
    |a| == |b| && forall e | 0 <= e < |a| :: Matches(a[e], b[e], events)
  }

  lemma ReceivePublishes(s: State, e: nat, id: nat, draw: int, port: Option<int>) returns (events: seq<StatsEvent>)
    requires AccountsInv(s) && Enabled(s, EndpointReceives(e, id, draw, port))
    ensures var s' := DoEndpointReceives(s, e, id, draw, port);
            s'.stats == PublishAll(s.stats, events) && |events| <= 2 && AllMatch(s.endpoints, s'.endpoints, events)
  {
    var send := s.sends[id];
    var (h, t, r) := Preprocess(s.endpoints[e].handler, Current(s), Truncate(send.data), draw);
    var origin := Origin(id, |s.tables| - 1);
    var ep := s.endpoints[e];
    hide Handle, EventsMatch, AllMatch, Balanced, Counted;
    assert Balanced(ep);
    HandleBalances(ep, h, r, origin, send.client, port);
    events := Handle(ep, h, r, origin, send.client, port).1;
    FewEvents(ep, h, r, origin, send.client, port);
    OneMatches(s.endpoints, e, Handle(ep, h, r, origin, send.client, port).0, events);
    hide Preprocess, Enabled, AccountsInv;
  }

  lemma OneMatches(endpoints: seq<Endpoint>, e: nat, ep': Endpoint, events: seq<StatsEvent>)
    requires forall i, j | 0 <= i < j < |endpoints| :: endpoints[i].port != endpoints[j].port
    requires e < |endpoints| && EventsMatch(endpoints[e], ep', events) && ep'.port == endpoints[e].port
    ensures AllMatch(endpoints, endpoints[e := ep'], events)
  {
    forall i | 0 <= i < |endpoints| ensures Matches(endpoints[i], endpoints[e := ep'][i], events) {
      assert i != e ==> endpoints[i].port != endpoints[e].port;
    }
  }

  lemma FewEvents(ep: Endpoint, h: Handler, r: Preprocessed, origin: Origin, client: int, port: Option<int>)
    ensures |Handle(ep, h, r, origin, client, port).1| <= 2
  {
    hide Accept;
  }

  lemma ServerPublishesAbroad(s: State, hop: HopId, port: Option<int>) returns (events: seq<StatsEvent>)
    requires AccountsInv(s) && Enabled(s, ServerReceives(hop, port))
    ensures var s' := DoServerReceives(s, hop, port);
            s'.stats == PublishAll(s.stats, events) && |events| <= 2 && AllMatch(s.endpoints, s'.endpoints, events)
  {
    var w := s.endpoints[hop.endpoint].stage.written[hop.index];
    hide Accept, Tokens.ParseServerSideToken;
    var parsed := Tokens.ParseServerSideToken(Truncate(w.data));
    if parsed.None? {
      events := [MalformedPacketProcessed(SERVER_PROXY_PORT)];
    } else {
      var (p, data) := parsed.value;
      var connected := Accept(s.server, hop, p, data, w.port, port).Some? && p !in s.server.pool.conns;
      events := TrafficEvents(SERVER_PROXY_PORT, p, connected);
    }
    assert ServerEvents(events);
  }

  lemma OthersPublishNothing(s: State, ev: Event)
    requires Enabled(s, ev) && !ev.EndpointReceives? && !ev.ServerReceives? && !ev.StatsProcessed?
    ensures Step(s, ev).stats == s.stats && AllMatch(s.endpoints, Step(s, ev).endpoints, [])
  {
    hide Sources.Send;
    var none: seq<StatsEvent> := [];
    assert |multiset(none)| == 0;
  }

  lemma PublishExact(s: State, s': State, events: seq<StatsEvent>)
    requires AllExact(s) && |s.stats.channel| + |events| <= 100
    requires s'.stats == PublishAll(s.stats, events) && AllMatch(s.endpoints, s'.endpoints, events)
    ensures AllExact(s')
  {
    PublishAllKeeps(s.stats, events);
    assert multiset(s.stats.channel + events) == multiset(s.stats.channel) + multiset(events);
    forall e | 0 <= e < |s'.endpoints| && s'.endpoints[e].port in s'.stats.counters.endpointStats
      ensures Exact(s'.endpoints[e], s'.stats)
    {
      assert Matches(s.endpoints[e], s'.endpoints[e], events) && Exact(s.endpoints[e], s.stats);
    }
  }

  lemma ProcessExact(s: State)
    requires AllExact(s)
    ensures AllExact(s.(stats := ProcessNext(s.stats)))
  {
    if s.stats.channel != [] {
      assert s.stats.channel == [s.stats.channel[0]] + s.stats.channel[1..];
      forall e | 0 <= e < |s.endpoints| && s.endpoints[e].port in ProcessNext(s.stats).counters.endpointStats
        ensures Exact(s.endpoints[e], ProcessNext(s.stats))
      {
        assert Exact(s.endpoints[e], s.stats);
      }
    }
  }

  lemma StepExact(s: State, ev: Event)
    requires AccountsInv(s) && AllExact(s) && |s.stats.channel| <= 98
    ensures AllExact(Step(s, ev))
  {
    if Enabled(s, ev) {
      hide AllExact, AllMatch, AccountsInv;
      match ev {
        case EndpointReceives(e, id, draw, port) =>
          var events := ReceivePublishes(s, e, id, draw, port);
          PublishExact(s, Step(s, ev), events);
        case ServerReceives(hop, port) =>
          var events := ServerPublishesAbroad(s, hop, port);
          PublishExact(s, Step(s, ev), events);
        case StatsProcessed => ProcessExact(s);
        case _ =>
          OthersPublishNothing(s, ev);
          assert PublishAll(s.stats, []) == s.stats;
          PublishExact(s, Step(s, ev), []);
      }
    }
  }

  /** The collector always keeps up: at most 98 events wait for it before any step. */
  ghost predicate KeepsUp(s0: State, evs: seq<Event>) {
    forall k | 0 <= k < |evs| :: |Run(s0, evs[..k]).stats.channel| <= 98
  }

  lemma {:induction false} ExactAlways(s0: State, evs: seq<Event>)
    requires Initial(s0) && KeepsUp(s0, evs)
    ensures AllExact(Run(s0, evs))
  {
    if evs == [] {
      InitialExact(s0);
    } else {
      var n := |evs| - 1;
      hide Step, AllExact, AccountsInv, Initial, KeepsUp;
      KeptUp(s0, evs);
      ExactAlways(s0, evs[..n]);
      AccountsAlways(s0, evs[..n]);
      StepExact(Run(s0, evs[..n]), evs[n]);
    }
  }

  lemma KeptUp(s0: State, evs: seq<Event>)
    requires evs != [] && KeepsUp(s0, evs)
    ensures KeepsUp(s0, evs[..|evs| - 1]) && |Run(s0, evs[..|evs| - 1]).stats.channel| <= 98
  {
    hide Run;
    var n := |evs| - 1;
    forall k | 0 <= k < n ensures |Run(s0, evs[..n][..k]).stats.channel| <= 98 {
      assert evs[..n][..k] == evs[..k];
    }
  }

  lemma InitialExact(s0: State)
    requires Initial(s0)
    ensures AllExact(s0)
  {
    forall e | 0 <= e < |s0.endpoints| ensures Exact(s0.endpoints[e], s0.stats) {
      assert s0.endpoints[e] == NewEndpoint(s0.endpoints[e].port, s0.endpoints[e].Player());
      assert multiset(s0.stats.channel) == multiset{};
    }
  }

  /** After any run in which the collector keeps up, counting what still waits leaves for every listed endpoint
      exactly how many packets were let through and how many were malformed. */
  lemma StatisticsAreExact(s0: State, evs: seq<Event>, e: nat)
    requires Initial(s0) && KeepsUp(s0, evs) && e < |Run(s0, evs).endpoints|
    requires Run(s0, evs).endpoints[e].port in Run(s0, evs).stats.counters.endpointStats
    ensures var (ep, shown) := (Run(s0, evs).endpoints[e], Drain(Run(s0, evs).stats).counters);
            && shown.Valid(ep.port) == |ep.stage.accepted| + ep.tally.unconnected
            && shown.Malformed(ep.port) == ep.tally.rejected
  {
    ExactAlways(s0, evs);
    hide Run;
    DrainCounts(Run(s0, evs).stats, Run(s0, evs).endpoints[e].port);
    assert Exact(Run(s0, evs).endpoints[e], Run(s0, evs).stats);
  }

  // ---------------------------------------------------------------- the collector alone

  lemma {:induction false} Processed(s: State, n: nat)
    requires Enabled(s, StatsProcessed)
    ensures var c := Run(s, seq(n, _ => StatsProcessed)).stats;
            && Run(s, seq(n, _ => StatsProcessed)) == s.(stats := c) && Drain(c) == Drain(s.stats)
            && |c.channel| == if n < |s.stats.channel| then |s.stats.channel| - n else 0
  {
    if n > 0 {
      var evs := seq(n, _ => StatsProcessed);
      assert evs[..n - 1] == seq(n - 1, _ => StatsProcessed);
      Processed(s, n - 1);
      var before := Run(s, evs[..n - 1]);
      assert Run(s, evs) == Step(before, StatsProcessed);
      hide Run;
      ProcessedOnce(s, before.stats);
    }
  }

  lemma ProcessedOnce(s: State, c: Collection)
    requires Enabled(s, StatsProcessed)
    ensures Step(s.(stats := c), StatsProcessed) == s.(stats := ProcessNext(c)) && Drain(ProcessNext(c)) == Drain(c)
  {
  }

  /** Left to itself for as many steps as events are waiting, the collector counts them all and changes nothing
      else. */
  lemma CollectorCatchesUp(s: State, n: nat)
    requires Enabled(s, StatsProcessed) && n >= |s.stats.channel|
    ensures Run(s, seq(n, _ => StatsProcessed)) == s.(stats := Drain(s.stats)) && Drain(s.stats).channel == []
  {
    Processed(s, n);
  }

  // ---------------------------------------------------------------- who is shown as connected

  /** Some proxy has a socket for the player. */
  ghost predicate Connected(s: State, p: int) {
    p in s.server.pool.conns || exists e :: 0 <= e < |s.endpoints| && p in s.endpoints[e].stage.pool.conns
  }

  /** The player is shown as connected, or an event that says so is waiting. */
  ghost predicate Announced(c: Collection, p: int) {
    p in c.counters.playerConnections || PlayerConnected(p) in c.channel
  }

  /** The events are about exactly the players who become connected. */
  ghost predicate Announces(events: seq<StatsEvent>, s: State, s': State) {
    && |events| <= 2 && (forall p :: PlayerDisconnected(p) !in events)
    && forall p :: Connected(s', p) <==> Connected(s, p) || PlayerConnected(p) in events
  }

  lemma HandleConnects(ep: Endpoint, h: Handler, r: Preprocessed, origin: Origin, client: int, port: Option<int>)
    ensures var (ep', events) := Handle(ep, h, r, origin, client, port);
            && (forall p :: PlayerDisconnected(p) !in events)
            && forall p :: p in ep'.stage.pool.conns <==> p in ep.stage.pool.conns || PlayerConnected(p) in events
  {
  }

  lemma OneConnects(s: State, s': State, e: nat, events: seq<StatsEvent>)
    requires e < |s.endpoints| && s'.server == s.server
    requires |s'.endpoints| == |s.endpoints| && s'.endpoints == s.endpoints[e := s'.endpoints[e]]
    requires forall p :: p in s'.endpoints[e].stage.pool.conns <==>
                         p in s.endpoints[e].stage.pool.conns || PlayerConnected(p) in events
    ensures forall p :: Connected(s', p) <==> Connected(s, p) || PlayerConnected(p) in events
  {
    forall p ensures Connected(s', p) <==> Connected(s, p) || PlayerConnected(p) in events {
      if f :| 0 <= f < |s.endpoints| && p in s.endpoints[f].stage.pool.conns {
        assert p in s'.endpoints[f].stage.pool.conns;
      }
      if PlayerConnected(p) in events {
        assert p in s'.endpoints[e].stage.pool.conns;
      }
      if f :| 0 <= f < |s.endpoints| && p in s'.endpoints[f].stage.pool.conns {
        assert f != e ==> p in s.endpoints[f].stage.pool.conns;
      }
    }
  }

  lemma ReceiveAnnounces(s: State, e: nat, id: nat, draw: int, port: Option<int>) returns (events: seq<StatsEvent>)
    requires Enabled(s, EndpointReceives(e, id, draw, port))
    ensures var s' := DoEndpointReceives(s, e, id, draw, port);
            s'.stats == PublishAll(s.stats, events) && Announces(events, s, s')
  {
    var send := s.sends[id];
    var origin := Origin(id, |s.tables| - 1);
    hide Handle, Preprocess, PublishAll;
    var (h, t, r) := Preprocess(s.endpoints[e].handler, Current(s), Truncate(send.data), draw);
    HandleConnects(s.endpoints[e], h, r, origin, send.client, port);
    FewEvents(s.endpoints[e], h, r, origin, send.client, port);
    events := Handle(s.endpoints[e], h, r, origin, send.client, port).1;
    OneConnects(s, DoEndpointReceives(s, e, id, draw, port), e, events);
  }

  lemma AcceptConnects<I>(stage: Stage<I>, id: I, player: int, data: string, from: int, port: Option<int>)
    ensures var r := Accept(stage, id, player, data, from, port);
            r.Some? ==> r.value.pool.conns.Keys == stage.pool.conns.Keys + {player}
  {
  }

  lemma ServerConnects(s: State, s': State, events: seq<StatsEvent>)
    requires s'.endpoints == s.endpoints
    requires forall p :: p in s'.server.pool.conns <==> p in s.server.pool.conns || PlayerConnected(p) in events
    ensures forall p :: Connected(s', p) <==> Connected(s, p) || PlayerConnected(p) in events
  {
  }

  lemma ServerAnnounces(s: State, hop: HopId, port: Option<int>) returns (events: seq<StatsEvent>)
    requires Enabled(s, ServerReceives(hop, port))
    ensures var s' := DoServerReceives(s, hop, port);
            s'.stats == PublishAll(s.stats, events) && Announces(events, s, s')
  {
    var w := s.endpoints[hop.endpoint].stage.written[hop.index];
    hide Tokens.ParseServerSideToken, PublishAll, Accept, Connected;
    var parsed := Tokens.ParseServerSideToken(Truncate(w.data));
    if parsed.None? {
      events := [MalformedPacketProcessed(SERVER_PROXY_PORT)];
    } else {
      var (p, data) := parsed.value;
      var server := Accept(s.server, hop, p, data, w.port, port);
      AcceptConnects(s.server, hop, p, data, w.port, port);
      events := TrafficEvents(SERVER_PROXY_PORT, p, server.Some? && p !in s.server.pool.conns);
    }
    ServerConnects(s, DoServerReceives(s, hop, port), events);
  }

  lemma OthersKeepSockets(s: State, ev: Event, e: nat)
    requires Enabled(s, ev) && !ev.EndpointReceives? && !ev.ServerReceives? && e < |s.endpoints|
    ensures |Step(s, ev).endpoints| == |s.endpoints|
    ensures Step(s, ev).endpoints[e].stage.pool.conns.Keys == s.endpoints[e].stage.pool.conns.Keys
  {
    hide Sources.Send;
  }

  lemma OthersKeepServerSockets(s: State, ev: Event)
    requires Enabled(s, ev) && !ev.EndpointReceives? && !ev.ServerReceives?
    ensures |Step(s, ev).endpoints| == |s.endpoints|
    ensures Step(s, ev).server.pool.conns.Keys == s.server.pool.conns.Keys
  {
    hide Sources.Send;
  }

  lemma OthersConnectNobody(s: State, ev: Event)
    requires Enabled(s, ev) && !ev.EndpointReceives? && !ev.ServerReceives?
    ensures forall p :: Connected(Step(s, ev), p) <==> Connected(s, p)
  {
    hide Step, Connected, Enabled;
    var s' := Step(s, ev);
    OthersKeepServerSockets(s, ev);
    forall e | 0 <= e < |s.endpoints| ensures s'.endpoints[e].stage.pool.conns.Keys == s.endpoints[e].stage.pool.conns.Keys {
      OthersKeepSockets(s, ev, e);
    }
    forall p ensures Connected(s', p) <==> Connected(s, p) {
      SameConnected(s, s', p);
    }
  }

  lemma SameConnected(s: State, s': State, p: int)
    requires |s'.endpoints| == |s.endpoints| && s'.server.pool.conns.Keys == s.server.pool.conns.Keys
    requires forall e | 0 <= e < |s.endpoints| ::
               s'.endpoints[e].stage.pool.conns.Keys == s.endpoints[e].stage.pool.conns.Keys
    ensures Connected(s', p) <==> Connected(s, p)
  {
    assert forall e | 0 <= e < |s.endpoints| :: p in s'.endpoints[e].stage.pool.conns <==> p in s.endpoints[e].stage.pool.conns;
  }

  // ---------------------------------------------------------------- in runs

  /** Apart from players shown from the start: a player is announced exactly when some proxy has a socket for them,
      and nobody is announced as gone. */
  ghost predicate AnnouncedIff(s0: State, s: State) {
    && (forall p :: PlayerDisconnected(p) !in s.stats.channel)
    && forall p :: Announced(s.stats, p) <==> p in s0.stats.counters.playerConnections || Connected(s, p)
  }

  lemma PublishAnnounced(s0: State, s: State, s': State, events: seq<StatsEvent>)
    requires AnnouncedIff(s0, s) && |s.stats.channel| <= 98
    requires s'.stats == PublishAll(s.stats, events) && Announces(events, s, s')
    ensures AnnouncedIff(s0, s')
  {
    hide Connected;
    PublishAllKeeps(s.stats, events);
  }

  lemma ProcessAnnounced(s0: State, s: State)
    requires AnnouncedIff(s0, s)
    ensures AnnouncedIff(s0, s.(stats := ProcessNext(s.stats)))
  {
    var s' := s.(stats := ProcessNext(s.stats));
    assert s'.endpoints == s.endpoints && s'.server == s.server;
    if s.stats.channel != [] {
      var e := s.stats.channel[0];
      assert s.stats.channel == [e] + s.stats.channel[1..];
      assert e in s.stats.channel;
      forall p ensures Connected(s', p) <==> Connected(s, p) {
        SameConnected(s, s', p);
      }
      hide Connected;
    }
  }

  lemma StepAnnounced(s0: State, s: State, ev: Event)
    requires AnnouncedIff(s0, s) && |s.stats.channel| <= 98
    ensures AnnouncedIff(s0, Step(s, ev))
  {
    if Enabled(s, ev) {
      hide AnnouncedIff, Announces;
      match ev {
        case EndpointReceives(e, id, draw, port) =>
          var events := ReceiveAnnounces(s, e, id, draw, port);
          PublishAnnounced(s0, s, Step(s, ev), events);
        case ServerReceives(hop, port) =>
          var events := ServerAnnounces(s, hop, port);
          PublishAnnounced(s0, s, Step(s, ev), events);
        case StatsProcessed => ProcessAnnounced(s0, s);
        case _ => NothingAnnounced(s0, s, ev);
      }
    }
  }

  lemma NothingAnnounced(s0: State, s: State, ev: Event)
    requires AnnouncedIff(s0, s) && Enabled(s, ev)
    requires !ev.EndpointReceives? && !ev.ServerReceives? && !ev.StatsProcessed?
    ensures AnnouncedIff(s0, Step(s, ev))
  {
    OthersConnectNobody(s, ev);
    StatsUntouched(s, ev);
    hide Step, Connected, Enabled;
  }

  lemma StatsUntouched(s: State, ev: Event)
    requires Enabled(s, ev) && !ev.EndpointReceives? && !ev.ServerReceives? && !ev.StatsProcessed?
    ensures Step(s, ev).stats == s.stats
  {
    hide Sources.Send;
  }

  lemma {:induction false} AnnouncedAlways(s0: State, evs: seq<Event>)
    requires Initial(s0) && KeepsUp(s0, evs)
    ensures AnnouncedIff(s0, Run(s0, evs))
  {
    if evs == [] {
      forall e | 0 <= e < |s0.endpoints| ensures s0.endpoints[e].stage.pool.conns == map[] {
        assert s0.endpoints[e] == NewEndpoint(s0.endpoints[e].port, s0.endpoints[e].Player());
      }
    } else {
      var n := |evs| - 1;
      hide Step, AnnouncedIff, Initial, KeepsUp;
      KeptUp(s0, evs);
      AnnouncedAlways(s0, evs[..n]);
      StepAnnounced(s0, Run(s0, evs[..n]), evs[n]);
    }
  }

  /** After any run in which the collector keeps up, counting what still waits shows as connected exactly the players
      for whom some proxy has a socket, besides those shown from the start. */
  lemma ConnectionsAreExact(s0: State, evs: seq<Event>, p: int)
    requires Initial(s0) && KeepsUp(s0, evs)
    ensures p in Drain(Run(s0, evs).stats).counters.playerConnections <==>
            p in s0.stats.counters.playerConnections || Connected(Run(s0, evs), p)
  {
    AnnouncedAlways(s0, evs);
    hide Run, Connected;
    var c := Run(s0, evs).stats;
    ConnectionsShown(c, p);
    if PlayerConnected(p) in c.channel {
      var i :| 0 <= i < |c.channel| && c.channel[i] == PlayerConnected(p);
      assert forall j | i < j < |c.channel| :: c.channel[j] in c.channel;
      assert ConnectedBy(c.channel, p, i);
    }
  }
}
