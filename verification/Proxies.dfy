/** The two kinds of proxy as the program builds them: an event loop around a traffic handler and a
    connection pool, updated in place.  Each method does to the objects what the corresponding step of the
    relay does to its state. */
module Proxies {
  import opened Text
  import opened Tokens
  import opened Commands
  import opened Sources
  import opened Connections
  import opened Stages
  import opened Stats
  import opened ServerSide
  import opened Relay

  class ClientSideProxy {
    const port: int
    const trafficHandler: ClientSideProxyTrafficHandler
    const clientConnectionPool: ClientConnectionPool<Queued>
    var forwardToPlayerChan: seq<Back>
    var running: bool
    var socketOpen: bool
    /** Histories: what was accepted, written and delivered so far, and counts of the rest. */
    var accepted: seq<Stages.Accepted<Origin>>
    var written: seq<Written>
    var delivered: seq<Delivery>
    var tally: Tally

    ghost predicate Valid()
      reads this, clientConnectionPool, clientConnectionPool.connections
      reads trafficHandler.tokenManager
    {
      clientConnectionPool.Valid() && trafficHandler.tokenManager.Valid()
    }

    ghost function StageView(): Stage<Origin>
      requires clientConnectionPool.Valid()
      reads this, clientConnectionPool, clientConnectionPool.connections
    {
      Stage(clientConnectionPool.View(), accepted, written)
    }

    ghost function View(): Endpoint
      requires clientConnectionPool.Valid()
      reads this, trafficHandler, clientConnectionPool, clientConnectionPool.connections
    {
      Endpoint(port, running, trafficHandler.View(), StageView(), forwardToPlayerChan, delivered, tally)
    }

    constructor (port: int, tokenManager: TokenManager, player: int)
      requires tokenManager.Valid()
      ensures Valid() && View() == NewEndpoint(port, player) && socketOpen
      ensures trafficHandler.tokenManager == tokenManager
      ensures fresh(trafficHandler) && fresh(clientConnectionPool) && clientConnectionPool.connections == {}
    {
      this.port := port;
      trafficHandler := new ClientSideProxyTrafficHandler(tokenManager, player);
      clientConnectionPool := new ClientConnectionPool<Queued>();
      forwardToPlayerChan, running, socketOpen := [], true, true;
      accepted, written, delivered := [], [], [];
      tally := Tally(0, 0, 0, 0, 0);
    }

    /** `handleIncomingTraffic` for a datagram that was read: the events it publishes. */
    method HandleIncomingTraffic(data: string, sourceAddr: Addr, draw: int, free: Option<int>, origin: Origin)
      returns (events: seq<StatsEvent>, crashed: bool)
      requires Valid()
      modifies this, trafficHandler, trafficHandler.tokenManager
      modifies clientConnectionPool, clientConnectionPool.connections
      ensures Valid()
      ensures var (h, t, r) := Preprocess(old(trafficHandler.View()), old(trafficHandler.tokenManager.View()), data, draw);
              var (ep, es) := Handle(old(View()), h, r, origin, sourceAddr, free);
              && trafficHandler.tokenManager.View() == t
              && View() == ep && events == es && crashed == r.Crash?
    {
      ghost var before := View();
      var result := trafficHandler.PreprocessServerBoundTraffic(data, draw);
      HandlerOverwritten(before, trafficHandler.View(), result, origin, sourceAddr, free);
      events := HandleResult(result, sourceAddr, free, origin);
      crashed := result.Crash?;
    }

    lemma HandlerOverwritten(ep: Endpoint, h: Handler, r: Preprocessed, origin: Origin, client: Addr, free: Option<int>)
      ensures Handle(ep.(handler := h), h, r, origin, client, free) == Handle(ep, h, r, origin, client, free)
    {
    }

    method HandleResult(result: Preprocessed, sourceAddr: Addr, free: Option<int>, origin: Origin)
      returns (events: seq<StatsEvent>)
      requires Valid()
      modifies this, clientConnectionPool, clientConnectionPool.connections
      ensures Valid()
      ensures var (ep, es) := Handle(old(View()), old(trafficHandler.View()), result, origin, sourceAddr, free);
              View() == ep && events == es
    {
      events := [];
      match result {
        case Crash =>
        case Degraded =>
          tally := tally.(received := tally.received + 1, degraded := tally.degraded + 1);
        case Invalid =>
          tally := tally.(received := tally.received + 1, rejected := tally.rejected + 1);
          events := [MalformedPacketProcessed(port)];
        case Command(c) =>
          tally := tally.(received := tally.received + 1, commands := tally.commands + 1);
          if c.DegradationResult? {
            events := [DegradationUpdate(port, c.percentage)];
          }
        case Traffic(player, modified) =>
          events := Forward(player, modified, sourceAddr, free, origin);
      }
    }

    /** The part for game traffic: find or make the player's connection and queue the packet in it. */
    method Forward(player: int, data: string, client: Addr, free: Option<int>, origin: Origin)
      returns (events: seq<StatsEvent>)
      requires Valid()
      modifies this, clientConnectionPool, clientConnectionPool.connections
      ensures Valid()
      ensures var (ep, es) := Handle(old(View()), old(trafficHandler.View()), Traffic(player, data), origin, client, free);
              View() == ep && events == es
    {
      tally := tally.(received := tally.received + 1);
      var ok, news := Queue(player, data, client, free, origin);
      if !ok {
        running := false;
        tally := tally.(unconnected := tally.unconnected + 1);
      }
      events := [ValidPacketProcessed(port)] + news;
    }

    /** Find or make the player's connection and queue the packet in it, if there is room. */
    method Queue(player: int, data: string, client: Addr, free: Option<int>, origin: Origin)
      returns (ok: bool, events: seq<StatsEvent>)
      requires Valid()
      modifies this`accepted, clientConnectionPool, clientConnectionPool.connections
      ensures Valid()
      ensures var s := Accept(old(StageView()), origin, player, data, client, free);
              ok == s.Some? && StageView() == if ok then s.value else old(StageView())
      ensures events == if ok && player !in old(StageView()).pool.conns then [PlayerConnected(player)] else []
    {
      var conn;
      conn, events := clientConnectionPool.GetOrCreateClientConnection(player, client, free);
      ok := conn.Some?;
      if ok {
        var kept := clientConnectionPool.Send(player, Queued(|accepted|, data));
        accepted := accepted + [Stages.Accepted(origin, player, data, kept)];
      }
    }

    /** `HandleClientBoundTraffic` for the oldest packet of the channel: the client it is written to, unless
        it is dropped. */
    method HandleClientBoundTraffic(draw: int) returns (to: Option<Addr>)
      requires Valid() && forwardToPlayerChan != []
      modifies this
      ensures Valid() && View() == Deliver(old(View()), draw)
      ensures to == (if ShouldDrop(trafficHandler.degradationPercentage, draw) then None
                     else old(View()).stage.pool.ClientOf(old(forwardToPlayerChan)[0].port))
    {
      var data := forwardToPlayerChan[0];
      forwardToPlayerChan := forwardToPlayerChan[1..];
      if ShouldDrop(trafficHandler.degradationPercentage, draw) {
        return None;
      }
      if data.port !in clientConnectionPool.clientConnectionPortMap {
        return None;
      }
      var client := clientConnectionPool.clientConnectionPortMap[data.port].client;
      delivered := delivered + [Delivery(client, data.data, data.id)];
      to := Some(client);
    }

    /** One write of a connection's socket loop. */
    method HandleSocketTraffic(player: int) returns (packet: Queued)
      requires Valid() && player in clientConnectionPool.clientConnectionMap
      requires clientConnectionPool.clientConnectionMap[player].serverBoundTrafficChan != []
      modifies this, clientConnectionPool.connections
      ensures Valid()
      ensures View() == old(View()).(stage := Write(old(StageView()), player))
      ensures packet == old(clientConnectionPool.View()).QueueOf(player)[0]
    {
      var port := clientConnectionPool.clientConnectionMap[player].returnTrafficPort;
      packet := clientConnectionPool.WriteNext(player);
      written := written + [Written(player, port, packet.index, packet.data)];
    }

    /** `Close`: every connection is closed and published, the listening socket is closed, and when players
        and ports were in correspondence every connection's socket is closed and both maps are empty. */
    method Close() returns (events: seq<StatsEvent>)
      requires Valid()
      modifies this, clientConnectionPool, clientConnectionPool.connections
      ensures Valid() && !running && !socketOpen
      ensures clientConnectionPool.clientConnectionMap == map[]
      ensures multiset(events) == Goodbyes(old(clientConnectionPool.clientConnectionMap).Keys)
      ensures forall p | p in old(clientConnectionPool.clientConnectionMap) ::
                old(clientConnectionPool.clientConnectionMap)[p].closed
      ensures old(clientConnectionPool.View()).Inverse() ==>
                && clientConnectionPool.View() == EmptyPool<Queued>()
                && forall p | p in old(clientConnectionPool.clientConnectionMap) ::
                     !old(clientConnectionPool.clientConnectionMap)[p].socketOpen
    {
      events := clientConnectionPool.CloseAll();
      running, socketOpen := false, false;
    }
  }

  class ServerSideProxy {
    const trafficHandler: ServerSideProxyTrafficHandler
    const clientConnectionPool: ClientConnectionPool<Queued>
    var forwardToPlayerChan: seq<Back>
    var running: bool
    /** Histories: what was accepted and what was sent back to the endpoints. */
    var accepted: seq<Stages.Accepted<HopId>>
    var written: seq<Written>
    var replies: seq<Answer>

    ghost predicate Valid()
      reads this, clientConnectionPool, clientConnectionPool.connections, trafficHandler
    {
      clientConnectionPool.Valid() && trafficHandler.Valid()
    }

    ghost function StageView(): Stage<HopId>
      requires clientConnectionPool.Valid()
      reads this, clientConnectionPool, clientConnectionPool.connections
    {
      Stage(clientConnectionPool.View(), accepted, written)
    }

    constructor ()
      ensures Valid() && running && forwardToPlayerChan == [] && replies == []
      ensures StageView() == NewStage<HopId>() && trafficHandler.View() == EMPTY
      ensures fresh(trafficHandler) && fresh(clientConnectionPool)
    {
      trafficHandler := new ServerSideProxyTrafficHandler();
      clientConnectionPool := new ClientConnectionPool<Queued>();
      forwardToPlayerChan, running := [], true;
      accepted, written, replies := [], [], [];
    }

    /** A datagram from an endpoint's socket with port `from`: the player's sources and connection are those
        that the relay's step computes, and so are the events; a packet that does not parse leaves everything
        as it was. */
    method HandleIncomingTraffic(data: string, from: int, now: int, free: Option<int>, hop: HopId)
      returns (parsed: Option<(int, string)>, events: seq<StatsEvent>)
      requires Valid()
      modifies this`accepted, this`running
      modifies trafficHandler, trafficHandler.infos, clientConnectionPool, clientConnectionPool.connections
      ensures Valid() && parsed == ParseServerSideToken(data)
      ensures parsed.None? ==>
                && trafficHandler.View() == old(trafficHandler.View())
                && StageView() == old(StageView()) && running == old(running)
                && events == [MalformedPacketProcessed(SERVER_PROXY_PORT)]
      ensures parsed.Some? ==>
                var player := parsed.value.0;
                var s := Accept(old(StageView()), hop, player, parsed.value.1, from, free);
                && trafficHandler.View() == Receive(old(trafficHandler.View()), player, from, now)
                && StageView() == (if s.Some? then s.value else old(StageView()))
                && running == (old(running) && s.Some?)
                && events == TrafficEvents(SERVER_PROXY_PORT, player,
                                           s.Some? && player !in old(StageView()).pool.conns)
    {
      hide ParseServerSideToken, Accept, Receive;
      ghost var before := StageView();
      parsed := trafficHandler.PreprocessServerBoundTraffic(data, from, now);
      assert StageView() == before;
      if parsed.None? {
        events := [MalformedPacketProcessed(SERVER_PROXY_PORT)];
      } else {
        var ok, news := Queue(parsed.value.0, parsed.value.1, from, free, hop);
        running := running && ok;
        events := [ValidPacketProcessed(SERVER_PROXY_PORT)] + news;
      }
    }

    method Queue(player: int, data: string, from: int, free: Option<int>, hop: HopId)
      returns (ok: bool, events: seq<StatsEvent>)
      requires Valid()
      modifies this`accepted, clientConnectionPool, clientConnectionPool.connections
      ensures Valid()
      ensures var s := Accept(old(StageView()), hop, player, data, from, free);
              ok == s.Some? && StageView() == if ok then s.value else old(StageView())
      ensures events == if ok && player !in old(StageView()).pool.conns then [PlayerConnected(player)] else []
      ensures trafficHandler.View() == old(trafficHandler.View())
    {
      var conn;
      conn, events := clientConnectionPool.GetOrCreateClientConnection(player, from, free);
      ok := conn.Some?;
      if ok {
        var kept := clientConnectionPool.Send(player, Queued(|accepted|, data));
        accepted := accepted + [Stages.Accepted(hop, player, data, kept)];
      }
    }

    /** The oldest packet of the channel goes to the next of its player's active endpoints; the clock is read
        at the drop test and again for each entry.  `Fault` stands for the panic of the index expression. */
    method HandleClientBoundTraffic(now: int, clock: nat -> int) returns (outcome: Outcome)
      requires Valid() && forwardToPlayerChan != []
      modifies this`forwardToPlayerChan, this`replies, trafficHandler
      ensures Valid() && forwardToPlayerChan == old(forwardToPlayerChan)[1..]
      ensures var b := old(forwardToPlayerChan)[0];
              var owner := clientConnectionPool.View().OwnerOf(b.port);
              && (owner.None? ==> outcome == Blocked && trafficHandler.View() == old(trafficHandler.View()))
              && (owner.Some? ==>
                    (trafficHandler.View(), outcome) ==
                    Sources.SendAt(old(trafficHandler.View()), owner.value, now, clock))
              && replies == old(replies) + (if outcome.Sent? then [Answer(outcome.addr, b.data, b.id)] else [])
    {
      hide Sources.SendAt;
      var data := forwardToPlayerChan[0];
      forwardToPlayerChan := forwardToPlayerChan[1..];
      var infos := clientConnectionPool.clientConnectionPortMap;
      var owner := if data.port in infos then Some(infos[data.port].player) else None;
      outcome := trafficHandler.HandleClientBoundTraffic(owner, now, clock);
      if outcome.Sent? {
        replies := replies + [Answer(outcome.addr, data.data, data.id)];
      }
    }
  }
}
