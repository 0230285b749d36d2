/** The whole relay as a state machine: clients, client-side endpoints, the server-side proxy, the game
    server and the network between them.  Datagrams may be lost, delayed and reordered but not
    duplicated; only the endpoints' own sockets write to the server-side proxy and only the server-side
    proxy writes back to them. */
module Relay {
  import opened Text
  import opened Tokens
  import opened Commands
  import opened Sources
  import opened Connections
  import opened Stages
  import opened Stats

  // ---------------------------------------------------------------- the state

  /** The server-side proxy asks for any available port and goes on calling itself by the number it asked
      for, 0; no endpoint has that port. */
  const SERVER_PROXY_PORT := 0

  /** A datagram a client sent to an endpoint. */
  datatype ClientSend = ClientSend(endpoint: nat, client: Addr, data: string)

  /** Where an accepted packet came from: which client datagram, and which version of the token table was
      current when it was checked. */
  datatype Origin = Origin(send: nat, version: nat)

  /** A datagram on the second hop: the endpoint that wrote it and its place in what that wrote. */
  datatype HopId = HopId(endpoint: nat, index: nat)

  /** A datagram the game server sent to a port. */
  datatype GameSend = GameSend(port: int, data: string)

  /** A packet in a forward-to-player channel: the connection's port, the data, and which of the game
      server's datagrams it is. */
  datatype Back = Back(port: int, data: string, id: nat)

  /** A packet the server-side proxy sent back to the socket with port `to`. */
  datatype Answer = Answer(to: int, data: string, id: nat)

  /** A packet an endpoint delivered to a client. */
  datatype Delivery = Delivery(client: Addr, data: string, id: nat)

  /** What became of the packets an endpoint received, other than those it accepted. */
  datatype Tally = Tally(received: nat, commands: nat, degraded: nat, rejected: nat, unconnected: nat)

  datatype Endpoint = Endpoint(
    port: int,
    running: bool,
    handler: Handler,
    stage: Stage<Origin>,
    back: seq<Back>,
    delivered: seq<Delivery>,
    tally: Tally)
  {
    function Player(): int {
      handler.expectedPlayer
    }
  }

  /** The sequences `tables`, `sends`, `gameSends` and `replies` are histories; the current token table is
      the last one.  The `pending` sets are what the network still holds. */
  datatype State = State(
    tables: seq<TokenTable>,
    endpoints: seq<Endpoint>,
    server: Stage<HopId>,
    serverRunning: bool,
    sources: SourceTable,
    serverBack: seq<Back>,
    now: int,
    sends: seq<ClientSend>,
    sendsPending: set<nat>,
    hopsPending: set<HopId>,
    gameSends: seq<GameSend>,
    gamePending: set<nat>,
    replies: seq<Answer>,
    repliesPending: set<nat>,
    stats: Collection,
    crashed: bool)

  // ---------------------------------------------------------------- an endpoint

  /** What a proxy publishes about traffic it lets through: the packet, and the player if a connection was
      made for it. */
  function TrafficEvents(port: int, player: int, connected: bool): seq<StatsEvent> {
    if connected then [ValidPacketProcessed(port), PlayerConnected(player)] else [ValidPacketProcessed(port)]
  }

  /** An endpoint handles one datagram, given what its traffic handler makes of it (`h` is the handler
      afterwards): the endpoint afterwards and the statistics events it publishes, in order. */
  function Handle(ep: Endpoint, h: Handler, r: Preprocessed, origin: Origin, client: Addr, port: Option<int>)
    : (Endpoint, seq<StatsEvent>)
  {
    var tally := ep.tally.(received := ep.tally.received + 1);
    var ep' := ep.(handler := h);
    match r
    case Command(result) =>
      (ep'.(tally := tally.(commands := tally.commands + 1)),
       if result.DegradationResult? then [DegradationUpdate(ep.port, result.percentage)] else [])
    case Degraded => (ep'.(tally := tally.(degraded := tally.degraded + 1)), [])
    case Invalid => (ep'.(tally := tally.(rejected := tally.rejected + 1)), [MalformedPacketProcessed(ep.port)])
    case Traffic(player, modified) =>
      var s := Accept(ep.stage, origin, player, modified, client, port);
      if s.None? then
        (ep'.(running := false, tally := tally.(unconnected := tally.unconnected + 1)),
         TrafficEvents(ep.port, player, false))
      else
        (ep'.(stage := s.value, tally := tally), TrafficEvents(ep.port, player, player !in ep.stage.pool.conns))
    case Crash => (ep', [])
  }

  /** An endpoint handles the oldest packet of its channel: it goes to the client recorded for the
      connection's port unless it is degraded. */
  function Deliver(ep: Endpoint, draw: int): Endpoint
    requires ep.back != []
  {
    var b := ep.back[0];
    var client := ep.stage.pool.ClientOf(b.port);
    if client.None? || ShouldDrop(ep.handler.degradation, draw) then ep.(back := ep.back[1..])
    else ep.(back := ep.back[1..], delivered := ep.delivered + [Delivery(client.value, b.data, b.id)])
  }

  // ---------------------------------------------------------------- the steps

  datatype Event =
    | ClientSends(endpoint: nat, client: Addr, data: string)
    | EndpointReceives(endpoint: nat, send: nat, draw: int, port: Option<int>)
    | EndpointWrites(endpoint: nat)
    | ServerReceives(hop: HopId, port: Option<int>)
    | ServerWrites(player: int)
    | GameSends(toPort: int, data: string)
    | ServerSocketReads(gameSend: nat)
    | ServerForwards
    | EndpointSocketReads(endpoint: nat, ret: nat)
    | EndpointDelivers(endpoint: nat, draw: int)
    | Tick(elapsed: nat)
    | StatsProcessed

  function Current(s: State): TokenTable
    requires s.tables != []
  {
    s.tables[|s.tables| - 1]
  }

  /** No socket of any proxy is bound to port `q`. */
  ghost predicate PortFree(s: State, q: int) {
    q !in s.server.pool.infos && forall e | 0 <= e < |s.endpoints| :: q !in s.endpoints[e].stage.pool.infos
  }

  /** Which steps can happen. */
  ghost predicate Enabled(s: State, ev: Event) {
    !s.crashed && s.tables != [] && |Current(s).base64Tokens| == |Current(s).decodedTokens| &&
    match ev
    case ClientSends(e, _, _) => e < |s.endpoints|
    case EndpointReceives(e, id, _, port) =>
      && e < |s.endpoints| && s.endpoints[e].running
      && id < |s.sends| && id in s.sendsPending && s.sends[id].endpoint == e
      && (port.Some? ==> PortFree(s, port.value))
    case EndpointWrites(e) => e < |s.endpoints| && s.endpoints[e].stage.pool.QueueOf(s.endpoints[e].Player()) != []
    case ServerReceives(hop, port) =>
      && s.serverRunning && hop in s.hopsPending
      && hop.endpoint < |s.endpoints| && hop.index < |s.endpoints[hop.endpoint].stage.written|
      && (port.Some? ==> PortFree(s, port.value))
    case ServerWrites(p) => s.server.pool.QueueOf(p) != []
    case GameSends(_, _) => true
    case ServerSocketReads(id) =>
      id < |s.gameSends| && id in s.gamePending && s.gameSends[id].port in s.server.pool.infos && |s.serverBack| < BUFFER_SIZE
    case ServerForwards => s.serverRunning && s.serverBack != []
    case EndpointSocketReads(e, r) =>
      && e < |s.endpoints| && r < |s.replies| && r in s.repliesPending
      && s.replies[r].to in s.endpoints[e].stage.pool.infos && |s.endpoints[e].back| < BUFFER_SIZE
    case EndpointDelivers(e, _) => e < |s.endpoints| && s.endpoints[e].running && s.endpoints[e].back != []
    case Tick(_) => true
    case StatsProcessed => true
  }

  ghost function DoClientSends(s: State, e: nat, client: Addr, data: string): State {
    s.(sends := s.sends + [ClientSend(e, client, data)], sendsPending := s.sendsPending + {|s.sends|})
  }

  ghost function DoEndpointReceives(s: State, e: nat, id: nat, draw: int, port: Option<int>): State
    requires Enabled(s, EndpointReceives(e, id, draw, port))
  {
    var send := s.sends[id];
    var (h, t, r) := Preprocess(s.endpoints[e].handler, Current(s), Truncate(send.data), draw);
    var (ep, events) := Handle(s.endpoints[e], h, r, Origin(id, |s.tables| - 1), send.client, port);
    s.(endpoints := s.endpoints[e := ep],
       tables := if t == Current(s) then s.tables else s.tables + [t],
       sendsPending := s.sendsPending - {id},
       stats := PublishAll(s.stats, events),
       crashed := r.Crash?)
  }

  ghost function DoEndpointWrites(s: State, e: nat): State
    requires Enabled(s, EndpointWrites(e))
  {
    var ep := s.endpoints[e];
    s.(endpoints := s.endpoints[e := ep.(stage := Write(ep.stage, ep.Player()))],
       hopsPending := s.hopsPending + {HopId(e, |ep.stage.written|)})
  }

  /** The server-side proxy notes where the packet came from and queues it for the player's connection. */
  ghost function ServerAccepts(s: State, hop: HopId, player: int, data: string, from: int, port: Option<int>): State {
    var server := Accept(s.server, hop, player, data, from, port);
    var connected := server.Some? && player !in s.server.pool.conns;
    s.(sources := Receive(s.sources, player, from, s.now),
       server := if server.Some? then server.value else s.server,
       serverRunning := s.serverRunning && server.Some?,
       stats := PublishAll(s.stats, TrafficEvents(SERVER_PROXY_PORT, player, connected)))
  }

  ghost function DoServerReceives(s: State, hop: HopId, port: Option<int>): State
    requires Enabled(s, ServerReceives(hop, port))
  {
    var w := s.endpoints[hop.endpoint].stage.written[hop.index];
    var parsed := ParseServerSideToken(Truncate(w.data));
    var s' := s.(hopsPending := s.hopsPending - {hop});
    if parsed.None? then s'.(stats := PublishAll(s.stats, [MalformedPacketProcessed(SERVER_PROXY_PORT)]))
    else ServerAccepts(s', hop, parsed.value.0, parsed.value.1, w.port, port)
  }

  ghost function DoServerWrites(s: State, p: int): State
    requires Enabled(s, ServerWrites(p))
  {
    s.(server := Write(s.server, p))
  }

  ghost function DoServerSocketReads(s: State, id: nat): State
    requires Enabled(s, ServerSocketReads(id))
  {
    var g := s.gameSends[id];
    s.(gamePending := s.gamePending - {id}, serverBack := s.serverBack + [Back(g.port, Truncate(g.data), id)])
  }

  ghost function DoServerForwards(s: State): State
    requires Enabled(s, ServerForwards)
  {
    var b := s.serverBack[0];
    var s' := s.(serverBack := s.serverBack[1..]);
    var owner := s.server.pool.OwnerOf(b.port);
    if owner.None? then s'
    else
      var (sources, outcome) := Send(s.sources, owner.value, s.now);
      match outcome
      case Blocked => s'.(sources := sources)
      case Sent(addr) =>
        s'.(sources := sources, replies := s.replies + [Answer(addr, b.data, b.id)],
            repliesPending := s.repliesPending + {|s.replies|})
      case Fault => s'.(sources := sources, crashed := true)
  }

  ghost function DoEndpointSocketReads(s: State, e: nat, r: nat): State
    requires Enabled(s, EndpointSocketReads(e, r))
  {
    var ret := s.replies[r];
    var ep := s.endpoints[e];
    s.(endpoints := s.endpoints[e := ep.(back := ep.back + [Back(ret.to, Truncate(ret.data), ret.id)])],
       repliesPending := s.repliesPending - {r})
  }

  ghost function DoEndpointDelivers(s: State, e: nat, draw: int): State
    requires Enabled(s, EndpointDelivers(e, draw))
  {
    s.(endpoints := s.endpoints[e := Deliver(s.endpoints[e], draw)])
  }

  ghost function Step(s: State, ev: Event): State {
    if !Enabled(s, ev) then s
    else
      match ev
      case ClientSends(e, client, data) => DoClientSends(s, e, client, data)
      case EndpointReceives(e, id, draw, port) => DoEndpointReceives(s, e, id, draw, port)
      case EndpointWrites(e) => DoEndpointWrites(s, e)
      case ServerReceives(hop, port) => DoServerReceives(s, hop, port)
      case ServerWrites(p) => DoServerWrites(s, p)
      case GameSends(port, data) =>
        s.(gameSends := s.gameSends + [GameSend(port, data)], gamePending := s.gamePending + {|s.gameSends|})
      case ServerSocketReads(id) => DoServerSocketReads(s, id)
      case ServerForwards => DoServerForwards(s)
      case EndpointSocketReads(e, r) => DoEndpointSocketReads(s, e, r)
      case EndpointDelivers(e, draw) => DoEndpointDelivers(s, e, draw)
      case Tick(elapsed) => s.(now := s.now + elapsed)
      case StatsProcessed => s.(stats := ProcessNext(s.stats))
  }

  ghost function Run(s: State, evs: seq<Event>): State {
    if evs == [] then s else Step(Run(s, evs[..|evs| - 1]), evs[|evs| - 1])
  }

  /** The relay right after it was set up: `endpoints` tells the port and the player of each endpoint. */
  function NewEndpoint(port: int, player: int): Endpoint {
    Endpoint(port, true, Handler(player, 0, []), NewStage(), [], [], Tally(0, 0, 0, 0, 0))
  }

  ghost predicate Initial(s: State) {
    && |s.tables| == 1 && s.tables[0].Inverse() && s.tables[0].Matching()
    && (forall e | 0 <= e < |s.endpoints| :: s.endpoints[e] == NewEndpoint(s.endpoints[e].port, s.endpoints[e].Player()))
    && (forall e, f | 0 <= e < f < |s.endpoints| :: s.endpoints[e].port != s.endpoints[f].port)
    && (forall e | 0 <= e < |s.endpoints| :: s.endpoints[e].port != SERVER_PROXY_PORT)
    && s.server == NewStage() && s.serverRunning && s.sources == EMPTY && s.serverBack == []
    && s.sends == [] && s.sendsPending == {} && s.hopsPending == {}
    && s.gameSends == [] && s.gamePending == {} && s.replies == [] && s.repliesPending == {}
    && s.stats.channel == [] && (forall q :: s.stats.counters.Valid(q) == 0 && s.stats.counters.Malformed(q) == 0)
    && !s.crashed
  }
}
