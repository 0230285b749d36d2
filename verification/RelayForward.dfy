/** Client to game server: every packet the game server gets from a player's port is one that some client
    sent to one of that player's endpoints behind that player's token, and no packet gets there twice. */
module RelayForward {
  import opened Text
  import opened Tokens
  import opened Commands
  import opened Connections
  import opened Stages
  import opened Relay

  // ---------------------------------------------------------------- the invariant

  ghost predicate TablesOk(tables: seq<TokenTable>) {
    tables != [] && forall v | 0 <= v < |tables| :: tables[v].Inverse() && tables[v].Matching()
  }

  /** `data` is the token of player `p` followed by game data; `modified` is what the second hop reads as
      player `p` and that game data. */
  ghost predicate PlayerTraffic(t: TokenTable, p: int, data: string, modified: string) {
    && t.HasPlayer(p) && |data| >= GENERATED_TOKEN_LENGTH
    && data[..GENERATED_TOKEN_LENGTH] == t.decodedTokens[p - 1]
    && ParseServerSideToken(modified) == Some((p, data[GENERATED_TOKEN_LENGTH..]))
    && |modified| <= BUFFER_SIZE
  }

  /** An entry an endpoint accepted really came from a client. */
  ghost predicate Genuine(a: Accepted<Origin>, e: nat, p: int, sends: seq<ClientSend>, tables: seq<TokenTable>) {
    && a.player == p
    && a.id.send < |sends| && sends[a.id.send].endpoint == e
    && a.id.version < |tables|
    && PlayerTraffic(tables[a.id.version], p, Truncate(sends[a.id.send].data), a.data)
  }

  ghost predicate AllGenuine(accepted: seq<Accepted<Origin>>, e: nat, p: int, sends: seq<ClientSend>, tables: seq<TokenTable>) {
    forall i | 0 <= i < |accepted| :: Genuine(accepted[i], e, p, sends, tables)
  }

  /** Every datagram was taken from the network at most once. */
  ghost predicate SendsTakenOnce(accepted: seq<Accepted<Origin>>, pending: set<nat>) {
    && (forall i | 0 <= i < |accepted| :: accepted[i].id.send !in pending)
    && (forall i, j | 0 <= i < j < |accepted| :: accepted[i].id.send != accepted[j].id.send)
  }

  ghost predicate HandlerOk(ep: Endpoint) {
    && StageInv(ep.stage) && ep.stage.pool.conns.Keys <= {ep.Player()}
    && MIN_DEGRADATION <= ep.handler.degradation <= MAX_DEGRADATION
  }

  ghost predicate EndpointOk(ep: Endpoint, e: nat, sends: seq<ClientSend>, pending: set<nat>, tables: seq<TokenTable>) {
    && HandlerOk(ep)
    && AllGenuine(ep.stage.accepted, e, ep.Player(), sends, tables)
    && SendsTakenOnce(ep.stage.accepted, pending)
  }

  ghost predicate EndpointsOk(endpoints: seq<Endpoint>, sends: seq<ClientSend>, pending: set<nat>, tables: seq<TokenTable>) {
    && TablesOk(tables)
    && (forall id | id in pending :: id < |sends|)
    && forall e | 0 <= e < |endpoints| :: EndpointOk(endpoints[e], e, sends, pending, tables)
  }

  ghost predicate HopExists(h: HopId, endpoints: seq<Endpoint>) {
    h.endpoint < |endpoints| && h.index < |endpoints[h.endpoint].stage.written|
  }

  /** What the server-side proxy accepted is what it read from the datagram an endpoint wrote. */
  ghost predicate HopGenuine(a: Accepted<HopId>, endpoints: seq<Endpoint>) {
    && HopExists(a.id, endpoints)
    && ParseServerSideToken(Truncate(endpoints[a.id.endpoint].stage.written[a.id.index].data)) == Some((a.player, a.data))
  }

  ghost predicate ServerOk(server: Stage<HopId>, pending: set<HopId>, endpoints: seq<Endpoint>) {
    && StageInv(server)
    && (forall h | h in pending :: HopExists(h, endpoints))
    && (forall i | 0 <= i < |server.accepted| :: HopGenuine(server.accepted[i], endpoints) && server.accepted[i].id !in pending)
    && (forall i, j | 0 <= i < j < |server.accepted| :: server.accepted[i].id != server.accepted[j].id)
  }

  ghost predicate ForwardInv(s: State) {
    EndpointsOk(s.endpoints, s.sends, s.sendsPending, s.tables) && ServerOk(s.server, s.hopsPending, s.endpoints)
  }

  // ---------------------------------------------------------------- how the relay grows

  /** The endpoints stay the same ones, and what they wrote is only added to. */
  ghost predicate WritesGrow(a: seq<Endpoint>, b: seq<Endpoint>) {
    && |a| == |b|
    && forall e | 0 <= e < |a| ::
         a[e].Player() == b[e].Player() && a[e].port == b[e].port && a[e].stage.written <= b[e].stage.written
  }

  lemma ServerOkFrame(server: Stage<HopId>, pending: set<HopId>, a: seq<Endpoint>, b: seq<Endpoint>)
    requires ServerOk(server, pending, a) && WritesGrow(a, b)
    ensures ServerOk(server, pending, b)
  {
    forall h | HopExists(h, a)
      ensures HopExists(h, b) && a[h.endpoint].stage.written[h.index] == b[h.endpoint].stage.written[h.index]
    {
    }
  }

  lemma EndpointOkFrame(ep: Endpoint, e: nat, sends: seq<ClientSend>, pending: set<nat>, tables: seq<TokenTable>,
                        sends': seq<ClientSend>, pending': set<nat>, tables': seq<TokenTable>)
    requires EndpointOk(ep, e, sends, pending, tables)
    requires sends <= sends' && tables <= tables' && forall id | id in pending' :: id in pending || id >= |sends|
    ensures EndpointOk(ep, e, sends', pending', tables')
  {
    forall i | 0 <= i < |ep.stage.accepted| ensures Genuine(ep.stage.accepted[i], e, ep.Player(), sends', tables') {
      assert Genuine(ep.stage.accepted[i], e, ep.Player(), sends, tables);
    }
  }

  // ---------------------------------------------------------------- an endpoint handles a datagram

  /** What handling a datagram can do to the forward path of an endpoint: at most one more accepted entry,
      with the token table that was current. */
  ghost predicate HandledOk(ep: Endpoint, ep': Endpoint, t: TokenTable, origin: Origin, data: string) {
    && HandlerOk(ep') && ep'.Player() == ep.Player() && ep'.port == ep.port
    && ep'.stage.written == ep.stage.written
    && (|| ep'.stage.accepted == ep.stage.accepted
        || (&& |ep'.stage.accepted| == |ep.stage.accepted| + 1
            && ep'.stage.accepted[..|ep.stage.accepted|] == ep.stage.accepted
            && var a := ep'.stage.accepted[|ep.stage.accepted|];
               a.id == origin && a.player == ep.Player() && PlayerTraffic(t, ep.Player(), data, a.data)))
  }

  lemma HandleOk(ep: Endpoint, h: Handler, r: Preprocessed, origin: Origin, client: int, port: Option<int>,
                 t: TokenTable, data: string)
    requires HandlerOk(ep) && (port.Some? ==> port.value !in ep.stage.pool.infos)
    requires h.expectedPlayer == ep.Player() && MIN_DEGRADATION <= h.degradation <= MAX_DEGRADATION
    requires r.Traffic? ==> r.player == ep.Player() && PlayerTraffic(t, ep.Player(), data, r.data)
    ensures HandledOk(ep, Handle(ep, h, r, origin, client, port).0, t, origin, data)
  {
    if r.Traffic? {
      AcceptOk(ep, origin, client, r.player, r.data, port);
    }
  }

  lemma PreprocessOk(h: Handler, t: TokenTable, data: string, draw: int)
    requires t.Inverse() && t.Matching() && |data| <= BUFFER_SIZE
    requires MIN_DEGRADATION <= h.degradation <= MAX_DEGRADATION
    ensures var (h', t', r) := Preprocess(h, t, data, draw);
            && t'.Inverse() && t'.Matching()
            && h'.expectedPlayer == h.expectedPlayer && MIN_DEGRADATION <= h'.degradation <= MAX_DEGRADATION
            && (r.Traffic? ==> r.player == h.expectedPlayer && PlayerTraffic(t, h.expectedPlayer, data, r.data))
  {
    PreprocessKeeps(h, t, data, draw);
    TrafficIff(h, t, data, draw);
  }

  lemma AcceptOk(ep: Endpoint, origin: Origin, client: int, player: int, data: string, port: Option<int>)
    requires HandlerOk(ep) && player == ep.Player()
    requires port.Some? ==> port.value !in ep.stage.pool.infos
    ensures var s := Accept(ep.stage, origin, player, data, client, port);
            s.Some? ==>
              && StageInv(s.value) && s.value.pool.conns.Keys <= {player}
              && s.value.written == ep.stage.written
              && |s.value.accepted| == |ep.stage.accepted| + 1
              && s.value.accepted[..|ep.stage.accepted|] == ep.stage.accepted
              && var a := s.value.accepted[|ep.stage.accepted|];
                 a.id == origin && a.player == player && a.data == data
  {
    if Accept(ep.stage, origin, player, data, client, port).Some? {
      AcceptKeeps(ep.stage, origin, player, data, client, port);
      EnqueueEffect(ep.stage.pool, player, client, port, Queued(|ep.stage.accepted|, data));
    }
  }

  lemma HandledEndpointOk(ep: Endpoint, ep': Endpoint, e: nat, id: nat, sends: seq<ClientSend>, pending: set<nat>,
                          tables: seq<TokenTable>)
    requires EndpointOk(ep, e, sends, pending, tables) && tables != []
    requires id < |sends| && id in pending && sends[id].endpoint == e
    requires HandledOk(ep, ep', tables[|tables| - 1], Origin(id, |tables| - 1), Truncate(sends[id].data))
    ensures EndpointOk(ep', e, sends, pending - {id}, tables)
  {
    hide PlayerTraffic, StageInv;
    var acc, acc' := ep.stage.accepted, ep'.stage.accepted;
    if acc' != acc {
      assert acc' == acc + [acc'[|acc|]];
      GenuineSnoc(acc, acc'[|acc|], e, ep.Player(), sends, tables);
      TakenSnoc(acc, acc'[|acc|], pending);
    } else {
      assert SendsTakenOnce(acc, pending - {id});
    }
  }

  lemma GenuineSnoc(acc: seq<Accepted<Origin>>, a: Accepted<Origin>, e: nat, p: int, sends: seq<ClientSend>, tables: seq<TokenTable>)
    requires AllGenuine(acc, e, p, sends, tables) && Genuine(a, e, p, sends, tables)
    ensures AllGenuine(acc + [a], e, p, sends, tables)
  {
  }

  lemma TakenSnoc(acc: seq<Accepted<Origin>>, a: Accepted<Origin>, pending: set<nat>)
    requires SendsTakenOnce(acc, pending) && a.id.send in pending
    ensures SendsTakenOnce(acc + [a], pending - {a.id.send})
  {
  }

  /** One endpoint handled a datagram; possibly the token table changed. */
  lemma ReplaceEndpointOk(endpoints: seq<Endpoint>, e: nat, ep: Endpoint, id: nat, sends: seq<ClientSend>, pending: set<nat>,
                          tables: seq<TokenTable>, tables': seq<TokenTable>)
    requires EndpointsOk(endpoints, sends, pending, tables) && e < |endpoints|
    requires EndpointOk(ep, e, sends, pending - {id}, tables)
    requires tables <= tables' && TablesOk(tables')
    ensures EndpointsOk(endpoints[e := ep], sends, pending - {id}, tables')
  {
    var endpoints' := endpoints[e := ep];
    forall f | 0 <= f < |endpoints'| ensures EndpointOk(endpoints'[f], f, sends, pending - {id}, tables') {
      if f == e {
        EndpointOkFrame(ep, f, sends, pending - {id}, tables, sends, pending - {id}, tables');
      } else {
        EndpointOkFrame(endpoints[f], f, sends, pending, tables, sends, pending - {id}, tables');
      }
    }
  }

  lemma ReceiveOk(s: State, e: nat, id: nat, draw: int, port: Option<int>)
    requires ForwardInv(s) && e < |s.endpoints| && id < |s.sends| && id in s.sendsPending && s.sends[id].endpoint == e
    requires port.Some? ==> port.value !in s.endpoints[e].stage.pool.infos
    ensures var (h, t, r) := Preprocess(s.endpoints[e].handler, Current(s), Truncate(s.sends[id].data), draw);
            var ep := Handle(s.endpoints[e], h, r, Origin(id, |s.tables| - 1), s.sends[id].client, port).0;
            var tables := if t == Current(s) then s.tables else s.tables + [t];
            && EndpointsOk(s.endpoints[e := ep], s.sends, s.sendsPending - {id}, tables)
            && ep.Player() == s.endpoints[e].Player() && ep.port == s.endpoints[e].port
            && ep.stage.written == s.endpoints[e].stage.written
  {
    var ep := s.endpoints[e];
    assert EndpointOk(ep, e, s.sends, s.sendsPending, s.tables);
    ReceiveOkAt(s.endpoints, ep, e, s.sends, id, s.sendsPending, s.tables, draw, port);
  }

  lemma ReceiveOkAt(endpoints: seq<Endpoint>, ep: Endpoint, e: nat, sends: seq<ClientSend>, id: nat, pending: set<nat>,
                    tables: seq<TokenTable>, draw: int, port: Option<int>)
    requires EndpointsOk(endpoints, sends, pending, tables) && EndpointOk(ep, e, sends, pending, tables)
    requires e < |endpoints| && ep == endpoints[e] && id < |sends| && id in pending && sends[id].endpoint == e
    requires port.Some? ==> port.value !in ep.stage.pool.infos
    ensures var (h, t, r) := Preprocess(ep.handler, tables[|tables| - 1], Truncate(sends[id].data), draw);
            var ep' := Handle(ep, h, r, Origin(id, |tables| - 1), sends[id].client, port).0;
            var tables' := if t == tables[|tables| - 1] then tables else tables + [t];
            && EndpointsOk(endpoints[e := ep'], sends, pending - {id}, tables')
            && ep'.Player() == ep.Player() && ep'.port == ep.port && ep'.stage.written == ep.stage.written
  {
    hide Preprocess, Handle, PlayerTraffic, AllGenuine;
    var current, data, origin := tables[|tables| - 1], Truncate(sends[id].data), Origin(id, |tables| - 1);
    PreprocessOk(ep.handler, current, data, draw);
    var (h, t, r) := Preprocess(ep.handler, current, data, draw);
    HandleOk(ep, h, r, origin, sends[id].client, port, current, data);
    var ep' := Handle(ep, h, r, origin, sends[id].client, port).0;
    HandledEndpointOk(ep, ep', e, id, sends, pending, tables);
    ReplaceEndpointOk(endpoints, e, ep', id, sends, pending, tables, if t == current then tables else tables + [t]);
  }

  // ---------------------------------------------------------------- the other steps

  lemma EndpointWriteOk(ep: Endpoint, e: nat, sends: seq<ClientSend>, pending: set<nat>, tables: seq<TokenTable>)
    requires EndpointOk(ep, e, sends, pending, tables) && ep.stage.pool.QueueOf(ep.Player()) != []
    ensures EndpointOk(ep.(stage := Write(ep.stage, ep.Player())), e, sends, pending, tables)
  {
    WriteKeeps(ep.stage, ep.Player());
  }

  lemma EndpointsWriteOk(endpoints: seq<Endpoint>, e: nat, sends: seq<ClientSend>, pending: set<nat>, tables: seq<TokenTable>)
    requires EndpointsOk(endpoints, sends, pending, tables)
    requires e < |endpoints| && endpoints[e].stage.pool.QueueOf(endpoints[e].Player()) != []
    ensures EndpointsOk(endpoints[e := endpoints[e].(stage := Write(endpoints[e].stage, endpoints[e].Player()))],
                        sends, pending, tables)
  {
    assert EndpointOk(endpoints[e], e, sends, pending, tables);
    EndpointWriteOk(endpoints[e], e, sends, pending, tables);
  }

  lemma NewHopOk(server: Stage<HopId>, pending: set<HopId>, a: seq<Endpoint>, b: seq<Endpoint>, h: HopId)
    requires ServerOk(server, pending, a) && WritesGrow(a, b) && !HopExists(h, a) && HopExists(h, b)
    ensures ServerOk(server, pending + {h}, b)
  {
    ServerOkFrame(server, pending, a, b);
    forall i | 0 <= i < |server.accepted| ensures server.accepted[i].id != h {
      assert HopGenuine(server.accepted[i], a);
    }
  }

  lemma ServerReceiveOk(server: Stage<HopId>, pending: set<HopId>, endpoints: seq<Endpoint>, hop: HopId, client: int,
                        port: Option<int>)
    requires ServerOk(server, pending, endpoints) && hop in pending && HopExists(hop, endpoints)
    requires port.Some? ==> port.value !in server.pool.infos
    ensures var parsed := ParseServerSideToken(Truncate(endpoints[hop.endpoint].stage.written[hop.index].data));
            && ServerOk(server, pending - {hop}, endpoints)
            && (parsed.Some? ==>
                  var server' := Accept(server, hop, parsed.value.0, parsed.value.1, client, port);
                  server'.Some? ==> ServerOk(server'.value, pending - {hop}, endpoints))
  {
    var parsed := ParseServerSideToken(Truncate(endpoints[hop.endpoint].stage.written[hop.index].data));
    if parsed.Some? {
      ServerAcceptOk(server, pending, endpoints, hop, parsed.value.0, parsed.value.1, client, port);
    }
  }

  lemma ServerAcceptOk(server: Stage<HopId>, pending: set<HopId>, endpoints: seq<Endpoint>, hop: HopId, player: int, data: string,
                       client: int, port: Option<int>)
    requires ServerOk(server, pending, endpoints) && hop in pending
    requires HopGenuine(Accepted.Accepted(hop, player, data, true), endpoints)
    requires port.Some? ==> port.value !in server.pool.infos
    ensures var server' := Accept(server, hop, player, data, client, port);
            server'.Some? ==> ServerOk(server'.value, pending - {hop}, endpoints)
  {
    hide ParseServerSideToken, InOrder;
    var r := Accept(server, hop, player, data, client, port);
    if r.Some? {
      AcceptKeeps(server, hop, player, data, client, port);
      var acc, a := server.accepted, r.value.accepted[|server.accepted|];
      assert r.value.accepted == acc + [a];
      assert HopGenuine(a, endpoints);
    }
  }

  lemma ServerWriteOk(server: Stage<HopId>, pending: set<HopId>, endpoints: seq<Endpoint>, p: int)
    requires ServerOk(server, pending, endpoints) && server.pool.QueueOf(p) != []
    ensures ServerOk(Write(server, p), pending, endpoints)
  {
    WriteKeeps(server, p);
  }

  lemma ClientSendOk(endpoints: seq<Endpoint>, sends: seq<ClientSend>, pending: set<nat>, tables: seq<TokenTable>, send: ClientSend)
    requires EndpointsOk(endpoints, sends, pending, tables)
    ensures EndpointsOk(endpoints, sends + [send], pending + {|sends|}, tables)
  {
    forall f | 0 <= f < |endpoints| ensures EndpointOk(endpoints[f], f, sends + [send], pending + {|sends|}, tables) {
      EndpointOkFrame(endpoints[f], f, sends, pending, tables, sends + [send], pending + {|sends|}, tables);
    }
  }

  /** A step that touches nothing on the forward path. */
  ghost predicate SameForward(a: seq<Endpoint>, b: seq<Endpoint>) {
    |a| == |b| && forall e | 0 <= e < |a| :: a[e].stage == b[e].stage && a[e].handler == b[e].handler && a[e].port == b[e].port
  }

  lemma SameForwardOk(s: State, s': State)
    requires ForwardInv(s) && SameForward(s.endpoints, s'.endpoints)
    requires s'.tables == s.tables && s'.sends == s.sends && s'.sendsPending == s.sendsPending
    requires s'.server == s.server && s'.hopsPending == s.hopsPending
    ensures ForwardInv(s') && WritesGrow(s.endpoints, s'.endpoints)
  {
    hide ServerOk, AllGenuine, SendsTakenOnce, StageInv;
    forall e | 0 <= e < |s'.endpoints| ensures EndpointOk(s'.endpoints[e], e, s'.sends, s'.sendsPending, s'.tables) {
      assert EndpointOk(s.endpoints[e], e, s.sends, s.sendsPending, s.tables);
    }
    ServerOkFrame(s.server, s.hopsPending, s.endpoints, s'.endpoints);
  }

  // ---------------------------------------------------------------- every step

  ghost predicate Advances(s: State, s': State) {
    ForwardInv(s') && WritesGrow(s.endpoints, s'.endpoints)
  }

  lemma ClientSendsAdvances(s: State, e: nat, client: int, data: string)
    requires ForwardInv(s) && Enabled(s, ClientSends(e, client, data))
    ensures Advances(s, DoClientSends(s, e, client, data))
  {
    ClientSendOk(s.endpoints, s.sends, s.sendsPending, s.tables, ClientSend(e, client, data));
  }

  lemma EndpointReceivesAdvances(s: State, e: nat, id: nat, draw: int, port: Option<int>)
    requires ForwardInv(s) && Enabled(s, EndpointReceives(e, id, draw, port))
    ensures Advances(s, DoEndpointReceives(s, e, id, draw, port))
  {
    hide Preprocess, Handle, EndpointsOk, ServerOk;
    ReceiveOk(s, e, id, draw, port);
    var s' := DoEndpointReceives(s, e, id, draw, port);
    assert WritesGrow(s.endpoints, s'.endpoints);
    ServerOkFrame(s.server, s.hopsPending, s.endpoints, s'.endpoints);
  }

  lemma EndpointWritesAdvances(s: State, e: nat)
    requires ForwardInv(s) && Enabled(s, EndpointWrites(e))
    ensures Advances(s, DoEndpointWrites(s, e))
  {
    hide EndpointsOk, ServerOk;
    EndpointsWriteOk(s.endpoints, e, s.sends, s.sendsPending, s.tables);
    var s' := DoEndpointWrites(s, e);
    assert WritesGrow(s.endpoints, s'.endpoints);
    NewHopOk(s.server, s.hopsPending, s.endpoints, s'.endpoints, HopId(e, |s.endpoints[e].stage.written|));
  }

  lemma ServerReceivesAdvances(s: State, hop: HopId, port: Option<int>)
    requires ForwardInv(s) && Enabled(s, ServerReceives(hop, port))
    ensures Advances(s, DoServerReceives(s, hop, port))
  {
    hide ParseServerSideToken, EndpointsOk, ServerOk, Accept;
    ServerReceiveOk(s.server, s.hopsPending, s.endpoints, hop, s.endpoints[hop.endpoint].stage.written[hop.index].port, port);
  }

  lemma ServerWritesAdvances(s: State, p: int)
    requires ForwardInv(s) && Enabled(s, ServerWrites(p))
    ensures Advances(s, DoServerWrites(s, p))
  {
    ServerWriteOk(s.server, s.hopsPending, s.endpoints, p);
  }

  lemma ServerSocketReadsAdvances(s: State, id: nat)
    requires ForwardInv(s) && Enabled(s, ServerSocketReads(id))
    ensures Advances(s, DoServerSocketReads(s, id))
  {
    hide ForwardInv;
    SameForwardOk(s, DoServerSocketReads(s, id));
  }

  lemma ServerForwardsAdvances(s: State)
    requires ForwardInv(s) && Enabled(s, ServerForwards)
    ensures Advances(s, DoServerForwards(s))
  {
    hide ForwardInv, WritesGrow;
    SameForwardOk(s, DoServerForwards(s));
  }

  lemma EndpointSocketReadsAdvances(s: State, e: nat, r: nat)
    requires ForwardInv(s) && Enabled(s, EndpointSocketReads(e, r))
    ensures Advances(s, DoEndpointSocketReads(s, e, r))
  {
    hide ForwardInv;
    SameForwardOk(s, DoEndpointSocketReads(s, e, r));
  }

  lemma EndpointDeliversAdvances(s: State, e: nat, draw: int)
    requires ForwardInv(s) && Enabled(s, EndpointDelivers(e, draw))
    ensures Advances(s, DoEndpointDelivers(s, e, draw))
  {
    hide ForwardInv;
    SameForwardOk(s, DoEndpointDelivers(s, e, draw));
  }

  lemma EnvironmentAdvances(s: State, ev: Event)
    requires ForwardInv(s) && (ev.GameSends? || ev.Tick? || ev.StatsProcessed?)
    ensures Advances(s, Step(s, ev))
  {
    hide EndpointsOk, ServerOk;
  }

  lemma SameAdvances(s: State)
    requires ForwardInv(s)
    ensures Advances(s, s)
  {
  }

  lemma StepAdvances(s: State, ev: Event)
    requires ForwardInv(s)
    ensures Advances(s, Step(s, ev))
  {
    hide ForwardInv, Advances;
    if !Enabled(s, ev) {
      SameAdvances(s);
    } else {
      match ev {
        case ClientSends(e, client, data) => ClientSendsAdvances(s, e, client, data);
        case EndpointReceives(e, id, draw, port) => EndpointReceivesAdvances(s, e, id, draw, port);
        case EndpointWrites(e) => EndpointWritesAdvances(s, e);
        case ServerReceives(hop, port) => ServerReceivesAdvances(s, hop, port);
        case ServerWrites(p) => ServerWritesAdvances(s, p);
        case ServerSocketReads(id) => ServerSocketReadsAdvances(s, id);
        case ServerForwards => ServerForwardsAdvances(s);
        case EndpointSocketReads(e, r) => EndpointSocketReadsAdvances(s, e, r);
        case EndpointDelivers(e, draw) => EndpointDeliversAdvances(s, e, draw);
        case _ => EnvironmentAdvances(s, ev);
      }
    }
  }

  lemma {:induction false} ForwardAlways(s: State, evs: seq<Event>)
    requires Initial(s)
    ensures Advances(s, Run(s, evs))
  {
    if evs == [] {
      InitialForward(s);
    } else {
      ForwardAlways(s, evs[..|evs| - 1]);
      StepAdvances(Run(s, evs[..|evs| - 1]), evs[|evs| - 1]);
    }
  }

  lemma InitialForward(s: State)
    requires Initial(s)
    ensures ForwardInv(s)
  {
    NewStageInv<Origin>();
    NewStageInv<HopId>();
    forall e | 0 <= e < |s.endpoints| ensures EndpointOk(s.endpoints[e], e, s.sends, s.sendsPending, s.tables) {
      assert s.endpoints[e] == NewEndpoint(s.endpoints[e].port, s.endpoints[e].Player());
    }
  }

  // ---------------------------------------------------------------- isolation

  /** What the server-side proxy wrote is what it accepted, for that player, from the player's own port. */
  lemma ServerEntry(server: Stage<HopId>, pending: set<HopId>, endpoints: seq<Endpoint>, i: nat)
    requires ServerOk(server, pending, endpoints) && i < |server.written|
    ensures var w := server.written[i];
            && server.pool.OwnerOf(w.port) == Some(w.player)
            && w.index < |server.accepted|
            && server.accepted[w.index].player == w.player && server.accepted[w.index].data == w.data
            && HopGenuine(server.accepted[w.index], endpoints)
  {
    assert server.written[i] in server.written;
  }

  /** What an endpoint wrote is what it accepted, and that came from a client. */
  lemma EndpointEntry(ep: Endpoint, e: nat, sends: seq<ClientSend>, pending: set<nat>, tables: seq<TokenTable>, k: nat)
    requires EndpointOk(ep, e, sends, pending, tables) && k < |ep.stage.written|
    ensures var x := ep.stage.written[k];
            && x.index < |ep.stage.accepted| && x.data == ep.stage.accepted[x.index].data
            && Genuine(ep.stage.accepted[x.index], e, ep.Player(), sends, tables)
  {
    assert ep.stage.written[k] in ep.stage.written;
  }

  /** The datagram an endpoint wrote that the server-side proxy's `i`-th packet came from. */
  ghost function HopOf(s: State, i: nat): (h: HopId)
    requires ForwardInv(s) && i < |s.server.written|
    ensures HopExists(h, s.endpoints)
  {
    ServerEntry(s.server, s.hopsPending, s.endpoints, i);
    s.server.accepted[s.server.written[i].index].id
  }

  /** The client datagram behind a datagram an endpoint wrote. */
  ghost function OriginOfHop(s: State, h: HopId): (o: Origin)
    requires ForwardInv(s) && HopExists(h, s.endpoints)
    ensures o.send < |s.sends| && s.sends[o.send].endpoint == h.endpoint
  {
    var ep := s.endpoints[h.endpoint];
    EndpointEntry(ep, h.endpoint, s.sends, s.sendsPending, s.tables, h.index);
    ep.stage.accepted[ep.stage.written[h.index].index].id
  }

  /** The client datagram behind the server-side proxy's `i`-th packet to the game server. */
  ghost function OriginOf(s: State, i: nat): Origin
    requires ForwardInv(s) && i < |s.server.written|
  {
    OriginOfHop(s, HopOf(s, i))
  }

  /** The `i`-th packet to the game server left from its player's own port, and some client had sent the
      player's token, the one in force when it was checked, followed by exactly that data, to one of the
      player's own endpoints. */
  ghost predicate Isolated(s: State, i: nat)
    requires ForwardInv(s) && i < |s.server.written|
  {
    var w := s.server.written[i];
    var o := OriginOf(s, i);
    var e := HopOf(s, i).endpoint;
    && s.server.pool.OwnerOf(w.port) == Some(w.player)
    && s.endpoints[e].Player() == w.player
    && o.send < |s.sends| && s.sends[o.send].endpoint == e
    && o.version < |s.tables| && s.tables[o.version].HasPlayer(w.player)
    && |s.tables[o.version].decodedTokens[w.player - 1]| == GENERATED_TOKEN_LENGTH
    && Truncate(s.sends[o.send].data) == s.tables[o.version].decodedTokens[w.player - 1] + w.data
  }

  lemma GenuineReadsBack(a: Accepted<HopId>, b: Accepted<Origin>, e: nat, p: int, sends: seq<ClientSend>, tables: seq<TokenTable>)
    requires Genuine(b, e, p, sends, tables)
    requires ParseServerSideToken(Truncate(b.data)) == Some((a.player, a.data))
    ensures a.player == p
    ensures var t := tables[b.id.version];
            && t.HasPlayer(p) && |t.decodedTokens[p - 1]| == GENERATED_TOKEN_LENGTH
            && Truncate(sends[b.id.send].data) == t.decodedTokens[p - 1] + a.data
  {
  }

  /** What the server-side proxy accepted from a hop, against the client datagram behind that hop. */
  lemma HopReadsBack(s: State, a: Accepted<HopId>)
    requires ForwardInv(s) && HopGenuine(a, s.endpoints)
    ensures var o := OriginOfHop(s, a.id);
            && s.endpoints[a.id.endpoint].Player() == a.player
            && o.version < |s.tables| && s.tables[o.version].HasPlayer(a.player)
            && |s.tables[o.version].decodedTokens[a.player - 1]| == GENERATED_TOKEN_LENGTH
            && Truncate(s.sends[o.send].data) == s.tables[o.version].decodedTokens[a.player - 1] + a.data
  {
    hide PlayerTraffic, ParseServerSideToken, TablesOk, SendsTakenOnce, HandlerOk;
    var h := a.id;
    var ep := s.endpoints[h.endpoint];
    EndpointEntry(ep, h.endpoint, s.sends, s.sendsPending, s.tables, h.index);
    GenuineReadsBack(a, ep.stage.accepted[ep.stage.written[h.index].index], h.endpoint, ep.Player(), s.sends, s.tables);
  }

  lemma IsolatedAt(s: State, i: nat)
    requires ForwardInv(s) && i < |s.server.written|
    ensures Isolated(s, i)
  {
    hide OriginOfHop, EndpointsOk, Genuine, HopGenuine, StageInv;
    ServerEntry(s.server, s.hopsPending, s.endpoints, i);
    HopReadsBack(s, s.server.accepted[s.server.written[i].index]);
  }

  // ---------------------------------------------------------------- when a token was checked

  /** What one step does to an endpoint's accepted packets: nothing, or it adds one, and then the step was the
      receipt of that datagram at that endpoint and its stamp is the token table of that moment. */
  ghost predicate AcceptsOne(s: State, ev: Event, s': State, e: nat)
    requires e < |s.endpoints| == |s'.endpoints|
  {
    var (before, after) := (s.endpoints[e].stage.accepted, s'.endpoints[e].stage.accepted);
    || after == before
    || (&& |after| == |before| + 1 && after[..|before|] == before
        && ev.EndpointReceives? && ev.endpoint == e && Enabled(s, ev)
        && after[|before|].id == Origin(ev.send, |s.tables| - 1))
  }

  /** The histories are only added to. */
  ghost predicate HistoriesGrow(s: State, s': State) {
    s.tables <= s'.tables && s.sends <= s'.sends && |s.endpoints| == |s'.endpoints|
  }

  lemma HandleAcceptsOne(ep: Endpoint, h: Handler, r: Preprocessed, origin: Origin, client: int, port: Option<int>)
    ensures var (before, after) := (ep.stage.accepted, Handle(ep, h, r, origin, client, port).0.stage.accepted);
            || after == before
            || (|after| == |before| + 1 && after[..|before|] == before && after[|before|].id == origin)
  {
  }

  lemma StepAccepts(s: State, ev: Event, e: nat)
    requires e < |s.endpoints|
    ensures HistoriesGrow(s, Step(s, ev)) && AcceptsOne(s, ev, Step(s, ev), e)
  {
    if Enabled(s, ev) {
      match ev {
        case EndpointReceives(f, id, draw, port) => ReceiveAccepts(s, f, id, draw, port, e);
        case EndpointWrites(f) =>
        case ServerReceives(hop, port) => ServerKeepsAccepted(s, hop, port);
        case _ =>
      }
    }
  }

  lemma ReceiveAccepts(s: State, f: nat, id: nat, draw: int, port: Option<int>, e: nat)
    requires e < |s.endpoints| && Enabled(s, EndpointReceives(f, id, draw, port))
    ensures var s' := DoEndpointReceives(s, f, id, draw, port);
            HistoriesGrow(s, s') && AcceptsOne(s, EndpointReceives(f, id, draw, port), s', e)
  {
    var send := s.sends[id];
    var (h, t, r) := Preprocess(s.endpoints[f].handler, Current(s), Truncate(send.data), draw);
    hide Preprocess, Handle;
    HandleAcceptsOne(s.endpoints[f], h, r, Origin(id, |s.tables| - 1), send.client, port);
  }

  lemma ServerKeepsAccepted(s: State, hop: HopId, port: Option<int>)
    requires Enabled(s, ServerReceives(hop, port))
    ensures var s' := DoServerReceives(s, hop, port);
            s'.endpoints == s.endpoints && s'.tables == s.tables && s'.sends == s.sends
  {
    hide ParseServerSideToken, Accept;
  }

  lemma {:induction false} RunGrows(s0: State, evs: seq<Event>, k: nat)
    requires k <= |evs|
    ensures HistoriesGrow(Run(s0, evs[..k]), Run(s0, evs))
    decreases |evs| - k
  {
    if k == |evs| {
      assert evs[..k] == evs;
    } else {
      var s := Run(s0, evs[..k]);
      assert evs[..k + 1][..k] == evs[..k];
      StepGrows(s, evs[k]);
      RunGrows(s0, evs, k + 1);
      hide Step;
      assert HistoriesGrow(s, Run(s0, evs[..k + 1])) && HistoriesGrow(Run(s0, evs[..k + 1]), Run(s0, evs));
    }
  }

  lemma StepGrows(s: State, ev: Event)
    ensures HistoriesGrow(s, Step(s, ev))
  {
    if s.endpoints != [] {
      StepAccepts(s, ev, 0);
    } else {
      hide ParseServerSideToken, Accept, Sources.Send;
    }
  }

  /** The `k`-th event of the run is the receipt of client datagram `o.send` at endpoint `e`, at a moment when
      the token table numbered `o.version` was the current one. */
  ghost predicate ReceivedAt(s0: State, evs: seq<Event>, k: int, e: nat, o: Origin) {
    && 0 <= k < |evs| && evs[k].EndpointReceives? && evs[k].endpoint == e && evs[k].send == o.send
    && Enabled(Run(s0, evs[..k]), evs[k]) && |Run(s0, evs[..k]).tables| == o.version + 1
  }

  ghost predicate WasReceived(s0: State, evs: seq<Event>, e: nat, o: Origin) {
    exists k :: ReceivedAt(s0, evs, k, e, o)
  }

  lemma {:induction false} AcceptedWereReceived(s0: State, evs: seq<Event>, e: nat)
    requires Initial(s0) && e < |Run(s0, evs).endpoints|
    ensures forall i | 0 <= i < |Run(s0, evs).endpoints[e].stage.accepted| ::
              WasReceived(s0, evs, e, Run(s0, evs).endpoints[e].stage.accepted[i].id)
  {
    if evs == [] {
      StartsEmpty(s0, e);
    } else {
      var n := |evs| - 1;
      var (s, s') := (Run(s0, evs[..n]), Run(s0, evs));
      StepGrows(s, evs[n]);
      StepAccepts(s, evs[n], e);
      hide Step, Enabled, WasReceived, AcceptsOne;
      AcceptedWereReceived(s0, evs[..n], e);
      OneMoreReceived(s0, evs, e, s.endpoints[e].stage.accepted, s'.endpoints[e].stage.accepted);
    }
  }

  lemma StartsEmpty(s0: State, e: nat)
    requires Initial(s0) && e < |s0.endpoints|
    ensures s0.endpoints[e].stage.accepted == []
  {
    assert s0.endpoints[e] == NewEndpoint(s0.endpoints[e].port, s0.endpoints[e].Player());
  }

  lemma OneMoreReceived(s0: State, evs: seq<Event>, e: nat, before: seq<Accepted<Origin>>, after: seq<Accepted<Origin>>)
    requires evs != []
    requires var (s, s') := (Run(s0, evs[..|evs| - 1]), Run(s0, evs));
             && e < |s.endpoints| == |s'.endpoints| && AcceptsOne(s, evs[|evs| - 1], s', e)
             && before == s.endpoints[e].stage.accepted && after == s'.endpoints[e].stage.accepted
    requires forall i | 0 <= i < |before| :: WasReceived(s0, evs[..|evs| - 1], e, before[i].id)
    ensures forall i | 0 <= i < |after| :: WasReceived(s0, evs, e, after[i].id)
  {
    hide Run, Enabled, WasReceived;
    forall i | 0 <= i < |before| ensures WasReceived(s0, evs, e, before[i].id) {
      StillReceived(s0, evs, e, before[i].id);
    }
    if after != before {
      ReceivedLast(s0, evs, e, after[|before|].id);
      assert after == before + [after[|before|]];
    }
  }

  lemma StillReceived(s0: State, evs: seq<Event>, e: nat, o: Origin)
    requires evs != [] && WasReceived(s0, evs[..|evs| - 1], e, o)
    ensures WasReceived(s0, evs, e, o)
  {
    hide ReceivedAt;
    var k :| ReceivedAt(s0, evs[..|evs| - 1], k, e, o);
    ReceivedEarlier(s0, evs, k, e, o);
  }

  lemma ReceivedEarlier(s0: State, evs: seq<Event>, k: int, e: nat, o: Origin)
    requires evs != [] && ReceivedAt(s0, evs[..|evs| - 1], k, e, o)
    ensures ReceivedAt(s0, evs, k, e, o)
  {
    hide Run, Enabled;
    assert evs[..|evs| - 1][..k] == evs[..k];
  }

  lemma ReceivedLast(s0: State, evs: seq<Event>, e: nat, o: Origin)
    requires evs != []
    requires var (n, s) := (|evs| - 1, Run(s0, evs[..|evs| - 1]));
             && evs[n].EndpointReceives? && evs[n].endpoint == e && Enabled(s, evs[n])
             && o == Origin(evs[n].send, |s.tables| - 1)
    ensures WasReceived(s0, evs, e, o)
  {
    hide Run, Enabled;
    assert ReceivedAt(s0, evs, |evs| - 1, e, o);
  }

  /** At the `k`-th event of the run, endpoint `e` of player `p` received client datagram `send`, and what it
      read of it was `p`'s token at that moment followed by `payload`. */
  ghost predicate TokenThen(s0: State, evs: seq<Event>, k: int, e: nat, send: nat, p: int, payload: string) {
    && 0 <= k < |evs| && evs[k].EndpointReceives? && evs[k].endpoint == e && evs[k].send == send
    && Enabled(Run(s0, evs[..k]), evs[k])
    && var s := Run(s0, evs[..k]);
       && s.endpoints[e].Player() == p && s.sends[send].endpoint == e
       && Current(s).HasPlayer(p) && |Current(s).decodedTokens[p - 1]| == GENERATED_TOKEN_LENGTH
       && Truncate(s.sends[send].data) == Current(s).decodedTokens[p - 1] + payload
  }

  /** Some event of the run was such a receipt. */
  ghost predicate WasCurrent(s0: State, evs: seq<Event>, e: nat, send: nat, p: int, payload: string) {
    exists k :: TokenThen(s0, evs, k, e, send, p, payload)
  }

  /** What the histories say about a table is what was current when the datagram was received. */
  lemma CurrentThen(s0: State, evs: seq<Event>, k: int, e: nat, o: Origin, p: int, payload: string)
    requires Initial(s0) && ReceivedAt(s0, evs, k, e, o)
    requires var s := Run(s0, evs);
             && e < |s.endpoints| && s.endpoints[e].Player() == p
             && o.version < |s.tables| && s.tables[o.version].HasPlayer(p)
             && |s.tables[o.version].decodedTokens[p - 1]| == GENERATED_TOKEN_LENGTH
             && o.send < |s.sends|
             && Truncate(s.sends[o.send].data) == s.tables[o.version].decodedTokens[p - 1] + payload
    ensures TokenThen(s0, evs, k, e, o.send, p, payload)
  {
    RunGrows(s0, evs, k);
    ForwardAlways(s0, evs[..k]);
    SamePlayers(s0, evs);
    SamePlayers(s0, evs[..k]);
  }

  lemma SamePlayers(s0: State, evs: seq<Event>)
    requires Initial(s0)
    ensures |Run(s0, evs).endpoints| == |s0.endpoints|
    ensures forall e | 0 <= e < |s0.endpoints| :: Run(s0, evs).endpoints[e].Player() == s0.endpoints[e].Player()
  {
    ForwardAlways(s0, evs);
  }

  /** Every datagram of the history was sent by its client in the run. */
  lemma {:induction false} SendsWereSent(s0: State, evs: seq<Event>, id: nat)
    requires Initial(s0) && id < |Run(s0, evs).sends|
    ensures var d := Run(s0, evs).sends[id]; ClientSends(d.endpoint, d.client, d.data) in evs
  {
    if evs != [] {
      var n := |evs| - 1;
      var s := Run(s0, evs[..n]);
      StepGrows(s, evs[n]);
      StepSends(s, evs[n]);
      hide Step;
      if id < |s.sends| {
        SendsWereSent(s0, evs[..n], id);
        assert evs[..n] <= evs;
      }
    }
  }

  lemma StepSends(s: State, ev: Event)
    ensures Step(s, ev).sends == s.sends ||
            (ev.ClientSends? && Step(s, ev).sends == s.sends + [ClientSend(ev.endpoint, ev.client, ev.data)])
  {
    hide Preprocess, Handle, ParseServerSideToken, Accept;
  }

  /** Relay isolation, after every run: each packet the game server got left its player's own port, and some
      client had sent it, behind the token that was that player's at the moment when an endpoint of that
      player received it. */
  lemma RelayIsolation(s0: State, evs: seq<Event>)
    requires Initial(s0)
    ensures ForwardInv(Run(s0, evs))
    ensures forall i | 0 <= i < |Run(s0, evs).server.written| :: IsolatedInRun(s0, evs, i)
  {
    ForwardAlways(s0, evs);
    forall i | 0 <= i < |Run(s0, evs).server.written| ensures IsolatedInRun(s0, evs, i) {
      IsolatedAt(Run(s0, evs), i);
      IsolatedThen(s0, evs, i);
      SendsWereSent(s0, evs, OriginOf(Run(s0, evs), i).send);
    }
  }

  ghost predicate IsolatedInRun(s0: State, evs: seq<Event>, i: nat)
    requires ForwardInv(Run(s0, evs)) && i < |Run(s0, evs).server.written|
  {
    var s := Run(s0, evs);
    && Isolated(s, i)
    && var (w, d) := (s.server.written[i], s.sends[OriginOf(s, i).send]);
       && WasCurrent(s0, evs, HopOf(s, i).endpoint, OriginOf(s, i).send, w.player, w.data)
       && ClientSends(d.endpoint, d.client, d.data) in evs
  }

  lemma IsolatedThen(s0: State, evs: seq<Event>, i: nat)
    requires Initial(s0) && ForwardInv(Run(s0, evs)) && i < |Run(s0, evs).server.written| && Isolated(Run(s0, evs), i)
    ensures var (s, w) := (Run(s0, evs), Run(s0, evs).server.written[i]);
            WasCurrent(s0, evs, HopOf(s, i).endpoint, OriginOf(s, i).send, w.player, w.data)
  {
    hide Run, WasCurrent, ForwardInv;
    var s := Run(s0, evs);
    var w := s.server.written[i];
    HopThen(s0, evs, HopOf(s, i), w.player, w.data);
  }

  lemma HopThen(s0: State, evs: seq<Event>, h: HopId, p: int, payload: string)
    requires Initial(s0) && ForwardInv(Run(s0, evs)) && HopExists(h, Run(s0, evs).endpoints)
    requires var (s, o) := (Run(s0, evs), OriginOfHop(Run(s0, evs), h));
             && s.endpoints[h.endpoint].Player() == p
             && o.version < |s.tables| && s.tables[o.version].HasPlayer(p)
             && |s.tables[o.version].decodedTokens[p - 1]| == GENERATED_TOKEN_LENGTH
             && Truncate(s.sends[o.send].data) == s.tables[o.version].decodedTokens[p - 1] + payload
    ensures WasCurrent(s0, evs, h.endpoint, OriginOfHop(Run(s0, evs), h).send, p, payload)
  {
    var s := Run(s0, evs);
    var (ep, o) := (s.endpoints[h.endpoint], OriginOfHop(s, h));
    EndpointEntry(ep, h.endpoint, s.sends, s.sendsPending, s.tables, h.index);
    hide Run, TokenThen, ReceivedAt, ForwardInv, Genuine;
    AcceptedWereReceived(s0, evs, h.endpoint);
    assert WasReceived(s0, evs, h.endpoint, ep.stage.accepted[ep.stage.written[h.index].index].id);
    var k :| ReceivedAt(s0, evs, k, h.endpoint, o);
    CurrentThen(s0, evs, k, h.endpoint, o, p, payload);
  }

  lemma HopsDiffer(s: State, i: nat, j: nat)
    requires ForwardInv(s) && i < j < |s.server.written|
    ensures HopOf(s, i) != HopOf(s, j)
  {
    ServerEntry(s.server, s.hopsPending, s.endpoints, i);
    ServerEntry(s.server, s.hopsPending, s.endpoints, j);
    WrittenOnce(s.server, i, j);
  }

  lemma OriginsDiffer(s: State, a: HopId, b: HopId)
    requires ForwardInv(s) && HopExists(a, s.endpoints) && HopExists(b, s.endpoints) && a != b
    ensures OriginOfHop(s, a).send != OriginOfHop(s, b).send
  {
    if a.endpoint == b.endpoint {
      var ep := s.endpoints[a.endpoint];
      EndpointEntry(ep, a.endpoint, s.sends, s.sendsPending, s.tables, a.index);
      EndpointEntry(ep, a.endpoint, s.sends, s.sendsPending, s.tables, b.index);
      SendsDiffer(ep, a.endpoint, s.sends, s.sendsPending, s.tables, a.index, b.index);
    }
  }

  lemma SendsDiffer(ep: Endpoint, e: nat, sends: seq<ClientSend>, pending: set<nat>, tables: seq<TokenTable>, k: nat, l: nat)
    requires EndpointOk(ep, e, sends, pending, tables) && k < |ep.stage.written| && l < |ep.stage.written| && k != l
    requires ep.stage.written[k].index < |ep.stage.accepted| && ep.stage.written[l].index < |ep.stage.accepted|
    ensures ep.stage.accepted[ep.stage.written[k].index].id.send != ep.stage.accepted[ep.stage.written[l].index].id.send
  {
    WrittenOnce(ep.stage, if k < l then k else l, if k < l then l else k);
  }

  /** Distinct packets to the game server come from distinct client datagrams. */
  lemma DistinctOrigins(s0: State, evs: seq<Event>, i: nat, j: nat)
    requires Initial(s0) && i < j < |Run(s0, evs).server.written|
    ensures ForwardInv(Run(s0, evs))
    ensures OriginOf(Run(s0, evs), i).send != OriginOf(Run(s0, evs), j).send
  {
    ForwardAlways(s0, evs);
    var s := Run(s0, evs);
    HopsDiffer(s, i, j);
    OriginsDiffer(s, HopOf(s, i), HopOf(s, j));
  }
}
