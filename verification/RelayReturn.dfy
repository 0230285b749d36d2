/** Game server to client: what an endpoint delivers to a client was sent by the game server to the port of
    the endpoint's player, and goes to the address recorded when the endpoint's connection was made. */
module RelayReturn {
  import opened Text
  import Tokens
  import opened Commands
  import opened Sources
  import opened Connections
  import opened Stages
  import opened Relay
  import opened RelayForward

  // ---------------------------------------------------------------- the invariant

  /** Port `q` is the port of the connection of some endpoint of player `p`. */
  ghost predicate IsPortOf(endpoints: seq<Endpoint>, q: int, p: int) {
    exists e :: 0 <= e < |endpoints| && PortAt(endpoints[e], q, p)
  }

  predicate PortAt(ep: Endpoint, q: int, p: int) {
    ep.Player() == p && q in ep.stage.pool.infos
  }

  /** No port belongs to the connections of two endpoints. */
  ghost predicate PortsApart(endpoints: seq<Endpoint>) {
    forall e, f, q | 0 <= e < |endpoints| && 0 <= f < |endpoints| &&
      q in endpoints[e].stage.pool.infos && q in endpoints[f].stage.pool.infos :: e == f
  }

  /** The server-side proxy sends a player's traffic only to that player's endpoints. */
  ghost predicate SourcesOk(sources: SourceTable, endpoints: seq<Endpoint>) {
    forall p, k | 0 <= k < |sources.Of(p)| :: IsPortOf(endpoints, sources.Of(p)[k].addr, p)
  }

  /** `data` is what was read of the game server's datagram `id`, which had been sent to `p`'s port. */
  ghost predicate FromGame(server: Pool<Queued>, gameSends: seq<GameSend>, id: nat, data: string, p: int) {
    id < |gameSends| && server.OwnerOf(gameSends[id].port) == Some(p) && data == Truncate(gameSends[id].data)
  }

  ghost predicate ServerBackOk(back: seq<Back>, server: Pool<Queued>, gameSends: seq<GameSend>) {
    forall i | 0 <= i < |back| ::
      && server.OwnerOf(back[i].port).Some?
      && FromGame(server, gameSends, back[i].id, back[i].data, server.OwnerOf(back[i].port).value)
  }

  /** A reply on its way goes to an endpoint of the player whose port the game server used. */
  ghost predicate ReplyOk(r: Answer, server: Pool<Queued>, gameSends: seq<GameSend>, endpoints: seq<Endpoint>) {
    && r.id < |gameSends| && server.OwnerOf(gameSends[r.id].port).Some?
    && FromGame(server, gameSends, r.id, r.data, server.OwnerOf(gameSends[r.id].port).value)
    && IsPortOf(endpoints, r.to, server.OwnerOf(gameSends[r.id].port).value)
  }

  /** What an endpoint holds for, and has delivered to, its client. */
  ghost predicate EndpointBackOk(ep: Endpoint, server: Pool<Queued>, gameSends: seq<GameSend>) {
    && (forall i | 0 <= i < |ep.back| ::
          ep.back[i].port in ep.stage.pool.infos && FromGame(server, gameSends, ep.back[i].id, ep.back[i].data, ep.Player()))
    && (forall i | 0 <= i < |ep.delivered| ::
          && FromGame(server, gameSends, ep.delivered[i].id, ep.delivered[i].data, ep.Player())
          && IsClientOf(ep.stage.pool, ep.delivered[i].client, ep.Player()))
  }

  /** `client` was recorded for a connection of player `p`. */
  ghost predicate IsClientOf(pool: Pool<Queued>, client: int, p: int) {
    exists q :: q in pool.infos && pool.infos[q] == ConnInfo(client, p)
  }

  ghost predicate ReturnInv(s: State) {
    && PortsApart(s.endpoints)
    && SourcesOk(s.sources, s.endpoints) && Sources.Inv(s.sources, s.now)
    && ServerBackOk(s.serverBack, s.server.pool, s.gameSends)
    && (forall i | 0 <= i < |s.replies| :: ReplyOk(s.replies[i], s.server.pool, s.gameSends, s.endpoints))
    && (forall e | 0 <= e < |s.endpoints| :: EndpointBackOk(s.endpoints[e], s.server.pool, s.gameSends))
  }

  // ---------------------------------------------------------------- how the relay grows

  /** Connections are only added. */
  ghost predicate PoolGrows<M>(a: Pool<M>, b: Pool<M>) {
    forall q | q in a.infos :: q in b.infos && b.infos[q] == a.infos[q]
  }

  /** The endpoints stay the same ones and their connections are only added to. */
  ghost predicate PoolsGrow(a: seq<Endpoint>, b: seq<Endpoint>) {
    && |a| == |b|
    && forall e | 0 <= e < |a| :: a[e].Player() == b[e].Player() && PoolGrows(a[e].stage.pool, b[e].stage.pool)
  }

  lemma IsPortOfFrame(a: seq<Endpoint>, b: seq<Endpoint>, q: int, p: int)
    requires PoolsGrow(a, b) && IsPortOf(a, q, p)
    ensures IsPortOf(b, q, p)
  {
    var e :| 0 <= e < |a| && PortAt(a[e], q, p);
    assert PortAt(b[e], q, p);
  }

  lemma FromGameFrame(a: Pool<Queued>, b: Pool<Queued>, gs: seq<GameSend>, gs': seq<GameSend>, id: nat, data: string, p: int)
    requires FromGame(a, gs, id, data, p) && PoolGrows(a, b) && gs <= gs'
    ensures FromGame(b, gs', id, data, p)
  {
  }

  lemma SourcesOkFrame(sources: SourceTable, a: seq<Endpoint>, b: seq<Endpoint>)
    requires SourcesOk(sources, a) && PoolsGrow(a, b)
    ensures SourcesOk(sources, b)
  {
    forall p, k | 0 <= k < |sources.Of(p)| ensures IsPortOf(b, sources.Of(p)[k].addr, p) {
      IsPortOfFrame(a, b, sources.Of(p)[k].addr, p);
    }
  }

  lemma ServerBackFrame(back: seq<Back>, a: Pool<Queued>, b: Pool<Queued>, gs: seq<GameSend>, gs': seq<GameSend>)
    requires ServerBackOk(back, a, gs) && PoolGrows(a, b) && gs <= gs'
    ensures ServerBackOk(back, b, gs')
  {
    forall i | 0 <= i < |back| ensures b.OwnerOf(back[i].port) == a.OwnerOf(back[i].port) {
      assert FromGame(a, gs, back[i].id, back[i].data, a.OwnerOf(back[i].port).value);
    }
    forall i | 0 <= i < |back| ensures FromGame(b, gs', back[i].id, back[i].data, b.OwnerOf(back[i].port).value) {
      FromGameFrame(a, b, gs, gs', back[i].id, back[i].data, a.OwnerOf(back[i].port).value);
    }
  }

  lemma ReplyFrame(r: Answer, a: Pool<Queued>, b: Pool<Queued>, gs: seq<GameSend>, gs': seq<GameSend>, es: seq<Endpoint>, es': seq<Endpoint>)
    requires ReplyOk(r, a, gs, es) && PoolGrows(a, b) && gs <= gs' && PoolsGrow(es, es')
    ensures ReplyOk(r, b, gs', es')
  {
    IsPortOfFrame(es, es', r.to, a.OwnerOf(gs[r.id].port).value);
  }

  lemma EndpointBackFrame(ep: Endpoint, ep': Endpoint, a: Pool<Queued>, b: Pool<Queued>, gs: seq<GameSend>, gs': seq<GameSend>)
    requires EndpointBackOk(ep, a, gs) && PoolGrows(a, b) && gs <= gs'
    requires ep'.back == ep.back && ep'.delivered == ep.delivered && ep'.Player() == ep.Player()
    requires PoolGrows(ep.stage.pool, ep'.stage.pool)
    ensures EndpointBackOk(ep', b, gs')
  {
    forall i | 0 <= i < |ep.back|
      ensures ep.back[i].port in ep'.stage.pool.infos && FromGame(b, gs', ep.back[i].id, ep.back[i].data, ep.Player())
    {
      FromGameFrame(a, b, gs, gs', ep.back[i].id, ep.back[i].data, ep.Player());
    }
    forall i | 0 <= i < |ep.delivered|
      ensures FromGame(b, gs', ep.delivered[i].id, ep.delivered[i].data, ep.Player())
      ensures IsClientOf(ep'.stage.pool, ep.delivered[i].client, ep.Player())
    {
      FromGameFrame(a, b, gs, gs', ep.delivered[i].id, ep.delivered[i].data, ep.Player());
      var q :| q in ep.stage.pool.infos && ep.stage.pool.infos[q] == ConnInfo(ep.delivered[i].client, ep.Player());
      assert q in ep'.stage.pool.infos && ep'.stage.pool.infos[q] == ep.stage.pool.infos[q];
    }
  }

  /** Nothing on the return path moves; pools, histories and the clock may grow. */
  ghost predicate ReturnGrows(s: State, s': State) {
    && PoolsGrow(s.endpoints, s'.endpoints) && PortsApart(s'.endpoints)
    && (forall e | 0 <= e < |s.endpoints| ::
          s'.endpoints[e].back == s.endpoints[e].back && s'.endpoints[e].delivered == s.endpoints[e].delivered)
    && PoolGrows(s.server.pool, s'.server.pool) && s.gameSends <= s'.gameSends
    && s'.serverBack == s.serverBack && s'.replies == s.replies
  }

  lemma ReturnFrame(s: State, s': State)
    requires ReturnInv(s) && ReturnGrows(s, s')
    requires SourcesOk(s'.sources, s'.endpoints) && Sources.Inv(s'.sources, s'.now)
    ensures ReturnInv(s')
  {
    ServerBackFrame(s.serverBack, s.server.pool, s'.server.pool, s.gameSends, s'.gameSends);
    forall i | 0 <= i < |s.replies| ensures ReplyOk(s'.replies[i], s'.server.pool, s'.gameSends, s'.endpoints) {
      ReplyFrame(s.replies[i], s.server.pool, s'.server.pool, s.gameSends, s'.gameSends, s.endpoints, s'.endpoints);
    }
    forall e | 0 <= e < |s'.endpoints| ensures EndpointBackOk(s'.endpoints[e], s'.server.pool, s'.gameSends) {
      EndpointBackFrame(s.endpoints[e], s'.endpoints[e], s.server.pool, s'.server.pool, s.gameSends, s'.gameSends);
    }
  }

  // ---------------------------------------------------------------- forward steps and the environment

  lemma AcceptGrows<I>(stage: Stage<I>, id: I, player: int, data: string, client: int, port: Option<int>)
    requires stage.pool.Inverse() && (port.Some? ==> port.value !in stage.pool.infos)
    ensures var r := Accept(stage, id, player, data, client, port);
            r.Some? ==>
              && PoolGrows(stage.pool, r.value.pool)
              && (forall q | q in r.value.pool.infos :: q in stage.pool.infos || Some(q) == port)
  {
    if Accept(stage, id, player, data, client, port).Some? {
      EnqueueEffect(stage.pool, player, client, port, Queued(|stage.accepted|, data));
    }
  }

  lemma HandleGrows(ep: Endpoint, h: Handler, r: Preprocessed, origin: Origin, client: int, port: Option<int>)
    requires ep.stage.pool.Inverse() && (port.Some? ==> port.value !in ep.stage.pool.infos)
    requires h.expectedPlayer == ep.Player()
    ensures var ep' := Handle(ep, h, r, origin, client, port).0;
            && PoolGrows(ep.stage.pool, ep'.stage.pool)
            && (forall q | q in ep'.stage.pool.infos :: q in ep.stage.pool.infos || Some(q) == port)
            && ep'.back == ep.back && ep'.delivered == ep.delivered && ep'.Player() == ep.Player()
  {
    if r.Traffic? {
      AcceptGrows(ep.stage, origin, r.player, r.data, client, port);
    }
  }

  lemma PortsStayApart(endpoints: seq<Endpoint>, e: nat, ep: Endpoint, port: Option<int>)
    requires PortsApart(endpoints) && e < |endpoints|
    requires forall q | q in ep.stage.pool.infos :: q in endpoints[e].stage.pool.infos || Some(q) == port
    requires port.Some? ==> forall f | 0 <= f < |endpoints| :: port.value !in endpoints[f].stage.pool.infos
    ensures PortsApart(endpoints[e := ep])
  {
  }

  lemma EndpointReceivesReturn(s: State, e: nat, id: nat, draw: int, port: Option<int>)
    requires ForwardInv(s) && ReturnInv(s) && Enabled(s, EndpointReceives(e, id, draw, port))
    ensures ReturnInv(DoEndpointReceives(s, e, id, draw, port))
  {
    hide Preprocess, Handle, ForwardInv;
    var s' := DoEndpointReceives(s, e, id, draw, port);
    ReceivedEndpoint(s, e, id, draw, port);
    PortsStayApart(s.endpoints, e, s'.endpoints[e], port);
    SourcesOkFrame(s.sources, s.endpoints, s'.endpoints);
    ReturnFrame(s, s');
  }

  lemma ReceivedEndpoint(s: State, e: nat, id: nat, draw: int, port: Option<int>)
    requires ForwardInv(s) && Enabled(s, EndpointReceives(e, id, draw, port))
    ensures var (ep, ep') := (s.endpoints[e], DoEndpointReceives(s, e, id, draw, port).endpoints[e]);
            && PoolGrows(ep.stage.pool, ep'.stage.pool)
            && (forall q | q in ep'.stage.pool.infos :: q in ep.stage.pool.infos || Some(q) == port)
            && ep'.back == ep.back && ep'.delivered == ep.delivered && ep'.Player() == ep.Player()
  {
    var ep := s.endpoints[e];
    assert EndpointOk(ep, e, s.sends, s.sendsPending, s.tables);
    PreprocessOk(ep.handler, Current(s), Truncate(s.sends[id].data), draw);
    var (h, t, r) := Preprocess(ep.handler, Current(s), Truncate(s.sends[id].data), draw);
    HandleGrows(ep, h, r, Origin(id, |s.tables| - 1), s.sends[id].client, port);
  }

  lemma EndpointWritesReturn(s: State, e: nat)
    requires ReturnInv(s) && Enabled(s, EndpointWrites(e))
    ensures ReturnInv(DoEndpointWrites(s, e))
  {
    var s' := DoEndpointWrites(s, e);
    assert s'.endpoints[e].stage.pool.infos == s.endpoints[e].stage.pool.infos;
    PortsStayApart(s.endpoints, e, s'.endpoints[e], None);
    SourcesOkFrame(s.sources, s.endpoints, s'.endpoints);
    ReturnFrame(s, s');
  }

  /** A second-hop datagram comes from the connection of an endpoint of the player it names. */
  lemma HopSender(s: State, hop: HopId)
    requires ForwardInv(s) && HopExists(hop, s.endpoints)
    ensures var w := s.endpoints[hop.endpoint].stage.written[hop.index];
            var parsed := Tokens.ParseServerSideToken(Truncate(w.data));
            parsed.Some? && IsPortOf(s.endpoints, w.port, parsed.value.0)
  {
    var ep := s.endpoints[hop.endpoint];
    assert EndpointOk(ep, hop.endpoint, s.sends, s.sendsPending, s.tables);
    EndpointEntry(ep, hop.endpoint, s.sends, s.sendsPending, s.tables, hop.index);
    WriterPort(ep, hop.index);
    var w := ep.stage.written[hop.index];
    var b := ep.stage.accepted[w.index];
    TruncateShort(b, hop.endpoint, ep.Player(), s.sends, s.tables);
    assert PortAt(ep, w.port, ep.Player());
  }

  lemma TruncateShort(b: Accepted<Origin>, e: nat, p: int, sends: seq<ClientSend>, tables: seq<Tokens.TokenTable>)
    requires Genuine(b, e, p, sends, tables)
    ensures var parsed := Tokens.ParseServerSideToken(Truncate(b.data));
            parsed.Some? && parsed.value.0 == p
  {
  }

  lemma WriterPort(ep: Endpoint, k: nat)
    requires HandlerOk(ep) && k < |ep.stage.written|
    ensures ep.stage.written[k].port in ep.stage.pool.infos
  {
    assert ep.stage.written[k] in ep.stage.written;
  }

  lemma ReceiveSourcesOk(sources: SourceTable, p: int, q: int, now: int, endpoints: seq<Endpoint>)
    requires SourcesOk(sources, endpoints) && IsPortOf(endpoints, q, p)
    ensures SourcesOk(Receive(sources, p, q, now), endpoints)
  {
    var sources' := Receive(sources, p, q, now);
    forall r, k | 0 <= k < |sources'.Of(r)| ensures IsPortOf(endpoints, sources'.Of(r)[k].addr, r) {
      if r != p || k < |sources.Of(p)| {
        assert IsPortOf(endpoints, sources.Of(r)[k].addr, r);
      }
    }
  }

  /** What a packet from an endpoint changes of the server-side proxy, as far as the return path goes. */
  lemma ServerReceivesEffect(s: State, hop: HopId, port: Option<int>)
    requires ForwardInv(s) && PortsApart(s.endpoints) && Enabled(s, ServerReceives(hop, port))
    ensures var s' := DoServerReceives(s, hop, port);
            var w := s.endpoints[hop.endpoint].stage.written[hop.index];
            var parsed := Tokens.ParseServerSideToken(Truncate(w.data));
            && parsed.Some? && IsPortOf(s.endpoints, w.port, parsed.value.0)
            && ReturnGrows(s, s') && s'.endpoints == s.endpoints && s'.now == s.now
            && s'.sources == Receive(s.sources, parsed.value.0, w.port, s.now)
  {
    HopSender(s, hop);
    var w := s.endpoints[hop.endpoint].stage.written[hop.index];
    var parsed := Tokens.ParseServerSideToken(Truncate(w.data)).value;
    ServerAcceptsEffect(s.(hopsPending := s.hopsPending - {hop}), hop, parsed.0, parsed.1, w.port, port);
  }

  lemma ServerAcceptsEffect(s: State, hop: HopId, p: int, data: string, from: int, port: Option<int>)
    requires PortsApart(s.endpoints) && s.server.pool.Inverse() && (port.Some? ==> port.value !in s.server.pool.infos)
    ensures var s' := ServerAccepts(s, hop, p, data, from, port);
            && ReturnGrows(s, s') && s'.endpoints == s.endpoints && s'.now == s.now
            && s'.sources == Receive(s.sources, p, from, s.now)
  {
    AcceptGrows(s.server, hop, p, data, from, port);
  }

  lemma ServerReceivesReturn(s: State, hop: HopId, port: Option<int>)
    requires ForwardInv(s) && ReturnInv(s) && Enabled(s, ServerReceives(hop, port))
    ensures ReturnInv(DoServerReceives(s, hop, port))
  {
    ServerReceivesEffect(s, hop, port);
    var w := s.endpoints[hop.endpoint].stage.written[hop.index];
    var p := Tokens.ParseServerSideToken(Truncate(w.data)).value.0;
    ReceiveSourcesOk(s.sources, p, w.port, s.now, s.endpoints);
    ReceiveKeepsInv(s.sources, p, w.port, s.now, s.now);
    ReturnFrame(s, DoServerReceives(s, hop, port));
  }

  lemma ServerWritesReturn(s: State, p: int)
    requires ReturnInv(s) && Enabled(s, ServerWrites(p))
    ensures ReturnInv(DoServerWrites(s, p))
  {
    ReturnFrame(s, DoServerWrites(s, p));
  }

  lemma EnvironmentReturn(s: State, ev: Relay.Event)
    requires ReturnInv(s) && (ev.ClientSends? || ev.GameSends? || ev.Tick? || ev.StatsProcessed?)
    ensures ReturnInv(Relay.Step(s, ev))
  {
    var s' := Relay.Step(s, ev);
    InvLater(s.sources, s.now, s'.now);
    ReturnFrame(s, s');
  }

  // ---------------------------------------------------------------- steps of the return path

  lemma ServerBackAppend(back: seq<Back>, b: Back, server: Pool<Queued>, gs: seq<GameSend>)
    requires ServerBackOk(back, server, gs) && b.id < |gs| && b.port == gs[b.id].port && b.port in server.infos
    requires b.data == Truncate(gs[b.id].data)
    ensures ServerBackOk(back + [b], server, gs)
  {
  }

  lemma ServerSocketReadsReturn(s: State, id: nat)
    requires ReturnInv(s) && Enabled(s, ServerSocketReads(id))
    ensures ReturnInv(DoServerSocketReads(s, id))
  {
    var g := s.gameSends[id];
    ServerBackAppend(s.serverBack, Back(g.port, Truncate(g.data), id), s.server.pool, s.gameSends);
  }

  lemma SendSourcesOk(sources: SourceTable, p: int, now: int, endpoints: seq<Endpoint>)
    requires SourcesOk(sources, endpoints) && PlayerInv(sources, p, now)
    ensures var (sources', outcome) := Send(sources, p, now);
            SourcesOk(sources', endpoints) && (outcome.Sent? ==> IsPortOf(endpoints, outcome.addr, p))
  {
    var (sources', outcome) := Send(sources, p, now);
    forall r, k | 0 <= k < |sources'.Of(r)| ensures IsPortOf(endpoints, sources'.Of(r)[k].addr, r) {
      assert sources'.Of(r)[k] == sources.Of(r)[k];
    }
    if outcome.Sent? {
      ActiveMembers(sources.Of(p), now);
      var rotation := Rotation(sources, p, now);
      var entry := rotation[sources.Index(p)];
      assert entry in rotation && entry in sources.Of(p);
      var k :| 0 <= k < |sources.Of(p)| && sources.Of(p)[k] == entry;
      assert IsPortOf(endpoints, sources.Of(p)[k].addr, p);
    }
  }

  lemma ServerForwardsReturn(s: State)
    requires ReturnInv(s) && Enabled(s, ServerForwards)
    ensures ReturnInv(DoServerForwards(s))
  {
    var b := s.serverBack[0];
    var p := s.server.pool.OwnerOf(b.port).value;
    assert PlayerInv(s.sources, p, s.now);
    SendSourcesOk(s.sources, p, s.now, s.endpoints);
    SendKeepsInv(s.sources, p, s.now, s.now);
    ServerBackTail(s.serverBack, s.server.pool, s.gameSends);
  }

  lemma ServerBackTail(back: seq<Back>, server: Pool<Queued>, gs: seq<GameSend>)
    requires ServerBackOk(back, server, gs) && back != []
    ensures ServerBackOk(back[1..], server, gs)
  {
  }

  lemma PortOwner(endpoints: seq<Endpoint>, e: nat, q: int, p: int)
    requires PortsApart(endpoints) && e < |endpoints| && q in endpoints[e].stage.pool.infos && IsPortOf(endpoints, q, p)
    ensures endpoints[e].Player() == p
  {
    var f :| 0 <= f < |endpoints| && PortAt(endpoints[f], q, p);
    assert q in endpoints[f].stage.pool.infos;
  }

  lemma BackAppend(ep: Endpoint, b: Back, server: Pool<Queued>, gs: seq<GameSend>)
    requires EndpointBackOk(ep, server, gs)
    requires b.port in ep.stage.pool.infos && FromGame(server, gs, b.id, b.data, ep.Player())
    ensures EndpointBackOk(ep.(back := ep.back + [b]), server, gs)
  {
  }

  lemma DeliverKeeps(ep: Endpoint, draw: int, server: Pool<Queued>, gs: seq<GameSend>)
    requires EndpointBackOk(ep, server, gs) && ep.back != [] && HandlerOk(ep)
    ensures EndpointBackOk(Deliver(ep, draw), server, gs)
  {
    var b, ep' := ep.back[0], Deliver(ep, draw);
    assert forall i | 0 <= i < |ep'.back| :: ep'.back[i] == ep.back[i + 1];
    assert b.port in ep.stage.pool.infos && ep.stage.pool.infos[b.port].player in ep.stage.pool.conns.Keys;
  }

  lemma ReplaceEndpointReturn(s: State, s': State, e: nat)
    requires ReturnInv(s) && e < |s.endpoints|
    requires |s'.endpoints| == |s.endpoints| && s'.endpoints == s.endpoints[e := s'.endpoints[e]]
    requires s'.endpoints[e].stage == s.endpoints[e].stage && s'.endpoints[e].Player() == s.endpoints[e].Player()
    requires EndpointBackOk(s'.endpoints[e], s.server.pool, s.gameSends)
    requires s'.server == s.server && s'.gameSends == s.gameSends && s'.serverBack == s.serverBack
    requires s'.replies == s.replies && s'.sources == s.sources && s'.now == s.now
    ensures ReturnInv(s')
  {
    SourcesOkFrame(s.sources, s.endpoints, s'.endpoints);
    forall i | 0 <= i < |s.replies| ensures ReplyOk(s'.replies[i], s'.server.pool, s'.gameSends, s'.endpoints) {
      ReplyFrame(s.replies[i], s.server.pool, s.server.pool, s.gameSends, s.gameSends, s.endpoints, s'.endpoints);
    }
  }

  lemma EndpointSocketReadsReturn(s: State, e: nat, r: nat)
    requires ReturnInv(s) && Enabled(s, EndpointSocketReads(e, r))
    ensures ReturnInv(DoEndpointSocketReads(s, e, r))
  {
    var reply := s.replies[r];
    assert ReplyOk(reply, s.server.pool, s.gameSends, s.endpoints);
    PortOwner(s.endpoints, e, reply.to, s.server.pool.OwnerOf(s.gameSends[reply.id].port).value);
    BackAppend(s.endpoints[e], Back(reply.to, Truncate(reply.data), reply.id), s.server.pool, s.gameSends);
    ReplaceEndpointReturn(s, DoEndpointSocketReads(s, e, r), e);
  }

  lemma EndpointDeliversReturn(s: State, e: nat, draw: int)
    requires ForwardInv(s) && ReturnInv(s) && Enabled(s, EndpointDelivers(e, draw))
    ensures ReturnInv(DoEndpointDelivers(s, e, draw))
  {
    assert EndpointOk(s.endpoints[e], e, s.sends, s.sendsPending, s.tables);
    DeliverKeeps(s.endpoints[e], draw, s.server.pool, s.gameSends);
    ReplaceEndpointReturn(s, DoEndpointDelivers(s, e, draw), e);
  }

  lemma StepKeepsReturn(s: State, ev: Relay.Event)
    requires ForwardInv(s) && ReturnInv(s)
    ensures ReturnInv(Relay.Step(s, ev))
  {
    if Enabled(s, ev) {
      match ev {
        case EndpointReceives(e, id, draw, port) => EndpointReceivesReturn(s, e, id, draw, port);
        case EndpointWrites(e) => EndpointWritesReturn(s, e);
        case ServerReceives(hop, port) => ServerReceivesReturn(s, hop, port);
        case ServerWrites(p) => ServerWritesReturn(s, p);
        case ServerSocketReads(id) => ServerSocketReadsReturn(s, id);
        case ServerForwards => ServerForwardsReturn(s);
        case EndpointSocketReads(e, r) => EndpointSocketReadsReturn(s, e, r);
        case EndpointDelivers(e, draw) => EndpointDeliversReturn(s, e, draw);
        case _ => EnvironmentReturn(s, ev);
      }
    }
  }

  lemma {:induction false} ReturnAlways(s: State, evs: seq<Relay.Event>)
    requires Initial(s)
    ensures ForwardInv(Relay.Run(s, evs)) && ReturnInv(Relay.Run(s, evs))
  {
    if evs == [] {
      InitialReturn(s);
      InitialForward(s);
    } else {
      ReturnAlways(s, evs[..|evs| - 1]);
      StepAdvances(Relay.Run(s, evs[..|evs| - 1]), evs[|evs| - 1]);
      StepKeepsReturn(Relay.Run(s, evs[..|evs| - 1]), evs[|evs| - 1]);
    }
  }

  lemma InitialReturn(s: State)
    requires Initial(s)
    ensures ReturnInv(s)
  {
    forall e | 0 <= e < |s.endpoints| ensures s.endpoints[e].stage.pool.infos == map[] && EndpointBackOk(s.endpoints[e], s.server.pool, s.gameSends) {
      assert s.endpoints[e] == NewEndpoint(s.endpoints[e].port, s.endpoints[e].Player());
    }
    forall p ensures PlayerInv(s.sources, p, s.now) {
    }
  }

  // ---------------------------------------------------------------- whose address was recorded

  /** An endpoint has a connection once it has accepted a packet, and the client recorded for it is the sender
      of the first packet that it accepted. */
  ghost predicate FirstClient(ep: Endpoint, sends: seq<ClientSend>) {
    if ep.stage.accepted == [] then ep.stage.pool.conns == map[]
    else
      var id := ep.stage.accepted[0].id.send;
      && id < |sends| && ep.Player() in ep.stage.pool.conns
      && ep.stage.pool.ClientOf(ep.stage.pool.conns[ep.Player()].port) == Some(sends[id].client)
  }

  ghost predicate FirstClients(s: State) {
    forall e | 0 <= e < |s.endpoints| :: FirstClient(s.endpoints[e], s.sends)
  }

  lemma AcceptFirstClient(ep: Endpoint, origin: Origin, data: string, port: Option<int>, sends: seq<ClientSend>)
    requires HandlerOk(ep) && FirstClient(ep, sends) && origin.send < |sends|
    requires port.Some? ==> port.value !in ep.stage.pool.infos
    ensures var r := Accept(ep.stage, origin, ep.Player(), data, sends[origin.send].client, port);
            r.Some? ==> FirstClient(ep.(stage := r.value), sends)
  {
    var r := Accept(ep.stage, origin, ep.Player(), data, sends[origin.send].client, port);
    if r.Some? && ep.stage.accepted != [] {
      assert r.value.accepted[0] == ep.stage.accepted[0];
    }
  }

  lemma HandleFirstClient(ep: Endpoint, h: Handler, r: Preprocessed, origin: Origin, port: Option<int>, sends: seq<ClientSend>)
    requires HandlerOk(ep) && FirstClient(ep, sends) && origin.send < |sends|
    requires port.Some? ==> port.value !in ep.stage.pool.infos
    requires h.expectedPlayer == ep.Player() && (r.Traffic? ==> r.player == ep.Player())
    ensures FirstClient(Handle(ep, h, r, origin, sends[origin.send].client, port).0, sends)
  {
    if r.Traffic? {
      hide Accept;
      AcceptFirstClient(ep, origin, r.data, port, sends);
    }
  }

  lemma ReadyToReceive(s: State, e: nat)
    requires ForwardInv(s) && FirstClients(s) && e < |s.endpoints|
    ensures s.tables != [] && Current(s).Inverse() && Current(s).Matching()
    ensures HandlerOk(s.endpoints[e]) && FirstClient(s.endpoints[e], s.sends)
    ensures MIN_DEGRADATION <= s.endpoints[e].handler.degradation <= MAX_DEGRADATION
  {
    assert EndpointOk(s.endpoints[e], e, s.sends, s.sendsPending, s.tables);
  }

  lemma ReceiveFirstClients(s: State, e: nat, id: nat, draw: int, port: Option<int>)
    requires ForwardInv(s) && FirstClients(s) && Enabled(s, EndpointReceives(e, id, draw, port))
    ensures FirstClients(DoEndpointReceives(s, e, id, draw, port))
  {
    var ep := s.endpoints[e];
    ReadyToReceive(s, e);
    hide Preprocess, Handle, ForwardInv, FirstClient, HandlerOk;
    PreprocessOk(ep.handler, Current(s), Truncate(s.sends[id].data), draw);
    var (h, t, r) := Preprocess(ep.handler, Current(s), Truncate(s.sends[id].data), draw);
    HandleFirstClient(ep, h, r, Origin(id, |s.tables| - 1), port, s.sends);
  }

  lemma WriteFirstClients(s: State, e: nat)
    requires FirstClients(s) && Enabled(s, EndpointWrites(e))
    ensures FirstClients(DoEndpointWrites(s, e))
  {
    var s' := DoEndpointWrites(s, e);
    assert FirstClient(s.endpoints[e], s.sends);
    assert FirstClient(s'.endpoints[e], s.sends);
  }

  lemma SameFirstClients(s: State, s': State)
    requires FirstClients(s) && SameForward(s.endpoints, s'.endpoints) && s.sends <= s'.sends
    ensures FirstClients(s')
  {
    forall e | 0 <= e < |s'.endpoints| ensures FirstClient(s'.endpoints[e], s'.sends) {
      assert FirstClient(s.endpoints[e], s.sends);
    }
  }

  lemma StepFirstClients(s: State, ev: Relay.Event)
    requires ForwardInv(s) && FirstClients(s)
    ensures FirstClients(Relay.Step(s, ev))
  {
    hide FirstClients, ForwardInv;
    if Enabled(s, ev) {
      match ev {
        case EndpointReceives(e, id, draw, port) => ReceiveFirstClients(s, e, id, draw, port);
        case EndpointWrites(e) => WriteFirstClients(s, e);
        case _ =>
          OtherSteps(s, ev);
          SameFirstClients(s, Relay.Step(s, ev));
      }
    }
  }

  lemma OtherSteps(s: State, ev: Relay.Event)
    requires Enabled(s, ev) && !ev.EndpointReceives? && !ev.EndpointWrites?
    ensures SameForward(s.endpoints, Relay.Step(s, ev).endpoints) && s.sends <= Relay.Step(s, ev).sends
  {
    hide Send, Accept, Tokens.ParseServerSideToken, ShouldDrop;
    if ev.ServerReceives? {
      ServerKeepsAccepted(s, ev.hop, ev.port);
    }
  }

  lemma {:induction false} FirstClientsAlways(s: State, evs: seq<Relay.Event>)
    requires Initial(s)
    ensures FirstClients(Relay.Run(s, evs))
  {
    if evs == [] {
      forall e | 0 <= e < |s.endpoints| ensures FirstClient(s.endpoints[e], s.sends) {
        assert s.endpoints[e] == NewEndpoint(s.endpoints[e].port, s.endpoints[e].Player());
      }
    } else {
      FirstClientsAlways(s, evs[..|evs| - 1]);
      ForwardAlways(s, evs[..|evs| - 1]);
      StepFirstClients(Relay.Run(s, evs[..|evs| - 1]), evs[|evs| - 1]);
    }
  }

  // ---------------------------------------------------------------- isolation

  /** The `i`-th packet this endpoint delivered is one the game server sent to the server-side port of the
      endpoint's player, and went to the client address recorded for the endpoint's one connection. */
  ghost predicate ReturnIsolated(ep: Endpoint, i: nat, server: Pool<Queued>, gameSends: seq<GameSend>)
    requires i < |ep.delivered|
  {
    var d := ep.delivered[i];
    && d.id < |gameSends|
    && server.OwnerOf(gameSends[d.id].port) == Some(ep.Player())
    && d.data == Truncate(gameSends[d.id].data)
    && ep.Player() in ep.stage.pool.conns
    && ep.stage.pool.ClientOf(ep.stage.pool.conns[ep.Player()].port) == Some(d.client)
  }

  lemma ReturnIsolatedAt(ep: Endpoint, i: nat, server: Pool<Queued>, gameSends: seq<GameSend>)
    requires ep.stage.pool.Inverse() && EndpointBackOk(ep, server, gameSends) && i < |ep.delivered|
    ensures ReturnIsolated(ep, i, server, gameSends)
  {
    assert IsClientOf(ep.stage.pool, ep.delivered[i].client, ep.Player());
  }

  /** `client` is who sent the first packet that endpoint `e` accepted: a datagram to this very endpoint that
      began with what was, when the endpoint received it, the token of the endpoint's player. */
  ghost predicate PresentedToken(s0: State, evs: seq<Relay.Event>, e: nat, client: int)
    requires e < |Relay.Run(s0, evs).endpoints|
  {
    var s := Relay.Run(s0, evs);
    var ep := s.endpoints[e];
    && ep.stage.accepted != []
    && var id := ep.stage.accepted[0].id.send;
       && id < |s.sends| && s.sends[id].endpoint == e && s.sends[id].client == client
       && |Truncate(s.sends[id].data)| >= Tokens.GENERATED_TOKEN_LENGTH
       && WasCurrent(s0, evs, e, id, ep.Player(), Truncate(s.sends[id].data)[Tokens.GENERATED_TOKEN_LENGTH..])
  }

  lemma RecordedPresented(s0: State, evs: seq<Relay.Event>, e: nat, client: int)
    requires Initial(s0) && e < |Relay.Run(s0, evs).endpoints|
    requires var ep := Relay.Run(s0, evs).endpoints[e];
             ep.Player() in ep.stage.pool.conns && ep.stage.pool.ClientOf(ep.stage.pool.conns[ep.Player()].port) == Some(client)
    ensures PresentedToken(s0, evs, e, client)
  {
    hide Relay.Run, ForwardInv, FirstClients, WasCurrent, WasReceived, Genuine;
    ForwardAlways(s0, evs);
    FirstClientsAlways(s0, evs);
    var s := Relay.Run(s0, evs);
    var ep := s.endpoints[e];
    RecordedFirst(s, e, client);
    var o := ep.stage.accepted[0].id;
    GenuineToken(ep.stage.accepted[0], e, ep.Player(), s.sends, s.tables);
    GenuineExists(ep.stage.accepted[0], e, ep.Player(), s.sends, s.tables);
    AcceptedWereReceived(s0, evs, e);
    assert WasReceived(s0, evs, e, o);
    ReceivedPresented(s0, evs, e, o, ep.Player(), Truncate(s.sends[o.send].data)[Tokens.GENERATED_TOKEN_LENGTH..]);
  }

  lemma RecordedFirst(s: State, e: nat, client: int)
    requires ForwardInv(s) && FirstClients(s) && e < |s.endpoints|
    requires var ep := s.endpoints[e];
             ep.Player() in ep.stage.pool.conns && ep.stage.pool.ClientOf(ep.stage.pool.conns[ep.Player()].port) == Some(client)
    ensures var ep := s.endpoints[e];
            && ep.stage.accepted != []
            && Genuine(ep.stage.accepted[0], e, ep.Player(), s.sends, s.tables)
            && s.sends[ep.stage.accepted[0].id.send].client == client
  {
    var ep := s.endpoints[e];
    assert FirstClient(ep, s.sends) && EndpointOk(ep, e, s.sends, s.sendsPending, s.tables);
  }

  lemma GenuineExists(a: Accepted<Origin>, e: nat, p: int, sends: seq<ClientSend>, tables: seq<Tokens.TokenTable>)
    requires Genuine(a, e, p, sends, tables)
    ensures a.id.send < |sends| && sends[a.id.send].endpoint == e && a.id.version < |tables|
  {
  }

  lemma GenuineToken(a: Accepted<Origin>, e: nat, p: int, sends: seq<ClientSend>, tables: seq<Tokens.TokenTable>)
    requires Genuine(a, e, p, sends, tables)
    ensures var (t, data) := (tables[a.id.version], Truncate(sends[a.id.send].data));
            && t.HasPlayer(p) && |t.decodedTokens[p - 1]| == Tokens.GENERATED_TOKEN_LENGTH <= |data|
            && data == t.decodedTokens[p - 1] + data[Tokens.GENERATED_TOKEN_LENGTH..]
  {
  }

  lemma ReceivedPresented(s0: State, evs: seq<Relay.Event>, e: nat, o: Origin, p: int, payload: string)
    requires Initial(s0) && WasReceived(s0, evs, e, o)
    requires var s := Relay.Run(s0, evs);
             && e < |s.endpoints| && s.endpoints[e].Player() == p
             && o.version < |s.tables| && s.tables[o.version].HasPlayer(p)
             && |s.tables[o.version].decodedTokens[p - 1]| == Tokens.GENERATED_TOKEN_LENGTH
             && o.send < |s.sends|
             && Truncate(s.sends[o.send].data) == s.tables[o.version].decodedTokens[p - 1] + payload
    ensures WasCurrent(s0, evs, e, o.send, p, payload)
  {
    hide Relay.Run, ReceivedAt, TokenThen;
    var k :| ReceivedAt(s0, evs, k, e, o);
    CurrentThen(s0, evs, k, e, o, p, payload);
  }

  /** Return-path isolation, after every run, for every packet delivered by every endpoint: the game server
      sent it to the port of the endpoint's player, and it went to the client that was the first to present
      that player's token to this endpoint. */
  lemma ReturnIsolation(s0: State, evs: seq<Relay.Event>, e: nat, i: nat)
    requires Initial(s0) && e < |Relay.Run(s0, evs).endpoints| && i < |Relay.Run(s0, evs).endpoints[e].delivered|
    ensures var s := Relay.Run(s0, evs);
            && ReturnIsolated(s.endpoints[e], i, s.server.pool, s.gameSends)
            && PresentedToken(s0, evs, e, s.endpoints[e].delivered[i].client)
  {
    ReturnAlways(s0, evs);
    var s := Relay.Run(s0, evs);
    assert EndpointOk(s.endpoints[e], e, s.sends, s.sendsPending, s.tables);
    ReturnIsolatedAt(s.endpoints[e], i, s.server.pool, s.gameSends);
    hide ForwardInv, ReturnInv, PresentedToken;
    RecordedPresented(s0, evs, e, s.endpoints[e].delivered[i].client);
  }

  // ---------------------------------------------------------------- how many sources

  /** The endpoints of a player. */
  ghost function EndpointsOf(endpoints: seq<Endpoint>, p: int): set<int> {
    set e | 0 <= e < |endpoints| && endpoints[e].Player() == p
  }

  /** One endpoint for each address of the list. */
  lemma {:induction false} Hosts(list: seq<Source>, endpoints: seq<Endpoint>, p: int) returns (hosts: seq<int>)
    requires forall k | 0 <= k < |list| :: IsPortOf(endpoints, list[k].addr, p)
    ensures |hosts| == |list|
    ensures forall k | 0 <= k < |hosts| :: 0 <= hosts[k] < |endpoints| && PortAt(endpoints[hosts[k]], list[k].addr, p)
  {
    if list == [] {
      hosts := [];
    } else {
      var n := |list| - 1;
      hosts := Hosts(list[..n], endpoints, p);
      var e :| 0 <= e < |endpoints| && PortAt(endpoints[e], list[n].addr, p);
      hosts := hosts + [e];
    }
  }

  /** A list of distinct members of a set is no longer than the set is big. */
  lemma {:induction false} DistinctWithin(list: seq<int>, all: set<int>)
    requires forall i, j | 0 <= i < j < |list| :: list[i] != list[j]
    requires forall i | 0 <= i < |list| :: list[i] in all
    ensures |list| <= |all|
  {
    if list != [] {
      DistinctWithin(list[1..], all - {list[0]});
    }
  }

  /** An endpoint has at most one connection, so at most one port. */
  lemma OnePort(ep: Endpoint, q: int, r: int)
    requires HandlerOk(ep) && q in ep.stage.pool.infos && r in ep.stage.pool.infos
    ensures q == r
  {
    var infos, conns := ep.stage.pool.infos, ep.stage.pool.conns;
    assert infos[q].player in conns.Keys && infos[r].player in conns.Keys;
  }

  /** After every run, the source list of a player never holds more addresses than the player has
      endpoints. */
  lemma SourcesBounded(s0: State, evs: seq<Relay.Event>, p: int)
    requires Initial(s0)
    ensures var s := Relay.Run(s0, evs);
            |s.sources.Of(p)| <= |EndpointsOf(s.endpoints, p)|
  {
    ReturnAlways(s0, evs);
    var s := Relay.Run(s0, evs);
    assert PlayerInv(s.sources, p, s.now);
    forall e | 0 <= e < |s.endpoints| ensures HandlerOk(s.endpoints[e]) {
      assert EndpointOk(s.endpoints[e], e, s.sends, s.sendsPending, s.tables);
    }
    ListBounded(s.sources.Of(p), s.endpoints, p);
  }

  lemma ListBounded(list: seq<Source>, endpoints: seq<Endpoint>, p: int)
    requires DistinctAddrs(list) && forall k | 0 <= k < |list| :: IsPortOf(endpoints, list[k].addr, p)
    requires forall e | 0 <= e < |endpoints| :: HandlerOk(endpoints[e])
    ensures |list| <= |EndpointsOf(endpoints, p)|
  {
    var hosts := Hosts(list, endpoints, p);
    forall i, j | 0 <= i < j < |hosts| ensures hosts[i] != hosts[j] {
      if hosts[i] == hosts[j] {
        OnePort(endpoints[hosts[i]], list[i].addr, list[j].addr);
      }
    }
    DistinctWithin(hosts, EndpointsOf(endpoints, p));
  }
}
