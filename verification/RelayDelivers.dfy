/** The relay does relay: with room in the queues and nothing degraded, a packet behind its player's token
    gets from the client to the game server, and an answer gets from the game server to the client. */
module RelayDelivers {
  import opened Text
  import opened Tokens
  import opened Commands
  import Sources
  import opened Connections
  import opened Stages
  import opened Relay
  import opened RelayForward

  // ---------------------------------------------------------------- one hop

  /** A packet accepted into an empty queue is the next one written, from a port of its player. */
  lemma AcceptThenWrite<I>(s: Stage<I>, id: I, player: int, data: string, client: Sources.Addr, port: Option<int>)
    requires s.pool.Inverse() && s.pool.QueueOf(player) == []
    requires port.Some? ==> port.value !in s.pool.infos
    requires player in s.pool.conns || port.Some?
    ensures var r := Accept(s, id, player, data, client, port);
            && r.Some? && r.value.pool.QueueOf(player) != [] && r.value.written == s.written
            && var (q, w) := (r.value.pool.conns[player].port, Write(r.value, player));
               && w.written == s.written + [Written(player, q, |s.accepted|, data)]
               && w.pool.OwnerOf(q) == Some(player)
               && forall q' | q' in w.pool.infos :: q' in s.pool.infos || Some(q') == port
  {
    EnqueueEffect(s.pool, player, client, port, Queued(|s.accepted|, data));
  }

  /** A datagram that consists of the endpoint's player's current token and game data. */
  ghost predicate TokenPacket(s: State, e: nat, data: string)
    requires e < |s.endpoints| && s.tables != []
  {
    var (p, t) := (s.endpoints[e].Player(), Current(s));
    && t.HasPlayer(p) && GENERATED_TOKEN_LENGTH <= |data| <= BUFFER_SIZE
    && data[..GENERATED_TOKEN_LENGTH] == t.decodedTokens[p - 1]
    && !(PREFIX <= data)
  }

  lemma PacketPasses(s: State, e: nat, data: string, draw: int) returns (modified: string)
    requires ForwardInv(s) && e < |s.endpoints| && TokenPacket(s, e, data)
    requires !ShouldDrop(s.endpoints[e].handler.degradation, draw)
    ensures var (ep, t) := (s.endpoints[e], Current(s));
            && Preprocess(ep.handler, t, Truncate(data), draw) == (ep.handler, t, Traffic(ep.Player(), modified))
            && ParseServerSideToken(modified) == Some((ep.Player(), data[GENERATED_TOKEN_LENGTH..]))
            && |modified| <= BUFFER_SIZE
  {
    hide Preprocess, ParseServerSideToken, EndpointsOk, ServerOk;
    CurrentInverse(s);
    var (ep, t) := (s.endpoints[e], Current(s));
    TrafficIff(ep.handler, t, data, draw);
    modified := Preprocess(ep.handler, t, data, draw).2.data;
  }

  lemma CurrentInverse(s: State)
    requires ForwardInv(s)
    ensures s.tables != [] && Current(s).Inverse()
  {
  }

  /** The endpoint accepted the packet and changed nothing but its own stage and the statistics. */
  ghost predicate Queues(s: State, s': State, e: nat, r: Stage<Origin>)
    requires e < |s.endpoints|
  {
    && |s'.endpoints| == |s.endpoints| && s'.endpoints == s.endpoints[e := s'.endpoints[e]]
    && s'.endpoints[e].stage == r && s'.endpoints[e].Player() == s.endpoints[e].Player()
    && s' == s.(endpoints := s'.endpoints, sendsPending := s'.sendsPending, stats := s'.stats)
  }

  /** The endpoint queues the packet, rewritten for the second hop. */
  lemma EndpointAccepts(s: State, e: nat, id: nat, draw: int, port: Option<int>, modified: string)
    requires Enabled(s, EndpointReceives(e, id, draw, port))
    requires var (ep, t) := (s.endpoints[e], Current(s));
             Preprocess(ep.handler, t, Truncate(s.sends[id].data), draw) == (ep.handler, t, Traffic(ep.Player(), modified))
    requires var ep := s.endpoints[e];
             Accept(ep.stage, Origin(id, |s.tables| - 1), ep.Player(), modified, s.sends[id].client, port).Some?
    ensures var ep := s.endpoints[e];
            Queues(s, Step(s, EndpointReceives(e, id, draw, port)), e,
                   Accept(ep.stage, Origin(id, |s.tables| - 1), ep.Player(), modified, s.sends[id].client, port).value)
  {
    hide Preprocess, Accept;
  }

  /** The packet is on its way to the second hop. */
  ghost predicate OnItsWay(s: State, s': State, e: nat, payload: string, port: Option<int>)
    requires e < |s.endpoints|
  {
    var (k, p) := (|s.endpoints[e].stage.written|, s.endpoints[e].Player());
    && |s'.endpoints| == |s.endpoints| && |s'.endpoints[e].stage.written| == k + 1
    && HopId(e, k) in s'.hopsPending
    && ParseServerSideToken(Truncate(s'.endpoints[e].stage.written[k].data)) == Some((p, payload))
    && s'.tables == s.tables && !s'.crashed && s'.server == s.server && s'.serverRunning == s.serverRunning
    && forall q | PortFree(s, q) && Some(q) != port :: PortFree(s', q)
  }

  lemma EndpointWritesNext(s: State, s1: State, e: nat, payload: string, port: Option<int>,
                           r: Stage<Origin>, index: nat, modified: string)
    requires !s.crashed && s.tables != [] && |Current(s).base64Tokens| == |Current(s).decodedTokens|
    requires e < |s.endpoints| && Queues(s, s1, e, r)
    requires var p := s.endpoints[e].Player();
             && r.pool.QueueOf(p) != [] && ParseServerSideToken(modified) == Some((p, payload)) && |modified| <= BUFFER_SIZE
             && Write(r, p).written == s.endpoints[e].stage.written + [Written(p, r.pool.conns[p].port, index, modified)]
             && r.written == s.endpoints[e].stage.written
             && forall q | q in Write(r, p).pool.infos :: q in s.endpoints[e].stage.pool.infos || Some(q) == port
    ensures OnItsWay(s, Step(s1, EndpointWrites(e)), e, payload, port)
  {
    hide ParseServerSideToken, Write;
    assert Enabled(s1, EndpointWrites(e));
  }

  lemma HopOne(s: State, e: nat, id: nat, draw: int, port: Option<int>)
    requires ForwardInv(s) && Enabled(s, EndpointReceives(e, id, draw, port))
    requires TokenPacket(s, e, s.sends[id].data) && !ShouldDrop(s.endpoints[e].handler.degradation, draw)
    requires var (ep, p) := (s.endpoints[e], s.endpoints[e].Player());
             ep.stage.pool.QueueOf(p) == [] && (p in ep.stage.pool.conns || port.Some?)
    ensures OnItsWay(s, Step(Step(s, EndpointReceives(e, id, draw, port)), EndpointWrites(e)), e,
                     s.sends[id].data[GENERATED_TOKEN_LENGTH..], port)
  {
    var (ep, send) := (s.endpoints[e], s.sends[id]);
    var modified := PacketPasses(s, e, send.data, draw);
    assert EndpointOk(ep, e, s.sends, s.sendsPending, s.tables);
    hide ForwardInv, ParseServerSideToken, TokenPacket, AllGenuine, SendsTakenOnce, Preprocess, Step, OnItsWay;
    var origin, p := Origin(id, |s.tables| - 1), ep.Player();
    AcceptThenWrite(ep.stage, origin, p, modified, send.client, port);
    EndpointAccepts(s, e, id, draw, port, modified);
    var r := Accept(ep.stage, origin, p, modified, send.client, port).value;
    EndpointWritesNext(s, Step(s, EndpointReceives(e, id, draw, port)), e, send.data[GENERATED_TOKEN_LENGTH..], port,
                       r, |ep.stage.accepted|, modified);
  }

  /** The game server got one more packet: this one, from its player's own port. */
  ghost predicate ReachesGame(server: Stage<HopId>, server': Stage<HopId>, p: int, payload: string) {
    var n := |server.written|;
    && |server'.written| == n + 1 && server'.written[..n] == server.written
    && server'.written[n].player == p && server'.written[n].data == payload
    && server'.pool.OwnerOf(server'.written[n].port) == Some(p)
  }

  /** The server-side proxy reads the packet and writes it to the game server from the player's port. */
  lemma HopTwo(s: State, hop: HopId, port: Option<int>, p: int, payload: string)
    requires Enabled(s, ServerReceives(hop, port))
    requires ParseServerSideToken(Truncate(s.endpoints[hop.endpoint].stage.written[hop.index].data)) == Some((p, payload))
    requires s.server.pool.Inverse() && s.server.pool.QueueOf(p) == []
    requires p in s.server.pool.conns || port.Some?
    ensures ReachesGame(s.server, Step(Step(s, ServerReceives(hop, port)), ServerWrites(p)).server, p, payload)
  {
    var from := s.endpoints[hop.endpoint].stage.written[hop.index].port;
    AcceptThenWrite(s.server, hop, p, payload, from, port);
    hide ParseServerSideToken, Accept;
    var s1 := Step(s, ServerReceives(hop, port));
    assert s1.server == Accept(s.server, hop, p, payload, from, port).value;
    assert Enabled(s1, ServerWrites(p));
  }

  lemma SecondHalf(s: State, s2: State, e: nat, payload: string, port: Option<int>, serverPort: Option<int>)
    requires s.tables != [] && |Current(s).base64Tokens| == |Current(s).decodedTokens|
    requires e < |s.endpoints| && OnItsWay(s, s2, e, payload, port)
    requires s.serverRunning && s.server.pool.Inverse()
    requires var p := s.endpoints[e].Player(); s.server.pool.QueueOf(p) == [] && (p in s.server.pool.conns || serverPort.Some?)
    requires serverPort.Some? ==> PortFree(s, serverPort.value) && serverPort != port
    ensures var (p, hop) := (s.endpoints[e].Player(), HopId(e, |s.endpoints[e].stage.written|));
            ReachesGame(s.server, Step(Step(s2, ServerReceives(hop, serverPort)), ServerWrites(p)).server, p, payload)
  {
    hide ParseServerSideToken, ReachesGame, Step;
    var hop := HopId(e, |s.endpoints[e].stage.written|);
    assert Enabled(s2, ServerReceives(hop, serverPort));
    HopTwo(s2, hop, serverPort, s.endpoints[e].Player(), payload);
  }

  /** From any state the relay can be in: a packet behind its player's token, sent to a running endpoint of
      that player that does not degrade it, reaches the game server in four steps, without the token and
      unchanged, from the player's own port, when the two queues on its way are empty. */
  lemma ForwardDelivers(s: State, e: nat, id: nat, draw: int, port: Option<int>, serverPort: Option<int>)
    requires ForwardInv(s) && Enabled(s, EndpointReceives(e, id, draw, port))
    requires TokenPacket(s, e, s.sends[id].data) && !ShouldDrop(s.endpoints[e].handler.degradation, draw)
    requires var (ep, p) := (s.endpoints[e], s.endpoints[e].Player());
             && ep.stage.pool.QueueOf(p) == [] && (p in ep.stage.pool.conns || port.Some?)
             && s.serverRunning && s.server.pool.QueueOf(p) == [] && (p in s.server.pool.conns || serverPort.Some?)
    requires serverPort.Some? ==> PortFree(s, serverPort.value) && serverPort != port
    ensures var (p, k) := (s.endpoints[e].Player(), |s.endpoints[e].stage.written|);
            var s2 := Step(Step(s, EndpointReceives(e, id, draw, port)), EndpointWrites(e));
            var s4 := Step(Step(s2, ServerReceives(HopId(e, k), serverPort)), ServerWrites(p));
            ReachesGame(s.server, s4.server, p, s.sends[id].data[GENERATED_TOKEN_LENGTH..])
  {
    HopOne(s, e, id, draw, port);
    assert s.server.pool.Inverse() by { assert ServerOk(s.server, s.hopsPending, s.endpoints); }
    hide *;
    SecondHalf(s, Step(Step(s, EndpointReceives(e, id, draw, port)), EndpointWrites(e)), e,
               s.sends[id].data[GENERATED_TOKEN_LENGTH..], port, serverPort);
  }

  // ---------------------------------------------------------------- the way back

  lemma BackHopOne(s: State, toPort: int, data: string, p: int, addr: Sources.Addr)
    requires !s.crashed && s.tables != [] && |Current(s).base64Tokens| == |Current(s).decodedTokens|
    requires s.serverRunning && s.serverBack == [] && |data| <= BUFFER_SIZE
    requires s.server.pool.OwnerOf(toPort) == Some(p) && Sources.Send(s.sources, p, s.now).1 == Sources.Sent(addr)
    ensures var s' := Step(Step(Step(s, GameSends(toPort, data)), ServerSocketReads(|s.gameSends|)), ServerForwards);
            && s'.replies == s.replies + [Answer(addr, data, |s.gameSends|)] && |s.replies| in s'.repliesPending
            && s'.endpoints == s.endpoints && s'.tables == s.tables && !s'.crashed
  {
    hide Sources.Send;
    var s1 := Step(s, GameSends(toPort, data));
    assert Enabled(s1, ServerSocketReads(|s.gameSends|));
    var s2 := Step(s1, ServerSocketReads(|s.gameSends|));
    assert s2.serverBack == [Back(toPort, data, |s.gameSends|)];
    assert Enabled(s2, ServerForwards);
  }

  lemma BackHopTwo(s: State, e: nat, r: nat, draw: int)
    requires Enabled(s, EndpointSocketReads(e, r)) && |s.replies[r].data| <= BUFFER_SIZE
    requires s.endpoints[e].running && s.endpoints[e].back == []
    requires !ShouldDrop(s.endpoints[e].handler.degradation, draw)
    ensures var s' := Step(Step(s, EndpointSocketReads(e, r)), EndpointDelivers(e, draw));
            var (ep, a) := (s.endpoints[e], s.replies[r]);
            && |s'.endpoints| == |s.endpoints|
            && s'.endpoints[e].delivered == ep.delivered + [Delivery(ep.stage.pool.infos[a.to].client, a.data, a.id)]
  {
    var s1 := Step(s, EndpointSocketReads(e, r));
    assert s1.endpoints[e].back == [Back(s.replies[r].to, s.replies[r].data, s.replies[r].id)];
    assert Enabled(s1, EndpointDelivers(e, draw));
  }

  /** A packet from the game server to a player's port, when the rotation has an endpoint for it whose
      channel is empty and which does not degrade it, reaches the client of the endpoint's connection in
      five steps. */
  lemma ReturnDelivers(s: State, toPort: int, data: string, p: int, addr: Sources.Addr, e: nat, draw: int)
    requires !s.crashed && s.tables != [] && |Current(s).base64Tokens| == |Current(s).decodedTokens|
    requires s.serverRunning && s.serverBack == [] && |data| <= BUFFER_SIZE
    requires s.server.pool.OwnerOf(toPort) == Some(p) && Sources.Send(s.sources, p, s.now).1 == Sources.Sent(addr)
    requires e < |s.endpoints| && addr in s.endpoints[e].stage.pool.infos
    requires s.endpoints[e].running && s.endpoints[e].back == []
    requires !ShouldDrop(s.endpoints[e].handler.degradation, draw)
    ensures var s3 := Step(Step(Step(s, GameSends(toPort, data)), ServerSocketReads(|s.gameSends|)), ServerForwards);
            var s5 := Step(Step(s3, EndpointSocketReads(e, |s.replies|)), EndpointDelivers(e, draw));
            var ep := s.endpoints[e];
            && |s5.endpoints| == |s.endpoints|
            && s5.endpoints[e].delivered ==
               ep.delivered + [Delivery(ep.stage.pool.infos[addr].client, data, |s.gameSends|)]
  {
    BackHopOne(s, toPort, data, p, addr);
    hide Step, Sources.Send;
    var s3 := Step(Step(Step(s, GameSends(toPort, data)), ServerSocketReads(|s.gameSends|)), ServerForwards);
    BackHopTwo(s3, e, |s.replies|, draw);
  }
}
