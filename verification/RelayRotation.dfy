/** The index fault of the round robin in a run of the whole relay: two clients' packets, an answer, a second
    of silence, and one more answer. */
module RelayRotation {
  import opened Text
  import opened Tokens
  import opened Commands
  import opened Connections
  import opened Stages
  import opened Relay
  import RelayDelivers
  import RelayFaults
  import RoundRobin
  import Sources

  // ---------------------------------------------------------------- runs in parts

  lemma {:induction false} RunConcat(s: State, x: seq<Event>, y: seq<Event>)
    ensures Run(s, x + y) == Run(Run(s, x), y)
    decreases |y|
  {
    hide Step;
    if y == [] {
      assert x + y == x;
    } else {
      var n := |y| - 1;
      assert x + y == x + y[..n] + [y[n]];
      RelayFaults.RunSnoc(s, x + y[..n], y[n]);
      RunConcat(s, x, y[..n]);
      assert y == y[..n] + [y[n]];
    }
  }

  lemma ThreeSteps(s: State, a: Event, b: Event, c: Event)
    ensures Run(s, [a, b, c]) == Step(Step(Step(s, a), b), c)
  {
    hide Step;
    assert Run(s, []) == s;
    hide Run;
    assert [] + [a] == [a] && [a] + [b] == [a, b] && [a, b] + [c] == [a, b, c];
    RelayFaults.RunSnoc(s, [], a);
    RelayFaults.RunSnoc(s, [a], b);
    RelayFaults.RunSnoc(s, [a, b], c);
  }

  // ---------------------------------------------------------------- one packet to the server-side proxy

  /** A client sends, the endpoint accepts and writes, and the server-side proxy hears it. */
  function Hear(e: nat, id: nat, client: int, data: string, port: int, serverPort: Option<int>): seq<Event> {
    [ClientSends(e, client, data), EndpointReceives(e, id, 0, Some(port))] +
    [EndpointWrites(e), ServerReceives(HopId(e, 0), serverPort)]
  }

  ghost predicate Calm(s: State, t: TokenTable) {
    !s.crashed && s.tables == [t] && t.Inverse() && s.serverRunning && s.serverBack == []
  }

  /** Endpoint `e` of player `p` has handled nothing yet. */
  ghost predicate Unused(s: State, e: nat, p: int) {
    e < |s.endpoints| && s.endpoints[e] == NewEndpoint(s.endpoints[e].port, p)
  }

  /** What stays the same while endpoint `e` is used. */
  ghost predicate OnlyEndpoint(s: State, s': State, e: nat, port: int) {
    && e < |s.endpoints| == |s'.endpoints| && s'.endpoints == s.endpoints[e := s'.endpoints[e]]
    && s'.endpoints[e].stage.pool.infos.Keys == {port}
    && s'.now == s.now && s'.gameSends == s.gameSends && |s'.sends| == |s.sends| + 1
  }

  lemma AcceptFirst(origin: Origin, p: int, data: string, client: int, port: int)
    ensures Accept(NewStage(), origin, p, data, client, Some(port)) ==
            Some(Stage(Pool(map[p := Conn(port, [Queued(0, data)])], map[port := ConnInfo(client, p)]),
                       [Accepted.Accepted(origin, p, data, true)], []))
  {
    var pool := GetOrCreate<Queued>(EmptyPool(), p, client, Some(port)).value;
    assert [] + [Queued(0, data)] == [Queued(0, data)];
    assert pool.conns[p := Conn(port, [Queued(0, data)])] == map[p := Conn(port, [Queued(0, data)])];
    assert [] + [Accepted.Accepted(origin, p, data, true)] == [Accepted.Accepted(origin, p, data, true)];
  }

  /** The endpoint queues its first packet. */
  lemma FirstAccepted(ep: Endpoint, t: TokenTable, p: int, data: string, origin: Origin, client: int, port: int)
    returns (modified: string)
    requires ep == NewEndpoint(ep.port, p) && t.Inverse() && t.HasPlayer(p) && !(PREFIX <= data)
    requires GENERATED_TOKEN_LENGTH <= |data| <= BUFFER_SIZE && data[..GENERATED_TOKEN_LENGTH] == t.decodedTokens[p - 1]
    ensures Truncate(data) == data && Preprocess(ep.handler, t, data, 0) == (ep.handler, t, Traffic(p, modified))
    ensures ParseServerSideToken(Truncate(modified)) == Some((p, data[GENERATED_TOKEN_LENGTH..]))
    ensures var after := Handle(ep, ep.handler, Traffic(p, modified), origin, client, Some(port)).0;
            && after.Player() == p && after.stage.written == []
            && after.stage.pool == Pool(map[p := Conn(port, [Queued(0, modified)])], map[port := ConnInfo(client, p)])
  {
    hide Preprocess, ParseServerSideToken;
    TrafficIff(ep.handler, t, data, 0);
    modified := Preprocess(ep.handler, t, data, 0).2.data;
    hide Accept;
    AcceptFirst(origin, p, modified, client, port);
  }

  lemma SendAndReceive(s: State, t: TokenTable, e: nat, p: int, client: int, data: string, port: int)
    returns (modified: string)
    requires Calm(s, t) && Unused(s, e, p) && RelayDelivers.TokenPacket(s, e, data) && PortFree(s, port)
    ensures |data| >= GENERATED_TOKEN_LENGTH
    ensures ParseServerSideToken(Truncate(modified)) == Some((p, data[GENERATED_TOKEN_LENGTH..]))
    ensures var s' := Step(Step(s, ClientSends(e, client, data)), EndpointReceives(e, |s.sends|, 0, Some(port)));
            && Calm(s', t) && OnlyEndpoint(s, s', e, port) && s'.server == s.server && s'.sources == s.sources
            && s'.endpoints[e].Player() == p && s'.endpoints[e].stage.written == []
            && s'.endpoints[e].stage.pool.conns == map[p := Conn(port, [Queued(0, modified)])]
  {
    modified := FirstAccepted(s.endpoints[e], t, p, data, Origin(|s.sends|, 0), client, port);
    hide Preprocess, Handle, ParseServerSideToken, TokenTable.ListToMap, TokenTable.MapToList;
    var s1 := Step(s, ClientSends(e, client, data));
    assert Current(s1) == t && s1.sends[|s.sends|].data == data;
    assert Enabled(s1, EndpointReceives(e, |s.sends|, 0, Some(port)));
  }

  lemma WriteFirst(stage: Stage<Origin>, p: int, port: int, data: string)
    requires stage.written == [] && stage.pool.conns == map[p := Conn(port, [Queued(0, data)])]
    requires stage.pool.infos.Keys == {port}
    ensures stage.pool.QueueOf(p) != []
    ensures Write(stage, p).written == [Written(p, port, 0, data)] && Write(stage, p).pool.infos == stage.pool.infos
  {
  }

  /** The server-side proxy has a connection for the player, or gets one on the port. */
  ghost predicate Connects(s: State, s': State, p: int, serverPort: Option<int>) {
    && p in s'.server.pool.conns
    && (forall q | q in s'.server.pool.infos :: q in s.server.pool.infos || Some(q) == serverPort)
    && (p !in s.server.pool.conns && serverPort.Some? ==> s'.server.pool.OwnerOf(serverPort.value) == Some(p))
    && (p in s.server.pool.conns ==> forall q :: s'.server.pool.OwnerOf(q) == s.server.pool.OwnerOf(q))
  }

  lemma ConnectsOnAccept(s: Stage<HopId>, hop: HopId, p: int, data: string, from: int, serverPort: Option<int>)
    requires p in s.pool.conns || serverPort.Some?
    ensures var r := Accept(s, hop, p, data, from, serverPort);
            && r.Some? && p in r.value.pool.conns
            && (forall q | q in r.value.pool.infos :: q in s.pool.infos || Some(q) == serverPort)
            && (p !in s.pool.conns && serverPort.Some? ==> r.value.pool.OwnerOf(serverPort.value) == Some(p))
            && (p in s.pool.conns ==> r.value.pool.infos == s.pool.infos)
  {
  }

  /** The endpoint has written its packet and nothing else has changed. */
  ghost predicate OneWritten(s: State, s1: State, e: nat, w: Written) {
    && e < |s.endpoints| == |s1.endpoints| && s1.endpoints == s.endpoints[e := s1.endpoints[e]]
    && s1.endpoints[e].stage.written == [w] && HopId(e, 0) in s1.hopsPending
    && s1.endpoints[e].stage.pool.infos == s.endpoints[e].stage.pool.infos
    && s1 == s.(endpoints := s1.endpoints, hopsPending := s1.hopsPending)
  }

  lemma EndpointWritesFirst(s: State, t: TokenTable, e: nat, p: int, port: int, modified: string)
    requires Calm(s, t) && e < |s.endpoints| && s.endpoints[e].Player() == p && s.endpoints[e].stage.written == []
    requires s.endpoints[e].stage.pool.conns == map[p := Conn(port, [Queued(0, modified)])]
    requires s.endpoints[e].stage.pool.infos.Keys == {port}
    ensures OneWritten(s, Step(s, EndpointWrites(e)), e, Written(p, port, 0, modified))
  {
    WriteFirst(s.endpoints[e].stage, p, port, modified);
    hide Write, TokenTable.ListToMap, TokenTable.MapToList;
    assert Enabled(s, EndpointWrites(e));
  }

  lemma FreeAfterWrite(s: State, s1: State, e: nat, w: Written, q: int)
    requires OneWritten(s, s1, e, w) && PortFree(s, q)
    ensures PortFree(s1, q)
  {
  }

  lemma ServerHears(s: State, t: TokenTable, e: nat, p: int, payload: string, port: int, modified: string, serverPort: Option<int>)
    requires Calm(s, t) && e < |s.endpoints| && s.endpoints[e].stage.written == [Written(p, port, 0, modified)]
    requires HopId(e, 0) in s.hopsPending && ParseServerSideToken(Truncate(modified)) == Some((p, payload))
    requires p in s.server.pool.conns || serverPort.Some?
    requires serverPort.Some? ==> PortFree(s, serverPort.value)
    ensures var s' := Step(s, ServerReceives(HopId(e, 0), serverPort));
            && Calm(s', t) && s'.sources == Sources.Receive(s.sources, p, port, s.now) && Connects(s, s', p, serverPort)
            && s'.endpoints == s.endpoints && s'.now == s.now && s'.gameSends == s.gameSends && s'.sends == s.sends
  {
    ConnectsOnAccept(s.server, HopId(e, 0), p, payload, port, serverPort);
    hide Accept, ParseServerSideToken, Sources.Receive, TokenTable.ListToMap, TokenTable.MapToList;
    assert Enabled(s, ServerReceives(HopId(e, 0), serverPort));
  }

  lemma WriteAndHear(s: State, t: TokenTable, e: nat, p: int, payload: string, port: int, modified: string, serverPort: Option<int>)
    requires Calm(s, t) && e < |s.endpoints| && s.endpoints[e].Player() == p && s.endpoints[e].stage.written == []
    requires s.endpoints[e].stage.pool.conns == map[p := Conn(port, [Queued(0, modified)])]
    requires s.endpoints[e].stage.pool.infos.Keys == {port}
    requires ParseServerSideToken(Truncate(modified)) == Some((p, payload))
    requires p in s.server.pool.conns || serverPort.Some?
    requires serverPort.Some? ==> PortFree(s, serverPort.value)
    ensures var s' := Step(Step(s, EndpointWrites(e)), ServerReceives(HopId(e, 0), serverPort));
            && Calm(s', t) && s'.sources == Sources.Receive(s.sources, p, port, s.now) && Connects(s, s', p, serverPort)
            && |s'.endpoints| == |s.endpoints| && s'.endpoints == s.endpoints[e := s'.endpoints[e]]
            && s'.endpoints[e].stage.pool.infos.Keys == {port}
            && s'.now == s.now && s'.gameSends == s.gameSends && s'.sends == s.sends
  {
    EndpointWritesFirst(s, t, e, p, port, modified);
    hide Step, ParseServerSideToken, Sources.Receive, TokenTable.Inverse, PortFree;
    var s1 := Step(s, EndpointWrites(e));
    if serverPort.Some? {
      FreeAfterWrite(s, s1, e, Written(p, port, 0, modified), serverPort.value);
    }
    ServerHears(s1, t, e, p, payload, port, modified, serverPort);
  }

  lemma Heard(s: State, t: TokenTable, e: nat, p: int, client: int, data: string, port: int, serverPort: Option<int>)
    requires Calm(s, t) && Unused(s, e, p) && RelayDelivers.TokenPacket(s, e, data) && PortFree(s, port)
    requires p in s.server.pool.conns || serverPort.Some?
    requires serverPort.Some? ==> PortFree(s, serverPort.value) && serverPort.value != port
    ensures var s' := Run(s, Hear(e, |s.sends|, client, data, port, serverPort));
            && Calm(s', t) && s'.sources == Sources.Receive(s.sources, p, port, s.now) && Connects(s, s', p, serverPort)
            && OnlyEndpoint(s, s', e, port)
  {
    hide Run, Step, Calm, TokenTable.Inverse, ParseServerSideToken, RelayDelivers.TokenPacket, Sources.Receive;
    RelayFaults.FourSteps(s, ClientSends(e, client, data), EndpointReceives(e, |s.sends|, 0, Some(port)),
                          EndpointWrites(e), ServerReceives(HopId(e, 0), serverPort));
    var modified := SendAndReceive(s, t, e, p, client, data, port);
    var s2 := Step(Step(s, ClientSends(e, client, data)), EndpointReceives(e, |s.sends|, 0, Some(port)));
    WriteAndHear(s2, t, e, p, data[GENERATED_TOKEN_LENGTH..], port, modified, serverPort);
  }

  // ---------------------------------------------------------------- an answer

  function Answers(id: nat, toPort: int, data: string): seq<Event> {
    [GameSends(toPort, data), ServerSocketReads(id), ServerForwards]
  }

  /** The game server's packet is at the head of the channel. */
  ghost predicate PacketWaits(s: State, s2: State, toPort: int) {
    && |s2.serverBack| == 1 && s2.serverBack[0].port == toPort
    && s2.serverRunning && !s2.crashed && s2.tables == s.tables && s2.sources == s.sources && s2.server == s.server
    && s2.now == s.now && |s2.gameSends| == |s.gameSends| + 1
  }

  lemma PacketIsRead(s: State, t: TokenTable, toPort: int, data: string)
    requires Calm(s, t) && toPort in s.server.pool.infos
    ensures PacketWaits(s, Step(Step(s, GameSends(toPort, data)), ServerSocketReads(|s.gameSends|)), toPort)
  {
    hide TokenTable.ListToMap, TokenTable.MapToList;
    var s1 := Step(s, GameSends(toPort, data));
    assert Enabled(s1, ServerSocketReads(|s.gameSends|));
  }

  lemma PacketIsForwarded(s: State, s2: State, t: TokenTable, toPort: int, p: int)
    requires Calm(s, t) && PacketWaits(s, s2, toPort) && s.server.pool.OwnerOf(toPort) == Some(p)
    requires !Sources.Dropped(s.sources, p, s.now)
    ensures var ((sources, outcome), s') := (Sources.Send(s.sources, p, s.now), Step(s2, ServerForwards));
            && (outcome.Fault? ==> s'.crashed)
            && (outcome.Sent? ==>
                  Calm(s', t) && s'.sources == sources && s'.server == s.server && s'.now == s.now
                  && |s'.gameSends| == |s.gameSends| + 1)
  {
    hide Sources.Send, Sources.Dropped, TokenTable.ListToMap, TokenTable.MapToList;
    assert Current(s2) == t && Enabled(s2, ServerForwards);
  }

  lemma Answered(s: State, t: TokenTable, toPort: int, data: string, p: int)
    requires Calm(s, t) && s.server.pool.OwnerOf(toPort) == Some(p) && !Sources.Dropped(s.sources, p, s.now)
    ensures var ((sources, outcome), s') := (Sources.Send(s.sources, p, s.now), Run(s, Answers(|s.gameSends|, toPort, data)));
            && (outcome.Fault? ==> s'.crashed)
            && (outcome.Sent? ==>
                  Calm(s', t) && s'.sources == sources && s'.server == s.server && s'.now == s.now
                  && |s'.gameSends| == |s.gameSends| + 1)
  {
    hide Run, Step, Calm, PacketWaits, Sources.Send, Sources.Dropped;
    ThreeSteps(s, GameSends(toPort, data), ServerSocketReads(|s.gameSends|), ServerForwards);
    PacketIsRead(s, t, toPort, data);
    PacketIsForwarded(s, Step(Step(s, GameSends(toPort, data)), ServerSocketReads(|s.gameSends|)), t, toPort, p);
  }

  // ---------------------------------------------------------------- the run

  /** Two endpoints of one player are heard from. */
  function TwoHeard(e: nat, f: nat, client: int, a: string, b: string, q: int, r: int, serverPort: int): seq<Event> {
    Hear(e, 0, client, a, q, Some(serverPort)) + Hear(f, 1, client, b, r, None)
  }

  /** An answer at once, and one after a second in which nobody sends. */
  function AnswerIdleAnswer(serverPort: int, x: string, y: string): seq<Event> {
    Answers(0, serverPort, x) + [Tick(Sources.ACTIVE_ENDPOINT_TIMEOUT)] + Answers(1, serverPort, y)
  }

  /** What both packets leave: both endpoints are heard of at the same moment, and the player has a port. */
  ghost predicate BothKnown(s: State, t: TokenTable, p: int, q: int, r: int, serverPort: int) {
    && Calm(s, t) && s.server.pool.OwnerOf(serverPort) == Some(p) && s.gameSends == []
    && s.sources == RoundRobin.BothHeard(p, q, r, s.now)
  }

  lemma StartsCalm(s0: State, e: nat)
    requires Initial(s0) && e < |s0.endpoints|
    ensures s0.tables != [] && Calm(s0, s0.tables[0]) && Unused(s0, e, s0.endpoints[e].Player()) && (forall q :: PortFree(s0, q))
    ensures s0.sends == [] && s0.gameSends == [] && s0.sources == Sources.EMPTY && s0.server.pool.conns == map[]
  {
    forall f | 0 <= f < |s0.endpoints| ensures s0.endpoints[f].stage.pool.infos == map[] {
      assert s0.endpoints[f] == NewEndpoint(s0.endpoints[f].port, s0.endpoints[f].Player());
    }
  }

  lemma StillUnused(s0: State, s1: State, t: TokenTable, e: nat, f: nat, p: int, q: int, serverPort: int, b: string)
    requires Calm(s0, t) && Calm(s1, t) && OnlyEndpoint(s0, s1, e, q) && e != f
    requires Unused(s0, f, p) && RelayDelivers.TokenPacket(s0, f, b)
    requires forall x :: PortFree(s0, x)
    requires forall x | x in s1.server.pool.infos :: x == serverPort
    ensures Unused(s1, f, p) && RelayDelivers.TokenPacket(s1, f, b)
    ensures forall x | x != q && x != serverPort :: PortFree(s1, x)
  {
    hide TokenTable.Inverse;
    forall x, g | 0 <= g < |s1.endpoints| && x != q ensures x !in s1.endpoints[g].stage.pool.infos {
      assert PortFree(s0, x);
      assert g != e ==> s1.endpoints[g] == s0.endpoints[g];
    }
  }

  /** After the first packet: the other endpoint is still unused. */
  lemma OneIsHeard(s0: State, t: TokenTable, e: nat, f: nat, p: int, client: int, a: string, b: string, q: int, serverPort: int)
    requires Calm(s0, t) && Unused(s0, e, p) && Unused(s0, f, p) && e != f && (forall x :: PortFree(s0, x))
    requires s0.sends == [] && s0.gameSends == [] && s0.sources == Sources.EMPTY && s0.server.pool.conns == map[]
    requires RelayDelivers.TokenPacket(s0, e, a) && RelayDelivers.TokenPacket(s0, f, b) && q != serverPort
    ensures var s1 := Run(s0, Hear(e, 0, client, a, q, Some(serverPort)));
            && Calm(s1, t) && Unused(s1, f, p) && RelayDelivers.TokenPacket(s1, f, b)
            && (forall x | x != q && x != serverPort :: PortFree(s1, x))
            && |s1.sends| == 1 && s1.gameSends == [] && s1.now == s0.now
            && s1.sources == Sources.Receive(Sources.EMPTY, p, q, s0.now)
            && p in s1.server.pool.conns && s1.server.pool.OwnerOf(serverPort) == Some(p)
  {
    FreeAtServer(s0);
    hide Run, Calm, Unused, RelayDelivers.TokenPacket, Sources.Receive, Hear, PortFree;
    Heard(s0, t, e, p, client, a, q, Some(serverPort));
    var s1 := Run(s0, Hear(e, 0, client, a, q, Some(serverPort)));
    StillUnused(s0, s1, t, e, f, p, q, serverPort, b);
  }

  lemma BothAreHeard(s0: State, e: nat, f: nat, client: int, a: string, b: string, q: int, r: int, serverPort: int)
    requires Initial(s0) && e < |s0.endpoints| && f < |s0.endpoints| && e != f
    requires s0.endpoints[e].Player() == s0.endpoints[f].Player()
    requires RelayDelivers.TokenPacket(s0, e, a) && RelayDelivers.TokenPacket(s0, f, b)
    requires q != r && q != serverPort && r != serverPort
    ensures s0.tables != []
    ensures BothKnown(Run(s0, TwoHeard(e, f, client, a, b, q, r, serverPort)), s0.tables[0], s0.endpoints[e].Player(),
                      q, r, serverPort)
  {
    StartsCalm(s0, e);
    StartsCalm(s0, f);
    hide Initial, Run, Calm, Unused, RelayDelivers.TokenPacket, Sources.Receive, Hear, PortFree, RoundRobin.BothHeard;
    var p := s0.endpoints[e].Player();
    RunConcat(s0, Hear(e, 0, client, a, q, Some(serverPort)), Hear(f, 1, client, b, r, None));
    OneIsHeard(s0, s0.tables[0], e, f, p, client, a, b, q, serverPort);
    Heard(Run(s0, Hear(e, 0, client, a, q, Some(serverPort))), s0.tables[0], f, p, client, b, r, None);
    RoundRobin.TwoHeard(p, q, r, s0.now);
  }

  lemma FreeAtServer(s: State)
    requires forall q :: PortFree(s, q)
    ensures forall q :: q !in s.server.pool.infos
  {
    forall q ensures q !in s.server.pool.infos {
      assert PortFree(s, q);
    }
  }

  lemma SecondPasses(s: State, t: TokenTable)
    requires Calm(s, t)
    ensures var s' := Run(s, [Tick(Sources.ACTIVE_ENDPOINT_TIMEOUT)]);
            && Calm(s', t) && s'.sources == s.sources && s'.server == s.server && s'.gameSends == s.gameSends
            && s'.now == s.now + Sources.ACTIVE_ENDPOINT_TIMEOUT
  {
    hide TokenTable.ListToMap, TokenTable.MapToList;
    assert [Tick(Sources.ACTIVE_ENDPOINT_TIMEOUT)][..0] == [];
    assert Run(s, []) == s;
  }

  lemma NotDropped(p: int, q: int, r: int, at: int)
    ensures var t := RoundRobin.BothHeard(p, q, r, at);
            !Sources.Dropped(t, p, at) && !Sources.Dropped(Sources.Send(t, p, at).0, p, at + Sources.ACTIVE_ENDPOINT_TIMEOUT)
  {
    hide Sources.Rotation;
  }

  lemma ThenIdle(s: State, t: TokenTable, p: int, q: int, r: int, serverPort: int, x: string, y: string)
    requires BothKnown(s, t, p, q, r, serverPort) && q != r
    ensures Run(s, AnswerIdleAnswer(serverPort, x, y)).crashed
  {
    RoundRobin.TwoThenIdle(p, q, r, s.now);
    NotDropped(p, q, r, s.now);
    hide Run, Answers, Sources.Send, Sources.Dropped, RoundRobin.BothHeard, Calm;
    var tick := [Tick(Sources.ACTIVE_ENDPOINT_TIMEOUT)];
    RunConcat(s, Answers(0, serverPort, x) + tick, Answers(1, serverPort, y));
    RunConcat(s, Answers(0, serverPort, x), tick);
    Answered(s, t, serverPort, x, p);
    var s1 := Run(s, Answers(0, serverPort, x));
    SecondPasses(s1, t);
    Answered(Run(s1, tick), t, serverPort, y, p);
  }

  /** A crash that is reachable from every start at which some player has two endpoints: a packet to each, an
      answer, a second in which nobody sends anything, and another answer. */
  lemma {:induction false} IdleEndpointCrashes(s0: State, e: nat, f: nat, client: int, a: string, b: string,
                                               q: int, r: int, serverPort: int, x: string, y: string)
    requires Initial(s0) && e < |s0.endpoints| && f < |s0.endpoints| && e != f
    requires s0.endpoints[e].Player() == s0.endpoints[f].Player()
    requires RelayDelivers.TokenPacket(s0, e, a) && RelayDelivers.TokenPacket(s0, f, b)
    requires q != r && q != serverPort && r != serverPort
    ensures Run(s0, TwoHeard(e, f, client, a, b, q, r, serverPort) + AnswerIdleAnswer(serverPort, x, y)).crashed
  {
    hide *;
    RunConcat(s0, TwoHeard(e, f, client, a, b, q, r, serverPort), AnswerIdleAnswer(serverPort, x, y));
    BothAreHeard(s0, e, f, client, a, b, q, r, serverPort);
    ThenIdle(Run(s0, TwoHeard(e, f, client, a, b, q, r, serverPort)), s0.tables[0], s0.endpoints[e].Player(),
             q, r, serverPort, x, y);
  }
}
