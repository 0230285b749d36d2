/** The relay as the app sets it up: drawn tokens, the collector's counters and the endpoints of each player. */
module RelayStart {
  import opened Text
  import opened Tokens
  import opened Stages
  import opened Stats
  import opened Relay
  import Ports
  import RelayAccounts
  import Sources

  function Endpoints(sockets: seq<(int, int)>): (r: seq<Endpoint>)
    ensures |r| == |sockets|
  {
    seq(|sockets|, k requires 0 <= k < |sockets| => NewEndpoint(sockets[k].0, sockets[k].1))
  }

  /** What is there before the first packet, given the drawn bytes, the sockets that were opened and the
      collector's counters. */
  ghost function Start(draws: seq<string>, sockets: seq<(int, int)>, endpointStats: map<int, Ports.ProxyStats>): State
    requires AreDraws(draws)
  {
    State([NewTable(GenerateTokens(draws))], Endpoints(sockets), NewStage(), true, Sources.EMPTY, [], 0,
          [], {}, {}, [], {}, [], {}, Collection([], Counters(endpointStats, map[])), false)
  }

  /** The endpoints have the app's ports, distinct and none of them the server-side proxy's. */
  ghost predicate EndpointsReady(endpoints: seq<Endpoint>) {
    && (forall e | 0 <= e < |endpoints| :: endpoints[e] == NewEndpoint(endpoints[e].port, endpoints[e].Player()))
    && (forall e, f | 0 <= e < f < |endpoints| :: endpoints[e].port != endpoints[f].port)
    && (forall e | 0 <= e < |endpoints| :: endpoints[e].port != SERVER_PROXY_PORT)
  }

  lemma SocketsReady(start: int, perPlayer: int, sockets: seq<(int, int)>)
    requires start >= Ports.MIN_PORT && perPlayer > 0
    requires forall k | 0 <= k < |sockets| :: sockets[k] == Ports.Endpoint(start, perPlayer, k)
    ensures EndpointsReady(Endpoints(sockets))
    ensures forall k | 0 <= k < |sockets| ::
              (Endpoints(sockets)[k].port, Endpoints(sockets)[k].Player()) == Ports.Endpoint(start, perPlayer, k)
  {
    forall k | 0 <= k < |sockets| ensures Ports.Endpoint(start, perPlayer, k).0 == start + k {}
  }

  lemma CountersAtZero(endpointStats: map<int, Ports.ProxyStats>, start: int, end: int)
    requires Ports.Unused(endpointStats, start, end)
    ensures forall q :: Counters(endpointStats, map[]).Valid(q) == 0 && Counters(endpointStats, map[]).Malformed(q) == 0
  {
  }

  lemma StartReady(draws: seq<string>, sockets: seq<(int, int)>, endpointStats: map<int, Ports.ProxyStats>)
    requires AreDraws(draws) && EndpointsReady(Endpoints(sockets)) && NewTable(GenerateTokens(draws)).Matching()
    requires forall q :: Counters(endpointStats, map[]).Valid(q) == 0 && Counters(endpointStats, map[]).Malformed(q) == 0
    ensures Initial(Start(draws, sockets, endpointStats)) <==> NewTable(GenerateTokens(draws)).Inverse()
  {
    hide NewTable, GenerateTokens, Endpoints, AreDraws, TokenTable.Inverse, TokenTable.Matching, Counters.Valid, Counters.Malformed;
  }

  /** What `NewTokenManager`, `NewStatsCollector` and `createClientSideProxies` leave is a start of the relay's
      runs exactly when no two players were drawn the same bytes. */
  lemma StartIsInitialIff(draws: seq<string>, start: int, perPlayer: int, sockets: seq<(int, int)>,
                          endpointStats: map<int, Ports.ProxyStats>)
    requires AreDraws(draws) && |draws| <= MAX_INT64 && start >= Ports.MIN_PORT && perPlayer > 0
    requires |sockets| == perPlayer * |draws|
    requires forall k | 0 <= k < |sockets| :: sockets[k] == Ports.Endpoint(start, perPlayer, k)
    requires Ports.Unused(endpointStats, start, start + perPlayer * |draws|)
    ensures var s := Start(draws, sockets, endpointStats);
            && (Initial(s) <==> Distinct(draws))
            && RelayAccounts.OpenedBy(s, start, perPlayer, |draws|)
            && AllGenerated(Current(s))
  {
    GeneratedTableIff(draws);
    SocketsReady(start, perPlayer, sockets);
    CountersAtZero(endpointStats, start, start + perPlayer * |draws|);
    StartReady(draws, sockets, endpointStats);
    hide Initial, Endpoints, NewTable, GenerateTokens, AllGenerated, Distinct, AreDraws, Ports.Unused, Ports.Endpoint;
  }
}
