/** The books of every endpoint balance, and what the statistics show never exceeds them. */
module RelayAccounts {
  import opened Text
  import opened Commands
  import opened Connections
  import opened Stages
  import opened Ports
  import opened Stats
  import opened Relay
  import opened RelayForward
  import RelayReturn
  import opened Tokens

  // ---------------------------------------------------------------- the invariant

  /** Every packet received became exactly one of: a command, a degradation drop, a rejection, an accepted
      packet, or a packet for which no socket could be had. */
  ghost predicate Balanced(ep: Endpoint) {
    var t := ep.tally;
    t.received == t.commands + t.degraded + t.rejected + t.unconnected + |ep.stage.accepted|
  }

  /** What was counted or is waiting to be counted for the endpoint's port is at most what happened there. */
  ghost predicate Counted(ep: Endpoint, stats: Collection) {
    AtMost(stats, ep.port, |ep.stage.accepted| + ep.tally.unconnected, ep.tally.rejected)
  }

  ghost predicate AccountsInv(s: State) {
    && (forall e, f | 0 <= e < f < |s.endpoints| :: s.endpoints[e].port != s.endpoints[f].port)
    && (forall e | 0 <= e < |s.endpoints| ::
          s.endpoints[e].port != SERVER_PROXY_PORT && Balanced(s.endpoints[e]) && Counted(s.endpoints[e], s.stats))
  }

  // ---------------------------------------------------------------- an endpoint handles a datagram

  /** The events published about a port are about what happened there. */
  ghost predicate EventsMatch(ep: Endpoint, ep': Endpoint, events: seq<StatsEvent>) {
    && multiset(events)[ValidPacketProcessed(ep.port)] + |ep.stage.accepted| + ep.tally.unconnected ==
       |ep'.stage.accepted| + ep'.tally.unconnected
    && multiset(events)[MalformedPacketProcessed(ep.port)] + ep.tally.rejected == ep'.tally.rejected
    && forall q | q != ep.port ::
         multiset(events)[ValidPacketProcessed(q)] == 0 && multiset(events)[MalformedPacketProcessed(q)] == 0
  }

  lemma HandleBalances(ep: Endpoint, h: Handler, r: Preprocessed, origin: Origin, client: int, port: Option<int>)
    requires Balanced(ep)
    ensures var (ep', events) := Handle(ep, h, r, origin, client, port);
            Balanced(ep') && EventsMatch(ep, ep', events) && ep'.port == ep.port
  {
    hide EventsMatch;
    var (ep', events) := Handle(ep, h, r, origin, client, port);
    if r.Traffic? {
      var connected := |events| == 2;
      hide Enqueue;
      assert events == TrafficEvents(ep.port, r.player, connected);
      TrafficMatches(ep, ep', r.player, connected);
    } else {
      OtherMatches(ep, ep', events);
    }
  }

  lemma TrafficMatches(ep: Endpoint, ep': Endpoint, player: int, connected: bool)
    requires |ep.stage.accepted| + ep.tally.unconnected + 1 == |ep'.stage.accepted| + ep'.tally.unconnected
    requires ep'.tally.rejected == ep.tally.rejected
    ensures EventsMatch(ep, ep', TrafficEvents(ep.port, player, connected))
  {
  }

  lemma OtherMatches(ep: Endpoint, ep': Endpoint, events: seq<StatsEvent>)
    requires ep'.stage.accepted == ep.stage.accepted && ep'.tally.unconnected == ep.tally.unconnected
    requires |events| <= 1 && (events != [] ==> events[0].DegradationUpdate? || events[0] == MalformedPacketProcessed(ep.port))
    requires ep'.tally.rejected == ep.tally.rejected + (if events != [] && events[0].MalformedPacketProcessed? then 1 else 0)
    ensures EventsMatch(ep, ep', events)
  {
    assert events == [] || events == [events[0]];
  }

  lemma PublishKeepsCounted(ep: Endpoint, ep': Endpoint, events: seq<StatsEvent>, stats: Collection)
    requires Counted(ep, stats) && EventsMatch(ep, ep', events) && ep'.port == ep.port
    ensures Counted(ep', PublishAll(stats, events))
  {
    PublishAllKeepsAtMost(stats, events, ep.port, |ep.stage.accepted| + ep.tally.unconnected, ep.tally.rejected);
  }

  lemma PublishKeepsOthers(other: Endpoint, ep: Endpoint, ep': Endpoint, events: seq<StatsEvent>, stats: Collection)
    requires Counted(other, stats) && EventsMatch(ep, ep', events) && other.port != ep.port
    ensures Counted(other, PublishAll(stats, events))
  {
    PublishAllKeepsAtMost(stats, events, other.port, |other.stage.accepted| + other.tally.unconnected, other.tally.rejected);
  }

  lemma HandledAccounts(s: State, s': State, e: nat, events: seq<StatsEvent>)
    requires AccountsInv(s) && e < |s.endpoints| && |s'.endpoints| == |s.endpoints|
    requires s'.endpoints == s.endpoints[e := s'.endpoints[e]] && s'.stats == PublishAll(s.stats, events)
    requires Balanced(s'.endpoints[e]) && EventsMatch(s.endpoints[e], s'.endpoints[e], events)
    requires s'.endpoints[e].port == s.endpoints[e].port
    ensures AccountsInv(s')
  {
    PublishKeepsCounted(s.endpoints[e], s'.endpoints[e], events, s.stats);
    forall f | 0 <= f < |s.endpoints| && f != e ensures Counted(s'.endpoints[f], s'.stats) {
      PublishKeepsOthers(s.endpoints[f], s.endpoints[e], s'.endpoints[e], events, s.stats);
    }
  }

  // ---------------------------------------------------------------- every step

  lemma EndpointReceivesAccounts(s: State, e: nat, id: nat, draw: int, port: Option<int>)
    requires AccountsInv(s) && Enabled(s, EndpointReceives(e, id, draw, port))
    ensures AccountsInv(DoEndpointReceives(s, e, id, draw, port))
  {
    var send := s.sends[id];
    var (h, t, r) := Preprocess(s.endpoints[e].handler, Current(s), Truncate(send.data), draw);
    HandleBalances(s.endpoints[e], h, r, Origin(id, |s.tables| - 1), send.client, port);
    var events := Handle(s.endpoints[e], h, r, Origin(id, |s.tables| - 1), send.client, port).1;
    HandledAccounts(s, DoEndpointReceives(s, e, id, draw, port), e, events);
  }

  /** A step that leaves the books of every endpoint as they are. */
  ghost predicate SameBooks(a: seq<Endpoint>, b: seq<Endpoint>) {
    && |a| == |b|
    && forall e | 0 <= e < |a| :: a[e].tally == b[e].tally && a[e].stage.accepted == b[e].stage.accepted && a[e].port == b[e].port
  }

  lemma SameBooksAccounts(s: State, s': State)
    requires AccountsInv(s) && SameBooks(s.endpoints, s'.endpoints) && s'.stats == s.stats
    ensures AccountsInv(s')
  {
    forall e | 0 <= e < |s'.endpoints| ensures Balanced(s'.endpoints[e]) && Counted(s'.endpoints[e], s'.stats) {
      assert Balanced(s.endpoints[e]) && Counted(s.endpoints[e], s.stats);
    }
  }

  lemma StatsProcessedAccounts(s: State)
    requires AccountsInv(s)
    ensures AccountsInv(s.(stats := ProcessNext(s.stats)))
  {
    forall e | 0 <= e < |s.endpoints| ensures Counted(s.endpoints[e], ProcessNext(s.stats)) {
      var ep := s.endpoints[e];
      ProcessKeepsAtMost(s.stats, ep.port, |ep.stage.accepted| + ep.tally.unconnected, ep.tally.rejected);
    }
  }

  lemma EndpointStepsAccounts(s: State, ev: Event)
    requires AccountsInv(s) && Enabled(s, ev) && (ev.EndpointWrites? || ev.EndpointSocketReads? || ev.EndpointDelivers?)
    ensures AccountsInv(Step(s, ev))
  {
    SameBooksAccounts(s, Step(s, ev));
  }

  lemma OtherStepsAccounts(s: State, ev: Event)
    requires AccountsInv(s) && (ev.ClientSends? || ev.ServerWrites? || ev.GameSends? || ev.ServerSocketReads? || ev.Tick?)
    ensures AccountsInv(Step(s, ev))
  {
  }

  /** The server-side proxy publishes through the same channel, but never about an endpoint's port. */
  ghost predicate ServerEvents(events: seq<StatsEvent>) {
    forall q | q != SERVER_PROXY_PORT ::
      multiset(events)[ValidPacketProcessed(q)] == 0 && multiset(events)[MalformedPacketProcessed(q)] == 0
  }

  lemma ServerPublishes(s: State, s': State, events: seq<StatsEvent>)
    requires AccountsInv(s) && ServerEvents(events)
    requires s'.endpoints == s.endpoints && s'.stats == PublishAll(s.stats, events)
    ensures AccountsInv(s')
  {
    forall e | 0 <= e < |s.endpoints| ensures Counted(s.endpoints[e], s'.stats) {
      var ep := s.endpoints[e];
      PublishAllKeepsAtMost(s.stats, events, ep.port, |ep.stage.accepted| + ep.tally.unconnected, ep.tally.rejected);
    }
  }

  lemma ServerReceivesAccounts(s: State, hop: HopId, port: Option<int>)
    requires AccountsInv(s) && Enabled(s, ServerReceives(hop, port))
    ensures AccountsInv(DoServerReceives(s, hop, port))
  {
    var w := s.endpoints[hop.endpoint].stage.written[hop.index];
    hide AccountsInv, Enabled, Accept, ParseServerSideToken;
    var parsed := ParseServerSideToken(Truncate(w.data));
    var s' := DoServerReceives(s, hop, port);
    if parsed.None? {
      ServerPublishes(s, s', [MalformedPacketProcessed(SERVER_PROXY_PORT)]);
    } else {
      var (p, data) := parsed.value;
      var connected := Accept(s.server, hop, p, data, w.port, port).Some? && p !in s.server.pool.conns;
      ServerPublishes(s, s', TrafficEvents(SERVER_PROXY_PORT, p, connected));
    }
  }

  lemma ServerForwardsAccounts(s: State)
    requires AccountsInv(s) && Enabled(s, ServerForwards)
    ensures AccountsInv(DoServerForwards(s))
  {
    assert DoServerForwards(s).endpoints == s.endpoints && DoServerForwards(s).stats == s.stats;
  }

  lemma StepKeepsAccounts(s: State, ev: Event)
    requires AccountsInv(s)
    ensures AccountsInv(Step(s, ev))
  {
    if Enabled(s, ev) {
      match ev {
        case EndpointReceives(e, id, draw, port) => EndpointReceivesAccounts(s, e, id, draw, port);
        case EndpointWrites(_) => EndpointStepsAccounts(s, ev);
        case EndpointSocketReads(_, _) => EndpointStepsAccounts(s, ev);
        case EndpointDelivers(_, _) => EndpointStepsAccounts(s, ev);
        case StatsProcessed => StatsProcessedAccounts(s);
        case ServerReceives(hop, port) => ServerReceivesAccounts(s, hop, port);
        case ServerForwards => ServerForwardsAccounts(s);
        case _ => OtherStepsAccounts(s, ev);
      }
    }
  }

  lemma {:induction false} AccountsAlways(s: State, evs: seq<Event>)
    requires Initial(s)
    ensures AccountsInv(Run(s, evs))
  {
    if evs == [] {
      forall e | 0 <= e < |s.endpoints| ensures Balanced(s.endpoints[e]) && Counted(s.endpoints[e], s.stats) {
        assert s.endpoints[e] == NewEndpoint(s.endpoints[e].port, s.endpoints[e].Player());
      }
    } else {
      AccountsAlways(s, evs[..|evs| - 1]);
      StepKeepsAccounts(Run(s, evs[..|evs| - 1]), evs[|evs| - 1]);
    }
  }

  // ---------------------------------------------------------------- the books

  lemma {:induction false} AllForOne<I>(accepted: seq<Accepted<I>>, p: int)
    requires forall i | 0 <= i < |accepted| :: accepted[i].player == p
    ensures AcceptedFor(accepted, p) == |accepted|
  {
    if accepted != [] {
      AllForOne(accepted[..|accepted| - 1], p);
    }
  }

  lemma {:induction false} AllWrittenForOne(written: seq<Written>, p: int)
    requires forall i | 0 <= i < |written| :: written[i].player == p
    ensures |WrittenFor(written, p)| == |written|
  {
    if written != [] {
      AllWrittenForOne(written[..|written| - 1], p);
    }
  }

  /** What an endpoint accepted and wrote is all for its own player. */
  lemma OwnTraffic(ep: Endpoint, e: nat, s: State)
    requires EndpointOk(ep, e, s.sends, s.sendsPending, s.tables)
    ensures forall i | 0 <= i < |ep.stage.accepted| :: ep.stage.accepted[i].player == ep.Player()
    ensures forall i | 0 <= i < |ep.stage.written| :: ep.stage.written[i].player == ep.Player()
  {
    forall i | 0 <= i < |ep.stage.accepted| ensures ep.stage.accepted[i].player == ep.Player() {
      assert Genuine(ep.stage.accepted[i], e, ep.Player(), s.sends, s.tables);
    }
    forall i | 0 <= i < |ep.stage.written| ensures ep.stage.written[i].player == ep.Player() {
      assert ep.stage.written[i] in ep.stage.written;
    }
  }

  /** After every run, at every endpoint: received = commands + degraded + rejected + unconnected +
      accepted; accepted = written + queued + overflowed; what was written, followed by what is queued, is
      what was accepted less what overflowed, in the same order; and the statistics shown for the port
      exceed neither count. */
  lemma EndpointAccounts(s0: State, evs: seq<Event>, e: nat)
    requires Initial(s0) && e < |Run(s0, evs).endpoints|
    ensures var s := Run(s0, evs);
            var ep := s.endpoints[e];
            var (p, t, accepted) := (ep.Player(), ep.tally, ep.stage.accepted);
            && t.received == t.commands + t.degraded + t.rejected + t.unconnected + |accepted|
            && |accepted| == |ep.stage.written| + |ep.stage.pool.QueueOf(p)| + OverflowedFor(accepted, p)
            && WrittenFor(ep.stage.written, p) + Indices(ep.stage.pool.QueueOf(p)) == KeptFor(accepted, p)
            && s.stats.counters.Valid(ep.port) <= |accepted| + t.unconnected
            && s.stats.counters.Malformed(ep.port) <= t.rejected
  {
    ForwardAlways(s0, evs);
    AccountsAlways(s0, evs);
    var s := Run(s0, evs);
    var ep := s.endpoints[e];
    assert EndpointOk(ep, e, s.sends, s.sendsPending, s.tables);
    assert Balanced(ep) && Counted(ep, s.stats);
    OwnTraffic(ep, e, s);
    StageAccounts(ep.stage, ep.Player());
  }

  lemma StageAccounts<I>(stage: Stage<I>, p: int)
    requires StageInv(stage)
    requires forall i | 0 <= i < |stage.accepted| :: stage.accepted[i].player == p
    requires forall i | 0 <= i < |stage.written| :: stage.written[i].player == p
    ensures |stage.accepted| == |stage.written| + |stage.pool.QueueOf(p)| + OverflowedFor(stage.accepted, p)
    ensures WrittenFor(stage.written, p) + Indices(stage.pool.QueueOf(p)) == KeptFor(stage.accepted, p)
  {
    assert InOrder(stage, p);
    AcceptedAccounts(stage, p);
    AllForOne(stage.accepted, p);
    AllWrittenForOne(stage.written, p);
  }

  // ---------------------------------------------------------------- with the endpoints the app opens

  /** The relay starts with the endpoints that the app opens, `perPlayer` for each of `players` players. */
  ghost predicate OpenedBy(s: State, start: int, perPlayer: int, players: nat)
    requires perPlayer > 0
  {
    && |s.endpoints| == perPlayer * players
    && forall k | 0 <= k < |s.endpoints| ::
         (s.endpoints[k].port, s.endpoints[k].Player()) == Ports.Endpoint(start, perPlayer, k)
  }

  function IntRange(low: int, n: nat): (r: set<int>)
    ensures |r| == n && forall x :: x in r <==> low <= x < low + n
  {
    if n == 0 then {} else IntRange(low, n - 1) + {low + n - 1}
  }

  /** With the endpoints the app opens, the server-side proxy never holds more sources for a player than
      there are endpoints per player. */
  lemma SourcesWithinEndpointCount(s0: State, evs: seq<Event>, start: int, perPlayer: int, players: nat, p: int)
    requires Initial(s0) && perPlayer > 0 && OpenedBy(s0, start, perPlayer, players)
    ensures |Run(s0, evs).sources.Of(p)| <= perPlayer
  {
    hide Run, ForwardInv;
    RelayReturn.SourcesBounded(s0, evs, p);
    ForwardAlways(s0, evs);
    OwnWithinBlock(s0, Run(s0, evs), start, perPlayer, players, p);
  }

  lemma OwnWithinBlock(s0: State, s: State, start: int, perPlayer: int, players: nat, p: int)
    requires perPlayer > 0 && OpenedBy(s0, start, perPlayer, players) && WritesGrow(s0.endpoints, s.endpoints)
    ensures |RelayReturn.EndpointsOf(s.endpoints, p)| <= perPlayer
  {
    var own := RelayReturn.EndpointsOf(s.endpoints, p);
    forall e | e in own ensures (p - 1) * perPlayer <= e < (p - 1) * perPlayer + perPlayer {
      assert s0.endpoints[e].Player() == s.endpoints[e].Player();
      BlocksTile(0, perPlayer, players, p, e);
      assert p * perPlayer == (p - 1) * perPlayer + perPlayer;
    }
    SubsetSize(own, IntRange((p - 1) * perPlayer, perPlayer));
  }
}
