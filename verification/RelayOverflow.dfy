/** A packet that was accepted is missing from what its socket writes only because the queue was full: the
    mark `kept` of every accepted packet is what the queue was like when the packet came. */
module RelayOverflow {
  import opened Text
  import opened Connections
  import opened Stages
  import opened Relay
  import opened RelayForward
  import Commands
  import Tokens
  import Sources
  import Stats

  ghost predicate Bounded<I>(stage: Stage<I>) {
    forall p :: |stage.pool.QueueOf(p)| <= BUFFER_SIZE
  }

  /** What a queue was like for packet `a`: with room if it was kept, otherwise full. */
  predicate RoomFor<I>(stage: Stage<I>, a: Accepted<I>) {
    if a.kept then |stage.pool.QueueOf(a.player)| < 8192 else |stage.pool.QueueOf(a.player)| == 8192
  }

  /** One step of a proxy: it accepts at most one packet, and marks it by the room there is. */
  ghost predicate AddsByRoom<I>(before: Stage<I>, after: Stage<I>) {
    && Bounded(after)
    && before.accepted <= after.accepted && |after.accepted| <= |before.accepted| + 1
    && (|after.accepted| > |before.accepted| ==> RoomFor(before, after.accepted[|before.accepted|]))
  }

  lemma AcceptByRoom<I>(s: Stage<I>, id: I, player: int, data: string, client: Sources.Addr, port: Option<int>)
    requires Bounded(s)
    ensures var r := Accept(s, id, player, data, client, port); r.Some? ==> AddsByRoom(s, r.value)
  {
    var r := Accept(s, id, player, data, client, port);
    if r.Some? {
      forall p ensures |r.value.pool.QueueOf(p)| <= BUFFER_SIZE {
        assert |s.pool.QueueOf(p)| <= BUFFER_SIZE;
      }
      assert |s.pool.QueueOf(player)| <= BUFFER_SIZE;
    }
  }

  lemma WriteByRoom<I>(s: Stage<I>, player: int)
    requires Bounded(s) && s.pool.QueueOf(player) != []
    ensures AddsByRoom(s, Write(s, player))
  {
    forall p ensures |Write(s, player).pool.QueueOf(p)| <= BUFFER_SIZE {
      assert |s.pool.QueueOf(p)| <= BUFFER_SIZE;
    }
  }

  lemma NothingByRoom<I>(s: Stage<I>)
    requires Bounded(s)
    ensures AddsByRoom(s, s)
  {
  }

  // ---------------------------------------------------------------- steps

  lemma HandleByRoom(ep: Endpoint, h: Commands.Handler, r: Commands.Preprocessed, origin: Origin, client: int, port: Option<int>)
    requires Bounded(ep.stage)
    ensures AddsByRoom(ep.stage, Handle(ep, h, r, origin, client, port).0.stage)
  {
    hide Bounded, AddsByRoom, Accept;
    NothingByRoom(ep.stage);
    if r.Traffic? {
      AcceptByRoom(ep.stage, origin, r.player, r.data, client, port);
    }
  }

  lemma EndpointStep(s: State, ev: Event, e: nat)
    requires e < |s.endpoints| && Bounded(s.endpoints[e].stage)
    ensures e < |Step(s, ev).endpoints| && AddsByRoom(s.endpoints[e].stage, Step(s, ev).endpoints[e].stage)
  {
    hide Bounded, AddsByRoom;
    NothingByRoom(s.endpoints[e].stage);
    if Enabled(s, ev) {
      match ev {
        case EndpointReceives(f, id, draw, port) => ReceiveStep(s, f, id, draw, port, e);
        case EndpointWrites(f) => WriteStep(s, f, e);
        case ServerReceives(hop, port) => ServerKeepsAccepted(s, hop, port);
        case ServerForwards => hide Sources.Send;
        case _ =>
      }
    }
  }

  lemma WriteStep(s: State, f: nat, e: nat)
    requires e < |s.endpoints| && Bounded(s.endpoints[e].stage) && Enabled(s, EndpointWrites(f))
    ensures AddsByRoom(s.endpoints[e].stage, DoEndpointWrites(s, f).endpoints[e].stage)
  {
    hide Bounded, AddsByRoom, Write;
    NothingByRoom(s.endpoints[e].stage);
    if e == f {
      WriteByRoom(s.endpoints[e].stage, s.endpoints[e].Player());
    }
  }

  lemma ReceiveStep(s: State, f: nat, id: nat, draw: int, port: Option<int>, e: nat)
    requires e < |s.endpoints| && Bounded(s.endpoints[e].stage) && Enabled(s, EndpointReceives(f, id, draw, port))
    ensures AddsByRoom(s.endpoints[e].stage, DoEndpointReceives(s, f, id, draw, port).endpoints[e].stage)
  {
    var send := s.sends[id];
    var (h, t, r) := Commands.Preprocess(s.endpoints[f].handler, Current(s), Truncate(send.data), draw);
    hide Commands.Preprocess, Handle, Bounded, AddsByRoom;
    NothingByRoom(s.endpoints[e].stage);
    if e == f {
      HandleByRoom(s.endpoints[e], h, r, Origin(id, |s.tables| - 1), send.client, port);
    }
  }

  /** The server-side proxy accepts nothing but the hop it receives. */
  ghost predicate AcceptsHop(s: State, ev: Event, s': State) {
    s'.server.accepted == s.server.accepted ||
    (&& ev.ServerReceives? && Enabled(s, ev)
     && |s'.server.accepted| == |s.server.accepted| + 1 && s'.server.accepted[|s.server.accepted|].id == ev.hop)
  }

  lemma ServerStep(s: State, ev: Event)
    requires Bounded(s.server)
    ensures AddsByRoom(s.server, Step(s, ev).server) && AcceptsHop(s, ev, Step(s, ev))
  {
    NothingByRoom(s.server);
    if Enabled(s, ev) {
      hide Bounded, AddsByRoom;
      match ev {
        case ServerReceives(hop, port) => HopStep(s, hop, port);
        case ServerWrites(p) => WriteByRoom(s.server, p);
        case ServerForwards => hide Sources.Send;
        case _ =>
      }
    }
  }

  lemma HopStep(s: State, hop: HopId, port: Option<int>)
    requires Bounded(s.server) && Enabled(s, ServerReceives(hop, port))
    ensures var s' := DoServerReceives(s, hop, port);
            AddsByRoom(s.server, s'.server) && AcceptsHop(s, ServerReceives(hop, port), s')
  {
    hide Bounded, AddsByRoom, Tokens.ParseServerSideToken;
    NothingByRoom(s.server);
    var w := s.endpoints[hop.endpoint].stage.written[hop.index];
    var parsed := Tokens.ParseServerSideToken(Truncate(w.data));
    if parsed.Some? {
      AcceptByRoom(s.server, hop, parsed.value.0, parsed.value.1, w.port, port);
    }
  }

  // ---------------------------------------------------------------- runs

  lemma StartsBounded(s0: State)
    requires Initial(s0)
    ensures Bounded(s0.server) && s0.server.accepted == []
    ensures forall e | 0 <= e < |s0.endpoints| :: Bounded(s0.endpoints[e].stage) && s0.endpoints[e].stage.accepted == []
  {
    forall e | 0 <= e < |s0.endpoints| ensures s0.endpoints[e].stage == NewStage() {
      assert s0.endpoints[e] == NewEndpoint(s0.endpoints[e].port, s0.endpoints[e].Player());
    }
  }

  lemma {:induction false} AlwaysBounded(s0: State, evs: seq<Event>)
    requires Initial(s0)
    ensures Bounded(Run(s0, evs).server)
    ensures forall e | 0 <= e < |Run(s0, evs).endpoints| :: Bounded(Run(s0, evs).endpoints[e].stage)
  {
    if evs == [] {
      StartsBounded(s0);
    } else {
      var n := |evs| - 1;
      var s := Run(s0, evs[..n]);
      StepGrows(s, evs[n]);
      hide Step, Bounded;
      AlwaysBounded(s0, evs[..n]);
      ServerStep(s, evs[n]);
      forall e | 0 <= e < |s.endpoints| ensures Bounded(Step(s, evs[n]).endpoints[e].stage) {
        EndpointStep(s, evs[n], e);
      }
    }
  }

  /** The `k`-th event of the run was the receipt of the datagram that became packet `i` of endpoint `e`, when
      the queue was as its mark says. */
  ghost predicate MarkedAt(s0: State, evs: seq<Event>, k: int, e: nat, i: nat, a: Accepted<Origin>) {
    && 0 <= k < |evs| && evs[k].EndpointReceives? && evs[k].endpoint == e && evs[k].send == a.id.send
    && Enabled(Run(s0, evs[..k]), evs[k])
    && var stage := Run(s0, evs[..k]).endpoints[e].stage; |stage.accepted| == i && RoomFor(stage, a)
  }

  ghost predicate Marked(s0: State, evs: seq<Event>, e: nat, i: nat, a: Accepted<Origin>) {
    exists k :: MarkedAt(s0, evs, k, e, i, a)
  }

  lemma StillMarked(s0: State, evs: seq<Event>, e: nat, i: nat, a: Accepted<Origin>)
    requires evs != [] && Marked(s0, evs[..|evs| - 1], e, i, a)
    ensures Marked(s0, evs, e, i, a)
  {
    hide Run, Enabled, RoomFor;
    var k :| MarkedAt(s0, evs[..|evs| - 1], k, e, i, a);
    assert evs[..|evs| - 1][..k] == evs[..k];
    assert MarkedAt(s0, evs, k, e, i, a);
  }

  lemma MarkedLast(s0: State, evs: seq<Event>, e: nat, a: Accepted<Origin>)
    requires evs != [] && e < |Run(s0, evs[..|evs| - 1]).endpoints|
    requires var (s, ev) := (Run(s0, evs[..|evs| - 1]), evs[|evs| - 1]);
             && ev.EndpointReceives? && ev.endpoint == e && Enabled(s, ev) && a.id.send == ev.send
             && RoomFor(s.endpoints[e].stage, a)
    ensures Marked(s0, evs, e, |Run(s0, evs[..|evs| - 1]).endpoints[e].stage.accepted|, a)
  {
    hide Run, Enabled, RoomFor;
    assert MarkedAt(s0, evs, |evs| - 1, e, |Run(s0, evs[..|evs| - 1]).endpoints[e].stage.accepted|, a);
  }

  /** A packet that is among the accepted ones after a step was there before, or the step added it. */
  lemma AddedOrThere(s: State, ev: Event, e: nat, i: nat)
    requires e < |s.endpoints| && Bounded(s.endpoints[e].stage)
    requires e < |Step(s, ev).endpoints| && i < |Step(s, ev).endpoints[e].stage.accepted|
    ensures var (before, a) := (s.endpoints[e].stage, Step(s, ev).endpoints[e].stage.accepted[i]);
            if i < |before.accepted| then a == before.accepted[i]
            else
              && i == |before.accepted| && RoomFor(before, a)
              && ev.EndpointReceives? && ev.endpoint == e && Enabled(s, ev) && a.id.send == ev.send
  {
    EndpointStep(s, ev, e);
    StepAccepts(s, ev, e);
    hide Step, Enabled, Bounded, RoomFor;
  }

  /** After every run, at every endpoint: each accepted packet was received by a step at which its player's
      queue had room if it was kept, and held exactly as many packets as it can if it was not. */
  lemma {:induction false} DroppedOnlyWhenFull(s0: State, evs: seq<Event>, e: nat, i: nat)
    requires Initial(s0) && e < |Run(s0, evs).endpoints| && i < |Run(s0, evs).endpoints[e].stage.accepted|
    ensures Marked(s0, evs, e, i, Run(s0, evs).endpoints[e].stage.accepted[i])
  {
    if evs == [] {
      StartsBounded(s0);
    } else {
      var n := |evs| - 1;
      var s := Run(s0, evs[..n]);
      StepGrows(s, evs[n]);
      AlwaysBounded(s0, evs[..n]);
      hide Step, Enabled, Bounded, Marked, Initial;
      AddedOrThere(s, evs[n], e, i);
      if i < |s.endpoints[e].stage.accepted| {
        DroppedOnlyWhenFull(s0, evs[..n], e, i);
        hide RoomFor;
        StillMarked(s0, evs, e, i, Run(s0, evs).endpoints[e].stage.accepted[i]);
      } else {
        hide RoomFor;
        MarkedLast(s0, evs, e, Run(s0, evs).endpoints[e].stage.accepted[i]);
      }
    }
  }

  /** The same for packet `i` of the server-side proxy. */
  ghost predicate HopMarkedAt(s0: State, evs: seq<Event>, k: int, i: nat, a: Accepted<HopId>) {
    && 0 <= k < |evs| && evs[k].ServerReceives? && evs[k].hop == a.id
    && Enabled(Run(s0, evs[..k]), evs[k])
    && var stage := Run(s0, evs[..k]).server; |stage.accepted| == i && RoomFor(stage, a)
  }

  ghost predicate HopMarked(s0: State, evs: seq<Event>, i: nat, a: Accepted<HopId>) {
    exists k :: HopMarkedAt(s0, evs, k, i, a)
  }

  lemma HopStillMarked(s0: State, evs: seq<Event>, i: nat, a: Accepted<HopId>)
    requires evs != [] && HopMarked(s0, evs[..|evs| - 1], i, a)
    ensures HopMarked(s0, evs, i, a)
  {
    hide Run, Enabled, RoomFor;
    var k :| HopMarkedAt(s0, evs[..|evs| - 1], k, i, a);
    assert evs[..|evs| - 1][..k] == evs[..k];
    assert HopMarkedAt(s0, evs, k, i, a);
  }

  lemma HopAddedOrThere(s: State, ev: Event, i: nat)
    requires Bounded(s.server) && i < |Step(s, ev).server.accepted|
    ensures var (before, a) := (s.server, Step(s, ev).server.accepted[i]);
            if i < |before.accepted| then a == before.accepted[i]
            else i == |before.accepted| && RoomFor(before, a) && ev.ServerReceives? && Enabled(s, ev) && a.id == ev.hop
  {
    ServerStep(s, ev);
    hide Step, Enabled, Bounded, RoomFor;
  }

  lemma {:induction false} HopDroppedOnlyWhenFull(s0: State, evs: seq<Event>, i: nat)
    requires Initial(s0) && i < |Run(s0, evs).server.accepted|
    ensures HopMarked(s0, evs, i, Run(s0, evs).server.accepted[i])
  {
    if evs == [] {
      StartsBounded(s0);
    } else {
      var n := |evs| - 1;
      var s := Run(s0, evs[..n]);
      AlwaysBounded(s0, evs[..n]);
      hide Step, Enabled, Bounded, HopMarked, Initial;
      HopAddedOrThere(s, evs[n], i);
      hide RoomFor;
      var a := Run(s0, evs).server.accepted[i];
      if i < |s.server.accepted| {
        HopDroppedOnlyWhenFull(s0, evs[..n], i);
        HopStillMarked(s0, evs, i, a);
      } else {
        HopMarkedLast(s0, evs, a);
      }
    }
  }

  lemma HopMarkedLast(s0: State, evs: seq<Event>, a: Accepted<HopId>)
    requires evs != []
    requires var (s, ev) := (Run(s0, evs[..|evs| - 1]), evs[|evs| - 1]);
             ev.ServerReceives? && Enabled(s, ev) && a.id == ev.hop && RoomFor(s.server, a)
    ensures HopMarked(s0, evs, |Run(s0, evs[..|evs| - 1]).server.accepted|, a)
  {
    hide Run, Enabled, RoomFor;
    assert HopMarkedAt(s0, evs, |evs| - 1, |Run(s0, evs[..|evs| - 1]).server.accepted|, a);
  }

  // ---------------------------------------------------------------- every channel

  ghost predicate ChannelsBounded(s: State) {
    && |s.serverBack| <= 8192 && |s.stats.channel| <= 100
    && forall e | 0 <= e < |s.endpoints| :: |s.endpoints[e].back| <= 8192
  }

  lemma {:induction false} PublishBounded(c: Stats.Collection, es: seq<Stats.StatsEvent>)
    requires |c.channel| <= 100
    ensures |Stats.PublishAll(c, es).channel| <= 100
    decreases |es|
  {
    if es != [] {
      PublishBounded(Stats.Publish(c, es[0]), es[1..]);
    }
  }

  lemma HandleKeepsBack(ep: Endpoint, h: Commands.Handler, r: Commands.Preprocessed, origin: Origin, client: int, port: Option<int>)
    ensures Handle(ep, h, r, origin, client, port).0.back == ep.back
  {
    hide Accept;
  }

  lemma ReceiveChannels(s: State, e: nat, id: nat, draw: int, port: Option<int>)
    requires ChannelsBounded(s) && Enabled(s, EndpointReceives(e, id, draw, port))
    ensures ChannelsBounded(DoEndpointReceives(s, e, id, draw, port))
  {
    var send := s.sends[id];
    var origin := Origin(id, |s.tables| - 1);
    hide Handle, Commands.Preprocess, Stats.PublishAll;
    var (h, t, r) := Commands.Preprocess(s.endpoints[e].handler, Current(s), Truncate(send.data), draw);
    HandleKeepsBack(s.endpoints[e], h, r, origin, send.client, port);
    PublishBounded(s.stats, Handle(s.endpoints[e], h, r, origin, send.client, port).1);
    hide Enabled;
  }

  lemma ServerChannels(s: State, hop: HopId, port: Option<int>)
    requires ChannelsBounded(s) && Enabled(s, ServerReceives(hop, port))
    ensures ChannelsBounded(DoServerReceives(s, hop, port))
  {
    forall es ensures |Stats.PublishAll(s.stats, es).channel| <= 100 {
      PublishBounded(s.stats, es);
    }
    hide Tokens.ParseServerSideToken, Accept, Stats.PublishAll;
  }

  lemma StepChannels(s: State, ev: Event)
    requires ChannelsBounded(s)
    ensures ChannelsBounded(Step(s, ev))
  {
    if Enabled(s, ev) {
      hide DoEndpointReceives, DoServerReceives;
      match ev {
        case EndpointReceives(e, id, draw, port) => ReceiveChannels(s, e, id, draw, port);
        case ServerReceives(hop, port) => ServerChannels(s, hop, port);
        case ServerForwards => hide Sources.Send;
        case _ =>
      }
    }
  }

  /** No buffer of the relay ever holds more than it has room for: 8192 packets in each queue and each channel
      for packets on their way back, 100 statistics events. */
  lemma {:induction false} BuffersBounded(s0: State, evs: seq<Event>)
    requires Initial(s0)
    ensures var s := Run(s0, evs);
            && |s.serverBack| <= 8192 && |s.stats.channel| <= 100
            && (forall p :: |s.server.pool.QueueOf(p)| <= 8192)
            && (forall e | 0 <= e < |s.endpoints| ::
                  |s.endpoints[e].back| <= 8192 && forall p :: |s.endpoints[e].stage.pool.QueueOf(p)| <= 8192)
  {
    AlwaysBounded(s0, evs);
    ChannelsAlways(s0, evs);
    hide Run;
    forall e, p | 0 <= e < |Run(s0, evs).endpoints|
      ensures |Run(s0, evs).endpoints[e].stage.pool.QueueOf(p)| <= 8192
    {
      assert Bounded(Run(s0, evs).endpoints[e].stage);
    }
  }

  lemma {:induction false} ChannelsAlways(s0: State, evs: seq<Event>)
    requires Initial(s0)
    ensures ChannelsBounded(Run(s0, evs))
  {
    if evs == [] {
      forall e | 0 <= e < |s0.endpoints| ensures |s0.endpoints[e].back| == 0 {
        assert s0.endpoints[e] == NewEndpoint(s0.endpoints[e].port, s0.endpoints[e].Player());
      }
    } else {
      hide Step, ChannelsBounded, Initial;
      ChannelsAlways(s0, evs[..|evs| - 1]);
      StepChannels(Run(s0, evs[..|evs| - 1]), evs[|evs| - 1]);
    }
  }
}
