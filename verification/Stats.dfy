/** Statistics events: proxies publish them without blocking, the collector counts them. */
module Stats {
  import opened Ports

  const EVENT_BUFFER: nat := 100

  datatype StatsEvent =
    | ValidPacketProcessed(port: int)
    | MalformedPacketProcessed(port: int)
    | PlayerConnected(player: int)
    | PlayerDisconnected(player: int)
    | DegradationUpdate(port: int, percent: int)

  /** What the collector knows. */
  datatype Counters = Counters(endpointStats: map<int, ProxyStats>, playerConnections: map<int, bool>)
  {
    function Valid(port: int): nat {
      if port in endpointStats then endpointStats[port].validPackets else 0
    }

    function Malformed(port: int): nat {
      if port in endpointStats then endpointStats[port].malformedPackets else 0
    }
  }

  /** `processEvent`: events about unknown ports are ignored. */
  function Process(c: Counters, e: StatsEvent): Counters {
    match e
    case ValidPacketProcessed(q) =>
      if q !in c.endpointStats then c
      else
        var s := c.endpointStats[q];
        c.(endpointStats := c.endpointStats[q := s.(validPackets := s.validPackets + 1)])
    case MalformedPacketProcessed(q) =>
      if q !in c.endpointStats then c
      else
        var s := c.endpointStats[q];
        c.(endpointStats := c.endpointStats[q := s.(malformedPackets := s.malformedPackets + 1)])
    case PlayerConnected(p) => c.(playerConnections := c.playerConnections[p := true])
    case PlayerDisconnected(p) => c.(playerConnections := c.playerConnections - {p})
    case DegradationUpdate(q, percent) =>
      if q !in c.endpointStats then c
      else c.(endpointStats := c.endpointStats[q := c.endpointStats[q].(degradation := percent)])
  }

  /** The event channel and the collector behind it. */
  datatype Collection = Collection(channel: seq<StatsEvent>, counters: Counters)

  /** A non-blocking publish: dropped when the channel is full. */
  function Publish(c: Collection, e: StatsEvent): Collection {
    if |c.channel| < EVENT_BUFFER then c.(channel := c.channel + [e]) else c
  }

  function PublishAll(c: Collection, es: seq<StatsEvent>): Collection
    decreases |es|
  {
    if es == [] then c else PublishAll(Publish(c, es[0]), es[1..])
  }

  function ProcessNext(c: Collection): Collection {
    if c.channel == [] then c else Collection(c.channel[1..], Process(c.counters, c.channel[0]))
  }

  /** For one port, at most `valid` valid-packet and `malformed` malformed-packet events are counted or
      still waiting. */
  ghost predicate AtMost(c: Collection, port: int, valid: nat, malformed: nat) {
    && c.counters.Valid(port) + multiset(c.channel)[ValidPacketProcessed(port)] <= valid
    && c.counters.Malformed(port) + multiset(c.channel)[MalformedPacketProcessed(port)] <= malformed
  }

  lemma ProcessKeepsAtMost(c: Collection, port: int, valid: nat, malformed: nat)
    requires AtMost(c, port, valid, malformed)
    ensures AtMost(ProcessNext(c), port, valid, malformed)
  {
    if c.channel != [] {
      assert c.channel == [c.channel[0]] + c.channel[1..];
    }
  }

  lemma PublishKeepsAtMost(c: Collection, e: StatsEvent, port: int, valid: nat, malformed: nat)
    requires AtMost(c, port, valid, malformed)
    ensures AtMost(Publish(c, e), port,
                   valid + (if e == ValidPacketProcessed(port) then 1 else 0),
                   malformed + (if e == MalformedPacketProcessed(port) then 1 else 0))
  {
  }

  /** Publishing several events raises a port's bounds by no more than the events about that port. */
  lemma {:induction false} PublishAllKeepsAtMost(c: Collection, es: seq<StatsEvent>, port: int, valid: nat, malformed: nat)
    requires AtMost(c, port, valid, malformed)
    ensures AtMost(PublishAll(c, es), port,
                   valid + multiset(es)[ValidPacketProcessed(port)],
                   malformed + multiset(es)[MalformedPacketProcessed(port)])
    decreases |es|
  {
    if es != [] {
      PublishKeepsAtMost(c, es[0], port, valid, malformed);
      assert es == [es[0]] + es[1..];
      PublishAllKeepsAtMost(Publish(c, es[0]), es[1..], port,
                            valid + (if es[0] == ValidPacketProcessed(port) then 1 else 0),
                            malformed + (if es[0] == MalformedPacketProcessed(port) then 1 else 0));
    }
  }

  /** Events are kept, in order, as long as there is room for them. */
  lemma {:induction false} PublishAllKeeps(c: Collection, es: seq<StatsEvent>)
    requires |c.channel| + |es| <= 100
    ensures PublishAll(c, es) == Collection(c.channel + es, c.counters)
    decreases |es|
  {
    if es == [] {
      assert c.channel + es == c.channel;
    } else {
      PublishAllKeeps(Publish(c, es[0]), es[1..]);
      assert c.channel + es == c.channel + [es[0]] + es[1..];
    }
  }

  /** With a hundred events waiting, further ones are lost. */
  lemma {:induction false} FullChannelDrops(c: Collection, es: seq<StatsEvent>)
    requires |c.channel| >= 100
    ensures PublishAll(c, es) == c
    decreases |es|
  {
    if es != [] {
      FullChannelDrops(c, es[1..]);
    }
  }

  function Drain(c: Collection): Collection
    decreases |c.channel|
  {
    if c.channel == [] then c else Drain(ProcessNext(c))
  }

  /** Every event that got into the channel is counted, once, for the port it is about, if that is listed. */
  lemma {:induction false} DrainCounts(c: Collection, port: int)
    ensures var after := Drain(c).counters;
            && after.endpointStats.Keys == c.counters.endpointStats.Keys
            && after.Valid(port) == c.counters.Valid(port) +
               (if port in c.counters.endpointStats then multiset(c.channel)[ValidPacketProcessed(port)] else 0)
            && after.Malformed(port) == c.counters.Malformed(port) +
               (if port in c.counters.endpointStats then multiset(c.channel)[MalformedPacketProcessed(port)] else 0)
    decreases |c.channel|
  {
    if c.channel != [] {
      assert c.channel == [c.channel[0]] + c.channel[1..];
      DrainCounts(ProcessNext(c), port);
    }
  }

  /** The last event that says whether the player is connected is the `i`-th, and it says so. */
  ghost predicate ConnectedBy(es: seq<StatsEvent>, p: int, i: int) {
    && 0 <= i < |es| && es[i] == PlayerConnected(p)
    && forall j | i < j < |es| :: es[j] != PlayerDisconnected(p)
  }

  /** A player is shown, with the value true, exactly when the last event about that is a connect; without any event
      it is as before. */
  lemma {:induction false} ConnectionsShown(c: Collection, p: int)
    ensures p in Drain(c).counters.playerConnections <==>
            || (exists i :: ConnectedBy(c.channel, p, i))
            || (p in c.counters.playerConnections && PlayerDisconnected(p) !in c.channel)
    ensures var (before, after) := (c.counters.playerConnections, Drain(c).counters.playerConnections);
            (p in before ==> before[p]) && p in after ==> after[p]
    decreases |c.channel|
  {
    if c.channel != [] {
      var (e, rest) := (c.channel[0], c.channel[1..]);
      assert c.channel == [e] + rest;
      ConnectionsShown(ProcessNext(c), p);
      forall i | 0 <= i < |rest| ensures ConnectedBy(c.channel, p, i + 1) <==> ConnectedBy(rest, p, i) {
        assert forall j | i < j < |rest| :: rest[j] == c.channel[j + 1];
        assert forall j | i + 1 < j < |c.channel| :: c.channel[j] == rest[j - 1];
      }
      assert ConnectedBy(c.channel, p, 0) <==> e == PlayerConnected(p) && PlayerDisconnected(p) !in rest;
      forall i | ConnectedBy(c.channel, p, i) && i > 0 ensures ConnectedBy(rest, p, i - 1) {}
      forall i | ConnectedBy(rest, p, i) ensures ConnectedBy(c.channel, p, i + 1) {}
    }
  }

  /** The last update of the port's percentage is the `i`-th. */
  ghost predicate UpdatedBy(es: seq<StatsEvent>, q: int, i: int) {
    && 0 <= i < |es| && es[i].DegradationUpdate? && es[i].port == q
    && forall j | i < j < |es| :: !(es[j].DegradationUpdate? && es[j].port == q)
  }

  /** A listed port is shown with the percentage of its last update, or the one that it had. */
  lemma {:induction false} DegradationShown(c: Collection, q: int)
    requires q in c.counters.endpointStats
    ensures var after := Drain(c).counters.endpointStats;
            && q in after && after[q].port == c.counters.endpointStats[q].port
            && (forall i | UpdatedBy(c.channel, q, i) :: after[q].degradation == c.channel[i].percent)
            && ((forall i :: !UpdatedBy(c.channel, q, i)) ==>
                  after[q].degradation == c.counters.endpointStats[q].degradation)
    decreases |c.channel|
  {
    if c.channel != [] {
      var (e, rest) := (c.channel[0], c.channel[1..]);
      DegradationShown(ProcessNext(c), q);
      forall i | 0 <= i < |rest| ensures UpdatedBy(c.channel, q, i + 1) <==> UpdatedBy(rest, q, i) {
        assert forall j | i < j < |rest| :: rest[j] == c.channel[j + 1];
        assert forall j | i + 1 < j < |c.channel| :: c.channel[j] == rest[j - 1];
      }
      forall i | UpdatedBy(c.channel, q, i) && i > 0 ensures UpdatedBy(rest, q, i - 1) {}
      forall i | UpdatedBy(rest, q, i) ensures UpdatedBy(c.channel, q, i + 1) {}
      if UpdatedBy(c.channel, q, 0) {
        forall i ensures !UpdatedBy(rest, q, i) {
          assert 0 <= i < |rest| ==> rest[i] == c.channel[i + 1];
        }
      } else if e.DegradationUpdate? && e.port == q {
        var i := LastUpdate(rest, q);
      }
    }
  }

  lemma {:induction false} LastUpdate(es: seq<StatsEvent>, q: int) returns (i: int)
    requires exists j :: 0 <= j < |es| && es[j].DegradationUpdate? && es[j].port == q
    ensures UpdatedBy(es, q, i)
  {
    var n := |es| - 1;
    if es[n].DegradationUpdate? && es[n].port == q {
      i := n;
    } else {
      i := LastUpdate(es[..n], q);
    }
  }

  // ---------------------------------------------------------------- the collector in place

  class StatsCollector {
    var endpointStats: map<int, ProxyStats>
    var playerConnections: map<int, bool>

    function View(): Counters
      reads this
    {
      Counters(endpointStats, playerConnections)
    }

    constructor (endpointStats: map<int, ProxyStats>)
      ensures View() == Counters(endpointStats, map[])
    {
      this.endpointStats := endpointStats;
      playerConnections := map[];
    }

    method ProcessEvent(e: StatsEvent)
      modifies this
      ensures View() == Process(old(View()), e)
    {
      match e {
        case ValidPacketProcessed(q) => IncrementValidPacketCounter(q);
        case MalformedPacketProcessed(q) => IncrementMalformedPacketCounter(q);
        case PlayerConnected(p) => playerConnections := playerConnections[p := true];
        case PlayerDisconnected(p) => playerConnections := playerConnections - {p};
        case DegradationUpdate(q, percent) => UpdateDegradationPercentage(q, percent);
      }
    }

    method IncrementValidPacketCounter(q: int)
      modifies `endpointStats
      ensures View() == Process(old(View()), ValidPacketProcessed(q))
    {
      if q !in endpointStats {
        return;
      }
      var s := endpointStats[q];
      endpointStats := endpointStats[q := s.(validPackets := s.validPackets + 1)];
    }

    method IncrementMalformedPacketCounter(q: int)
      modifies `endpointStats
      ensures View() == Process(old(View()), MalformedPacketProcessed(q))
    {
      if q !in endpointStats {
        return;
      }
      var s := endpointStats[q];
      endpointStats := endpointStats[q := s.(malformedPackets := s.malformedPackets + 1)];
    }

    method UpdateDegradationPercentage(q: int, percent: int)
      modifies `endpointStats
      ensures View() == Process(old(View()), DegradationUpdate(q, percent))
    {
      if q !in endpointStats {
        return;
      }
      endpointStats := endpointStats[q := endpointStats[q].(degradation := percent)];
    }
  }
}
