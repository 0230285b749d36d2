/** No packet of the game server is delivered twice: every datagram it sent is in one place at a time. */
module RelayDistinct {
  import opened Text
  import opened Connections
  import opened Stages
  import opened Relay
  import opened Tokens
  import Sources
  import Commands

  ghost predicate Distinct(ids: seq<nat>) {
    forall i, j | 0 <= i < j < |ids| :: ids[i] != ids[j]
  }

  function BackIds(back: seq<Back>): (ids: seq<nat>)
    ensures |ids| == |back|
  {
    seq(|back|, i requires 0 <= i < |back| => back[i].id)
  }

  function ReplyIds(replies: seq<Answer>): (ids: seq<nat>)
    ensures |ids| == |replies|
  {
    seq(|replies|, i requires 0 <= i < |replies| => replies[i].id)
  }

  function DeliveredIds(delivered: seq<Delivery>): (ids: seq<nat>)
    ensures |ids| == |delivered|
  {
    seq(|delivered|, i requires 0 <= i < |delivered| => delivered[i].id)
  }

  /** The game server's datagrams that this endpoint has delivered or holds. */
  function Ids(ep: Endpoint): seq<nat> {
    DeliveredIds(ep.delivered) + BackIds(ep.back)
  }

  // ---------------------------------------------------------------- the invariant

  /** Replies are distinct from each other and from what the network and the server-side proxy still hold. */
  ghost predicate ServerSide(back: seq<nat>, replied: seq<nat>, pending: set<nat>, n: nat) {
    && Distinct(back + replied)
    && (forall id | id in pending :: id < n)
    && (forall i | 0 <= i < |back + replied| :: (back + replied)[i] < n && (back + replied)[i] !in pending)
  }

  /** What an endpoint holds are replies that the network no longer has. */
  ghost predicate Taken(ids: seq<nat>, replied: seq<nat>, pending: set<nat>) {
    forall x | x in ids :: Gone(x, replied, pending)
  }

  ghost predicate Gone(x: nat, replied: seq<nat>, pending: set<nat>) {
    exists r :: 0 <= r < |replied| && r !in pending && replied[r] == x
  }

  ghost predicate EndpointsApart(endpoints: seq<Endpoint>, replied: seq<nat>, pending: set<nat>) {
    && (forall e | 0 <= e < |endpoints| :: Distinct(Ids(endpoints[e])) && Taken(Ids(endpoints[e]), replied, pending))
    && (forall e, f, x | 0 <= e < f < |endpoints| && x in Ids(endpoints[e]) :: x !in Ids(endpoints[f]))
  }

  ghost predicate DistinctInv(s: State) {
    && ServerSide(BackIds(s.serverBack), ReplyIds(s.replies), s.gamePending, |s.gameSends|)
    && (forall r | r in s.repliesPending :: r < |s.replies|)
    && EndpointsApart(s.endpoints, ReplyIds(s.replies), s.repliesPending)
  }

  // ---------------------------------------------------------------- at the server-side proxy

  lemma ReadsGame(back: seq<nat>, replied: seq<nat>, pending: set<nat>, n: nat, id: nat)
    requires ServerSide(back, replied, pending, n) && id in pending
    ensures ServerSide(back + [id], replied, pending - {id}, n)
  {
    var (a, b) := (back + replied, back + [id] + replied);
    forall i | 0 <= i < |b| ensures b[i] == id || (exists j :: 0 <= j < |a| && b[i] == a[j]) {
      if i != |back| {
        assert b[i] == a[if i < |back| then i else i - 1];
      }
    }
    forall i, j | 0 <= i < j < |b| ensures b[i] != b[j] {
      assert i != |back| ==> b[i] == a[if i < |back| then i else i - 1];
      assert j != |back| ==> b[j] == a[if j < |back| then j else j - 1];
    }
  }

  lemma DropsFirst(back: seq<nat>, replied: seq<nat>, pending: set<nat>, n: nat)
    requires ServerSide(back, replied, pending, n) && back != []
    ensures ServerSide(back[1..], replied, pending, n)
  {
    var (a, b) := (back + replied, back[1..] + replied);
    assert forall i | 0 <= i < |b| :: b[i] == a[i + 1];
  }

  lemma RepliesFirst(back: seq<nat>, replied: seq<nat>, pending: set<nat>, n: nat)
    requires ServerSide(back, replied, pending, n) && back != []
    ensures ServerSide(back[1..], replied + [back[0]], pending, n)
  {
    var (a, b) := (back + replied, back[1..] + (replied + [back[0]]));
    assert forall i | 0 <= i < |b| - 1 :: b[i] == a[i + 1];
    assert b[|b| - 1] == a[0];
  }

  lemma StillTaken(endpoints: seq<Endpoint>, replied: seq<nat>, pending: set<nat>, replied': seq<nat>, pending': set<nat>)
    requires EndpointsApart(endpoints, replied, pending) && replied <= replied'
    requires forall r | r in pending' :: r in pending || r >= |replied|
    ensures EndpointsApart(endpoints, replied', pending')
  {
    forall e | 0 <= e < |endpoints| ensures Taken(Ids(endpoints[e]), replied', pending') {
      forall x | x in Ids(endpoints[e]) ensures Gone(x, replied', pending') {
        assert Gone(x, replied, pending);
        var r :| 0 <= r < |replied| && r !in pending && replied[r] == x;
        assert replied'[r] == x;
      }
    }
  }

  lemma ForwardsDistinct(s: State)
    requires DistinctInv(s) && Enabled(s, ServerForwards)
    ensures DistinctInv(DoServerForwards(s))
  {
    hide EndpointsApart, ServerSide, Sources.Send;
    var s' := DoServerForwards(s);
    var (back, replied) := (BackIds(s.serverBack), ReplyIds(s.replies));
    assert BackIds(s'.serverBack) == back[1..];
    if s'.replies == s.replies {
      DropsFirst(back, replied, s.gamePending, |s.gameSends|);
    } else {
      assert ReplyIds(s'.replies) == replied + [back[0]];
      RepliesFirst(back, replied, s.gamePending, |s.gameSends|);
      StillTaken(s.endpoints, replied, s.repliesPending, ReplyIds(s'.replies), s'.repliesPending);
    }
  }

  lemma SocketReadsDistinct(s: State, id: nat)
    requires DistinctInv(s) && Enabled(s, ServerSocketReads(id))
    ensures DistinctInv(DoServerSocketReads(s, id))
  {
    hide EndpointsApart, ServerSide;
    var s' := DoServerSocketReads(s, id);
    ReadsGame(BackIds(s.serverBack), ReplyIds(s.replies), s.gamePending, |s.gameSends|, id);
    assert BackIds(s'.serverBack) == BackIds(s.serverBack) + [id];
  }

  // ---------------------------------------------------------------- at an endpoint

  /** One endpoint's packets were replaced by others that the rest do not have. */
  lemma ReplacedApart(endpoints: seq<Endpoint>, e: nat, ep: Endpoint, replied: seq<nat>, pending: set<nat>, pending': set<nat>)
    requires EndpointsApart(endpoints, replied, pending) && e < |endpoints| && pending' <= pending
    requires Distinct(Ids(ep)) && Taken(Ids(ep), replied, pending')
    requires forall f | 0 <= f < |endpoints| && f != e :: forall x | x in Ids(ep) :: x !in Ids(endpoints[f])
    ensures EndpointsApart(endpoints[e := ep], replied, pending')
  {
    hide Ids;
    StillTaken(endpoints, replied, pending, replied, pending');
  }

  lemma AddedTaken(ids: seq<nat>, replied: seq<nat>, pending: set<nat>, r: nat)
    requires Distinct(ids) && Taken(ids, replied, pending) && Distinct(replied) && r in pending && r < |replied|
    ensures Distinct(ids + [replied[r]]) && Taken(ids + [replied[r]], replied, pending - {r})
  {
    NotTaken(ids, replied, pending, r);
    forall x | x in ids + [replied[r]] ensures Gone(x, replied, pending - {r}) {
      if x in ids {
        assert Gone(x, replied, pending);
      } else {
        assert r !in pending - {r};
      }
    }
  }

  lemma NotTaken(ids: seq<nat>, replied: seq<nat>, pending: set<nat>, r: nat)
    requires Taken(ids, replied, pending) && Distinct(replied) && r in pending && r < |replied|
    ensures replied[r] !in ids
  {
    assert replied[r] in ids ==> Gone(replied[r], replied, pending);
  }

  lemma RepliesDistinct(back: seq<nat>, replied: seq<nat>, pending: set<nat>, n: nat)
    requires ServerSide(back, replied, pending, n)
    ensures Distinct(replied)
  {
    assert forall i | 0 <= i < |replied| :: replied[i] == (back + replied)[|back| + i];
  }

  lemma EndpointReadsDistinct(s: State, e: nat, r: nat)
    requires DistinctInv(s) && Enabled(s, EndpointSocketReads(e, r))
    ensures DistinctInv(DoEndpointSocketReads(s, e, r))
  {
    var s' := DoEndpointSocketReads(s, e, r);
    var replied := ReplyIds(s.replies);
    RepliesDistinct(BackIds(s.serverBack), replied, s.gamePending, |s.gameSends|);
    assert Ids(s'.endpoints[e]) == Ids(s.endpoints[e]) + [replied[r]];
    assert Distinct(Ids(s.endpoints[e])) && Taken(Ids(s.endpoints[e]), replied, s.repliesPending);
    AddedTaken(Ids(s.endpoints[e]), replied, s.repliesPending, r);
    forall f | 0 <= f < |s.endpoints| && f != e
      ensures forall x | x in Ids(s'.endpoints[e]) :: x !in Ids(s.endpoints[f])
    {
      OthersHaveNone(s, e, f, r);
    }
    hide Distinct, Taken, ServerSide, Ids;
    ReplacedApart(s.endpoints, e, s'.endpoints[e], replied, s.repliesPending, s'.repliesPending);
  }

  lemma OthersHaveNone(s: State, e: nat, f: nat, r: nat)
    requires DistinctInv(s) && e < |s.endpoints| && f < |s.endpoints| && e != f && r < |s.replies| && r in s.repliesPending
    ensures forall x | x in Ids(s.endpoints[e]) + [ReplyIds(s.replies)[r]] :: x !in Ids(s.endpoints[f])
  {
    var replied := ReplyIds(s.replies);
    RepliesDistinct(BackIds(s.serverBack), replied, s.gamePending, |s.gameSends|);
    assert Taken(Ids(s.endpoints[f]), replied, s.repliesPending);
    NotTaken(Ids(s.endpoints[f]), replied, s.repliesPending, r);
  }

  /** Delivering moves the oldest packet or drops it. */
  lemma DeliverIds(ep: Endpoint, draw: int)
    requires ep.back != []
    ensures var (n, ids) := (|ep.delivered|, Ids(ep));
            Ids(Deliver(ep, draw)) == ids || Ids(Deliver(ep, draw)) == ids[..n] + ids[n + 1..]
  {
    var ep' := Deliver(ep, draw);
    assert BackIds(ep'.back) == BackIds(ep.back)[1..];
    if ep'.delivered != ep.delivered {
      assert DeliveredIds(ep'.delivered) == DeliveredIds(ep.delivered) + [ep.back[0].id];
    }
  }

  lemma WithoutOne(ids: seq<nat>, n: nat, replied: seq<nat>, pending: set<nat>)
    requires Distinct(ids) && Taken(ids, replied, pending) && n < |ids|
    ensures Distinct(ids[..n] + ids[n + 1..]) && Taken(ids[..n] + ids[n + 1..], replied, pending)
    ensures forall x | x in ids[..n] + ids[n + 1..] :: x in ids
  {
    var less := ids[..n] + ids[n + 1..];
    assert forall i | 0 <= i < |less| :: less[i] == ids[if i < n then i else i + 1];
  }

  lemma DeliversDistinct(s: State, e: nat, draw: int)
    requires DistinctInv(s) && Enabled(s, EndpointDelivers(e, draw))
    ensures DistinctInv(DoEndpointDelivers(s, e, draw))
  {
    var (ep, replied) := (s.endpoints[e], ReplyIds(s.replies));
    DeliverIds(ep, draw);
    assert Distinct(Ids(ep)) && Taken(Ids(ep), replied, s.repliesPending);
    WithoutOne(Ids(ep), |ep.delivered|, replied, s.repliesPending);
    hide Distinct, Taken, ServerSide, Ids, Deliver;
    ReplacedApart(s.endpoints, e, Deliver(ep, draw), replied, s.repliesPending, s.repliesPending);
  }

  // ---------------------------------------------------------------- every run

  /** A step that leaves the way back as it is. */
  lemma SameDistinct(s: State, s': State)
    requires DistinctInv(s) && |s'.endpoints| == |s.endpoints|
    requires forall e | 0 <= e < |s.endpoints| :: Ids(s'.endpoints[e]) == Ids(s.endpoints[e])
    requires s'.serverBack == s.serverBack && s'.replies == s.replies && s'.repliesPending == s.repliesPending
    requires s'.gameSends == s.gameSends && s'.gamePending == s.gamePending
    ensures DistinctInv(s')
  {
    hide Ids;
  }

  lemma HandleKeepsIds(ep: Endpoint, h: Commands.Handler, r: Commands.Preprocessed, origin: Origin, client: int, port: Option<int>)
    ensures Ids(Handle(ep, h, r, origin, client, port).0) == Ids(ep)
  {
    hide Accept;
  }

  lemma ReceivesDistinct(s: State, e: nat, id: nat, draw: int, port: Option<int>)
    requires DistinctInv(s) && Enabled(s, EndpointReceives(e, id, draw, port))
    ensures DistinctInv(DoEndpointReceives(s, e, id, draw, port))
  {
    var send := s.sends[id];
    var (h, t, r) := Commands.Preprocess(s.endpoints[e].handler, Current(s), Truncate(send.data), draw);
    hide Commands.Preprocess, DistinctInv, Accept;
    HandleKeepsIds(s.endpoints[e], h, r, Origin(id, |s.tables| - 1), send.client, port);
    hide Handle, Ids;
    SameDistinct(s, DoEndpointReceives(s, e, id, draw, port));
  }

  lemma ForwardStepsDistinct(s: State, ev: Event)
    requires DistinctInv(s) && Enabled(s, ev)
    requires ev.ClientSends? || ev.EndpointWrites? || ev.ServerReceives? || ev.ServerWrites? || ev.Tick? || ev.StatsProcessed?
    ensures DistinctInv(Step(s, ev))
  {
    hide DistinctInv, ParseServerSideToken, Accept;
    SameDistinct(s, Step(s, ev));
  }

  lemma GameSendsDistinct(s: State, port: int, data: string)
    requires DistinctInv(s) && Enabled(s, GameSends(port, data))
    ensures DistinctInv(Step(s, GameSends(port, data)))
  {
    hide EndpointsApart, Distinct;
  }

  lemma StepDistinct(s: State, ev: Event)
    requires DistinctInv(s)
    ensures DistinctInv(Step(s, ev))
  {
    hide DistinctInv;
    if Enabled(s, ev) {
      match ev {
        case EndpointReceives(e, id, draw, port) => ReceivesDistinct(s, e, id, draw, port);
        case GameSends(port, data) => GameSendsDistinct(s, port, data);
        case ServerSocketReads(id) => SocketReadsDistinct(s, id);
        case ServerForwards => ForwardsDistinct(s);
        case EndpointSocketReads(e, r) => EndpointReadsDistinct(s, e, r);
        case EndpointDelivers(e, draw) => DeliversDistinct(s, e, draw);
        case _ => ForwardStepsDistinct(s, ev);
      }
    }
  }

  lemma InitialDistinct(s: State)
    requires Initial(s)
    ensures DistinctInv(s)
  {
    forall e | 0 <= e < |s.endpoints| ensures Ids(s.endpoints[e]) == [] {
      assert s.endpoints[e] == NewEndpoint(s.endpoints[e].port, s.endpoints[e].Player());
    }
  }

  lemma {:induction false} DistinctAlways(s: State, evs: seq<Event>)
    requires Initial(s)
    ensures DistinctInv(Run(s, evs))
  {
    if evs == [] {
      InitialDistinct(s);
    } else {
      DistinctAlways(s, evs[..|evs| - 1]);
      StepDistinct(Run(s, evs[..|evs| - 1]), evs[|evs| - 1]);
    }
  }

  /** After every run, distinct deliveries, at one endpoint or at two, are of distinct datagrams of the game
      server. */
  lemma DistinctDeliveries(s0: State, evs: seq<Event>, e: nat, i: nat, f: nat, j: nat)
    requires Initial(s0) && e < |Run(s0, evs).endpoints| && f < |Run(s0, evs).endpoints|
    requires i < |Run(s0, evs).endpoints[e].delivered| && j < |Run(s0, evs).endpoints[f].delivered|
    requires e != f || i != j
    ensures Run(s0, evs).endpoints[e].delivered[i].id != Run(s0, evs).endpoints[f].delivered[j].id
  {
    hide Run, Initial, EndpointsApart;
    DistinctAlways(s0, evs);
    var s := Run(s0, evs);
    DeliveriesDiffer(s.endpoints, ReplyIds(s.replies), s.repliesPending, e, i, f, j);
  }

  lemma DeliveriesDiffer(endpoints: seq<Endpoint>, replied: seq<nat>, pending: set<nat>, e: nat, i: nat, f: nat, j: nat)
    requires EndpointsApart(endpoints, replied, pending) && e < |endpoints| && f < |endpoints|
    requires i < |endpoints[e].delivered| && j < |endpoints[f].delivered| && (e != f || i != j)
    ensures endpoints[e].delivered[i].id != endpoints[f].delivered[j].id
  {
    hide Ids, Taken;
    DeliveredAmongIds(endpoints[e], i);
    DeliveredAmongIds(endpoints[f], j);
    var (a, b) := (Ids(endpoints[e]), Ids(endpoints[f]));
    assert Distinct(a) && a[i] in a && b[j] in b;
    if e == f {
      assert if i < j then a[i] != a[j] else a[j] != a[i];
    } else if e < f {
      assert a[i] !in b;
    } else {
      assert b[j] !in a;
    }
  }

  lemma DeliveredAmongIds(ep: Endpoint, i: nat)
    requires i < |ep.delivered|
    ensures i < |Ids(ep)| && Ids(ep)[i] == ep.delivered[i].id
  {
  }
}
