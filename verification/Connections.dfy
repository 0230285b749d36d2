/** The pool of client connections of a proxy: for each player one dedicated socket with a bounded
    queue of packets to send through it, found by player number and by return port. */
module Connections {
  import opened Text
  import opened Sources
  import opened Stats

  const BUFFER_SIZE: nat := 8192

  /** A read into the 8192-byte buffer cuts longer datagrams. */
  function Truncate(data: string): (r: string)
    ensures r <= data && |r| == if |data| > 8192 then 8192 else |data|
  {
    if |data| > BUFFER_SIZE then data[..BUFFER_SIZE] else data
  }

  /** The port of the connection's socket, and what is waiting to be sent through it. */
  datatype Conn<M> = Conn(port: int, queue: seq<M>)

  /** Where to return traffic to, and whose port it is. */
  datatype ConnInfo = ConnInfo(client: Addr, player: int)

  datatype Pool<M> = Pool(conns: map<int, Conn<M>>, infos: map<int, ConnInfo>)
  {
    /** The player a return port belongs to. */
    function OwnerOf(port: int): Option<int> {
      if port in infos then Some(infos[port].player) else None
    }

    /** The client behind a return port. */
    function ClientOf(port: int): Option<Addr> {
      if port in infos then Some(infos[port].client) else None
    }

    function QueueOf(player: int): seq<M> {
      if player in conns then conns[player].queue else []
    }

    /** Every player's port leads back to the player, and every port's player has that port. */
    ghost predicate Inverse() {
      && (forall p | p in conns :: conns[p].port in infos && infos[conns[p].port].player == p)
      && (forall q | q in infos :: infos[q].player in conns && conns[infos[q].player].port == q)
    }
  }

  function EmptyPool<M>(): Pool<M> {
    Pool(map[], map[])
  }

  // ---------------------------------------------------------------- opening and closing

  /** `GetOrCreateClientConnection`: `port` is what the operating system answers when a socket is needed.
      `None` is a failure to get one. */
  function GetOrCreate<M>(pool: Pool<M>, player: int, client: Addr, port: Option<int>): Option<Pool<M>> {
    if player in pool.conns then Some(pool)
    else if port.None? then None
    else Some(Pool(pool.conns[player := Conn(port.value, [])], pool.infos[port.value := ConnInfo(client, player)]))
  }

  function Close<M>(pool: Pool<M>, player: int): Pool<M> {
    if player in pool.conns then Pool(pool.conns - {player}, pool.infos - {pool.conns[player].port}) else pool
  }

  /** A non-blocking send to the connection's queue; the packet is dropped if the queue is full. */
  function Offer<M>(pool: Pool<M>, player: int, m: M): Pool<M>
    requires player in pool.conns
  {
    var c := pool.conns[player];
    if |c.queue| < BUFFER_SIZE then pool.(conns := pool.conns[player := Conn(c.port, c.queue + [m])]) else pool
  }

  /** A packet for a player goes to the player's connection, which is created if there is none. */
  function Enqueue<M>(pool: Pool<M>, player: int, client: Addr, port: Option<int>, m: M): Option<Pool<M>> {
    var r := GetOrCreate(pool, player, client, port);
    if r.None? then None else Some(Offer(r.value, player, m))
  }

  /** The oldest packet leaves the queue. */
  function Take<M>(pool: Pool<M>, player: int): Pool<M>
    requires pool.QueueOf(player) != []
  {
    var c := pool.conns[player];
    pool.(conns := pool.conns[player := Conn(c.port, c.queue[1..])])
  }

  datatype PoolOp<M> =
    | GetOrCreateOp(player: int, client: Addr, port: Option<int>)
    | CloseOp(player: int)
    | OfferOp(player: int, m: M)
    | TakeOp(player: int)

  function Apply<M>(pool: Pool<M>, op: PoolOp<M>): Pool<M> {
    match op
    case GetOrCreateOp(player, client, port) =>
      var r := GetOrCreate(pool, player, client, port);
      if r.Some? then r.value else pool
    case CloseOp(player) => Close(pool, player)
    case OfferOp(player, m) => if player in pool.conns then Offer(pool, player, m) else pool
    case TakeOp(player) => if pool.QueueOf(player) != [] then Take(pool, player) else pool
  }

  function ApplyAll<M>(pool: Pool<M>, ops: seq<PoolOp<M>>): Pool<M>
    decreases |ops|
  {
    if ops == [] then pool else ApplyAll(Apply(pool, ops[0]), ops[1..])
  }

  /** The operating system never hands out a port that is in use. */
  ghost predicate FreshPorts<M>(pool: Pool<M>, ops: seq<PoolOp<M>>)
    decreases |ops|
  {
    ops == [] ||
    (&& (ops[0].GetOrCreateOp? && ops[0].port.Some? ==> ops[0].port.value !in pool.infos)
     && FreshPorts(Apply(pool, ops[0]), ops[1..]))
  }

  lemma ApplyKeepsInverse<M>(pool: Pool<M>, op: PoolOp<M>)
    requires pool.Inverse()
    requires op.GetOrCreateOp? && op.port.Some? ==> op.port.value !in pool.infos
    ensures Apply(pool, op).Inverse()
  {
    match op {
      case CloseOp(player) => CloseKeepsInverse(pool, player);
      case _ =>
    }
  }

  lemma CloseKeepsInverse<M>(pool: Pool<M>, player: int)
    requires pool.Inverse()
    ensures Close(pool, player).Inverse()
  {
  }

  /** Players and ports stay in one-to-one correspondence through any sequence of operations. */
  lemma {:induction false} InverseForever<M>(pool: Pool<M>, ops: seq<PoolOp<M>>)
    requires pool.Inverse() && FreshPorts(pool, ops)
    ensures ApplyAll(pool, ops).Inverse()
    decreases |ops|
  {
    if ops != [] {
      ApplyKeepsInverse(pool, ops[0]);
      InverseForever(Apply(pool, ops[0]), ops[1..]);
    }
  }

  lemma ApplyKeepsConnection<M>(pool: Pool<M>, op: PoolOp<M>, player: int)
    requires pool.Inverse() && player in pool.conns && op != CloseOp(player)
    requires op.GetOrCreateOp? && op.port.Some? ==> op.port.value !in pool.infos
    ensures var pool' := Apply(pool, op);
            && player in pool'.conns && pool'.conns[player].port == pool.conns[player].port
            && pool'.ClientOf(pool.conns[player].port) == pool.ClientOf(pool.conns[player].port)
  {
    match op {
      case CloseOp(other) => assert other in pool.conns ==> pool.infos[pool.conns[other].port].player == other;
      case _ =>
    }
  }

  /** A player who is not closed keeps one and the same connection, and the client address recorded when
      it was created, whatever else happens: every later get-or-create returns that connection. */
  lemma {:induction false} SameConnection<M>(pool: Pool<M>, ops: seq<PoolOp<M>>, player: int)
    requires pool.Inverse() && FreshPorts(pool, ops) && player in pool.conns && CloseOp(player) !in ops
    ensures var pool' := ApplyAll(pool, ops);
            && player in pool'.conns && pool'.conns[player].port == pool.conns[player].port
            && pool'.ClientOf(pool.conns[player].port) == pool.ClientOf(pool.conns[player].port)
            && forall client, port :: GetOrCreate(pool', player, client, port) == Some(pool')
    decreases |ops|
  {
    if ops != [] {
      ApplyKeepsConnection(pool, ops[0], player);
      ApplyKeepsInverse(pool, ops[0]);
      SameConnection(Apply(pool, ops[0]), ops[1..], player);
    }
  }

  /** The address recorded for a player is the one of the packet that made the connection, and stays so until
      the player is closed. */
  lemma FirstClientKept<M>(pool: Pool<M>, player: int, client: Addr, port: int, ops: seq<PoolOp<M>>)
    requires pool.Inverse() && player !in pool.conns && port !in pool.infos
    requires FreshPorts(GetOrCreate(pool, player, client, Some(port)).value, ops) && CloseOp(player) !in ops
    ensures var pool' := ApplyAll(GetOrCreate(pool, player, client, Some(port)).value, ops);
            && player in pool'.conns && pool'.conns[player].port == port
            && pool'.ClientOf(port) == Some(client) && pool'.OwnerOf(port) == Some(player)
  {
    var made := GetOrCreate(pool, player, client, Some(port)).value;
    ApplyKeepsInverse(pool, GetOrCreateOp(player, client, Some(port)));
    SameConnection(made, ops, player);
    InverseForever(made, ops);
  }

  // ---------------------------------------------------------------- the pool in place

  /** One disconnect event for each of the players. */
  ghost function Goodbyes(players: set<int>): multiset<StatsEvent> {
    multiset(set p | p in players :: PlayerDisconnected(p))
  }

  lemma NoGoodbyes()
    ensures Goodbyes({}) == multiset{}
  {
  }

  lemma GoodbyesGrow(players: set<int>, p: int)
    requires p !in players
    ensures Goodbyes(players + {p}) == Goodbyes(players) + multiset{PlayerDisconnected(p)}
  {
    var (a, b) := ((set q | q in players :: PlayerDisconnected(q)), (set q | q in players + {p} :: PlayerDisconnected(q)));
    assert b == a + {PlayerDisconnected(p)} && PlayerDisconnected(p) !in a;
  }

  class ClientConnection<M> {
    const returnTrafficPort: int
    var serverBoundTrafficChan: seq<M>
    /** Whether the channel was closed, and whether the socket is still open. */
    var closed: bool
    var socketOpen: bool
    /** The one player this connection was made for. */
    ghost const player: int

    constructor (port: int, ghost player: int)
      ensures returnTrafficPort == port && this.player == player
      ensures serverBoundTrafficChan == [] && !closed && socketOpen
    {
      returnTrafficPort := port;
      serverBoundTrafficChan := [];
      closed, socketOpen := false, true;
      this.player := player;
    }

    function View(): Conn<M>
      reads this
    {
      Conn(returnTrafficPort, serverBoundTrafficChan)
    }
  }

  class ClientConnectionPool<M> {
    var clientConnectionMap: map<int, ClientConnection<M>>
    var clientConnectionPortMap: map<int, ConnInfo>
    ghost var connections: set<ClientConnection<M>>

    /** Connections are not shared, and every connection in the pool is open: the proxy never sends on
        a closed channel. */
    ghost predicate Valid()
      reads this, connections
    {
      forall p | p in clientConnectionMap ::
        var c := clientConnectionMap[p];
        c in connections && c.player == p && !c.closed
    }

    ghost function View(): Pool<M>
      requires Valid()
      reads this, connections
    {
      Pool(map p | p in clientConnectionMap :: clientConnectionMap[p].View(), clientConnectionPortMap)
    }

    constructor ()
      ensures Valid() && connections == {}
      ensures View() == EmptyPool<M>()
    {
      clientConnectionMap := map[];
      clientConnectionPortMap := map[];
      connections := {};
    }

    /** A new connection is published; an existing one is returned as it is. */
    method GetOrCreateClientConnection(player: int, client: Addr, port: Option<int>)
      returns (conn: Option<ClientConnection<M>>, events: seq<StatsEvent>)
      requires Valid()
      modifies this
      ensures Valid() && connections >= old(connections) && fresh(connections - old(connections))
      ensures var r := GetOrCreate(old(View()), player, client, port);
              if r.None? then conn.None? && View() == old(View())
              else View() == r.value && player in clientConnectionMap && conn == Some(clientConnectionMap[player])
      ensures player in old(clientConnectionMap) ==> conn == Some(old(clientConnectionMap)[player])
      ensures events == if conn.Some? && player !in old(clientConnectionMap) then [PlayerConnected(player)] else []
    {
      events := [];
      if player in clientConnectionMap {
        conn := Some(clientConnectionMap[player]);
        return;
      }
      if port.None? {
        conn := None;
        return;
      }
      var c := new ClientConnection(port.value, player);
      clientConnectionMap := clientConnectionMap[player := c];
      clientConnectionPortMap := clientConnectionPortMap[c.returnTrafficPort := ConnInfo(client, player)];
      connections := connections + {c};
      conn, events := Some(c), [PlayerConnected(player)];
    }

    method CloseClientConnection(player: int) returns (events: seq<StatsEvent>)
      requires Valid()
      modifies this, connections
      ensures Valid() && connections == old(connections)
      ensures View() == Close(old(View()), player)
      ensures clientConnectionMap == old(clientConnectionMap) - {player}
      ensures player in old(clientConnectionMap) ==>
                var c := old(clientConnectionMap)[player];
                c.closed && (c.returnTrafficPort in old(clientConnectionPortMap) ==> !c.socketOpen)
      ensures events == if player in old(clientConnectionMap) then [PlayerDisconnected(player)] else []
      ensures forall c | c in connections && c.player != player ::
                c.closed == old(c.closed) && c.socketOpen == old(c.socketOpen)
    {
      events := [];
      if player in clientConnectionMap {
        var c := clientConnectionMap[player];
        if c.returnTrafficPort in clientConnectionPortMap {
          c.socketOpen := false;
          clientConnectionPortMap := clientConnectionPortMap - {c.returnTrafficPort};
        }
        c.closed := true;
        clientConnectionMap := clientConnectionMap - {player};
        events := [PlayerDisconnected(player)];
        assert forall p | p in clientConnectionMap :: clientConnectionMap[p].player == p;
        assert View().conns == old(View()).conns - {player};
      }
    }

    /** The closing loop of `Proxy.Close`: every connection is closed and each is published once, and when
        the maps were inverse, every socket is closed and nothing is left in either map. */
    method CloseAll() returns (events: seq<StatsEvent>)
      requires Valid()
      modifies this, connections
      ensures Valid() && connections == old(connections)
      ensures clientConnectionMap == map[]
      ensures forall p | p in old(clientConnectionMap) :: old(clientConnectionMap)[p].closed
      ensures multiset(events) == Goodbyes(old(clientConnectionMap).Keys)
      ensures old(View()).Inverse() ==>
                && clientConnectionPortMap == map[]
                && forall p | p in old(clientConnectionMap) :: !old(clientConnectionMap)[p].socketOpen
    {
      NoGoodbyes();
      hide Goodbyes;
      events := [];
      var players := clientConnectionMap.Keys;
      ghost var all := clientConnectionMap;
      assert all.Keys - players == {};
      while players != {}
        invariant Valid() && connections == old(connections)
        invariant players == clientConnectionMap.Keys <= all.Keys
        invariant forall p | p in clientConnectionMap :: all[p] == clientConnectionMap[p]
        invariant forall p | p in all :: all[p].player == p && (p in players || all[p].closed)
        invariant forall p | p in all :: all[p] in connections
        invariant old(View()).Inverse() ==> View().Inverse() && forall p | p in all :: p in players || !all[p].socketOpen
        invariant multiset(events) == Goodbyes(all.Keys - players)
        decreases players
      {
        var p :| p in players;
        CloseKeepsInverseIf(View(), p);
        var goodbye := CloseClientConnection(p);
        GoodbyesGrow(all.Keys - players, p);
        assert all.Keys - players + {p} == all.Keys - (players - {p});
        events := events + goodbye;
        players := players - {p};
      }
      assert all.Keys - players == all.Keys;
      assert View().conns == map[];
      NoPortWithoutPlayer(View());
    }

    lemma NoPortWithoutPlayer(pool: Pool<M>)
      requires pool.conns == map[]
      ensures pool.Inverse() ==> pool.infos == map[]
    {
      forall q ensures pool.Inverse() ==> q !in pool.infos {
      }
    }

    lemma CloseKeepsInverseIf(pool: Pool<M>, p: int)
      ensures pool.Inverse() ==> Close(pool, p).Inverse()
    {
      if pool.Inverse() {
        CloseKeepsInverse(pool, p);
      }
    }

    /** A non-blocking send to a player's queue. */
    method Send(player: int, m: M) returns (kept: bool)
      requires Valid() && player in clientConnectionMap
      modifies connections
      ensures Valid()
      ensures View() == Offer(old(View()), player, m)
      ensures kept <==> |old(View()).QueueOf(player)| < BUFFER_SIZE
    {
      var c := clientConnectionMap[player];
      kept := |c.serverBoundTrafficChan| < BUFFER_SIZE;
      if kept {
        c.serverBoundTrafficChan := c.serverBoundTrafficChan + [m];
        assert forall p | p in clientConnectionMap :: clientConnectionMap[p].player == p;
        assert View().conns == old(View()).conns[player := c.View()];
      }
    }

    /** One step of the socket loop: the oldest queued packet is written to the destination. */
    method WriteNext(player: int) returns (m: M)
      requires Valid() && player in clientConnectionMap && clientConnectionMap[player].serverBoundTrafficChan != []
      modifies connections
      ensures Valid()
      ensures m == old(View()).QueueOf(player)[0]
      ensures View() == Take(old(View()), player)
    {
      var c := clientConnectionMap[player];
      m := c.serverBoundTrafficChan[0];
      c.serverBoundTrafficChan := c.serverBoundTrafficChan[1..];
      assert forall p | p in clientConnectionMap :: clientConnectionMap[p].player == p;
      assert View().conns == old(View()).conns[player := c.View()];
    }
  }
}
