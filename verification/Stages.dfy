/** One proxy of the relay seen from its packets: what it accepted, what its bounded queues hold and what
    its sockets wrote, in order.  Client-side endpoints and the server-side proxy are both stages. */
module Stages {
  import opened Text
  import opened Sources
  import opened Connections

  /** A packet the proxy accepted for a player; `id` says which datagram it came from, `kept` whether the
      player's queue had room for it. */
  datatype Accepted<I> = Accepted(id: I, player: int, data: string, kept: bool)

  /** A packet in a queue, with its place among the accepted ones. */
  datatype Queued = Queued(index: nat, data: string)

  /** A packet written from a player's socket to the destination. */
  datatype Written = Written(player: int, port: int, index: nat, data: string)

  datatype Stage<I> = Stage(pool: Pool<Queued>, accepted: seq<Accepted<I>>, written: seq<Written>)

  function NewStage<I>(): Stage<I> {
    Stage(EmptyPool(), [], [])
  }

  /** The proxy accepts a packet.  `None`: there is no socket for the player and none can be had. */
  function Accept<I>(s: Stage<I>, id: I, player: int, data: string, client: Addr, port: Option<int>): Option<Stage<I>> {
    var pool := Enqueue(s.pool, player, client, port, Queued(|s.accepted|, data));
    if pool.None? then None
    else
      var kept := |s.pool.QueueOf(player)| < BUFFER_SIZE;
      Some(Stage(pool.value, s.accepted + [Accepted(id, player, data, kept)], s.written))
  }

  /** The socket loop of a player's connection writes the oldest queued packet. */
  function Write<I>(s: Stage<I>, player: int): Stage<I>
    requires s.pool.QueueOf(player) != []
  {
    var c := s.pool.conns[player];
    Stage(Take(s.pool, player), s.accepted, s.written + [Written(player, c.port, c.queue[0].index, c.queue[0].data)])
  }

  // ---------------------------------------------------------------- the queue discipline

  /** The places of the packets accepted for a player for which there was room. */
  function KeptFor<I>(accepted: seq<Accepted<I>>, player: int): seq<nat> {
    if accepted == [] then []
    else
      var n := |accepted| - 1;
      KeptFor(accepted[..n], player) +
      (if accepted[n].player == player && accepted[n].kept then [n] else [])
  }

  function WrittenFor(written: seq<Written>, player: int): seq<nat> {
    if written == [] then []
    else
      var n := |written| - 1;
      WrittenFor(written[..n], player) + (if written[n].player == player then [written[n].index] else [])
  }

  function Indices(queue: seq<Queued>): (r: seq<nat>)
    ensures |r| == |queue|
  {
    seq(|queue|, i requires 0 <= i < |queue| => queue[i].index)
  }

  /** What was written for a player, followed by what is queued, is what was accepted for the player
      less what found the queue full: nothing is lost, repeated or reordered. */
  ghost predicate InOrder<I>(s: Stage<I>, player: int) {
    WrittenFor(s.written, player) + Indices(s.pool.QueueOf(player)) == KeptFor(s.accepted, player)
  }

  /** Queued and written packets are the accepted ones, and each player's packets leave from the
      player's own port. */
  ghost predicate Intact<I>(s: Stage<I>) {
    && (forall p, i | 0 <= i < |s.pool.QueueOf(p)| ::
          var q := s.pool.QueueOf(p)[i];
          q.index < |s.accepted| && q.data == s.accepted[q.index].data && s.accepted[q.index].player == p)
    && (forall w | w in s.written ::
          && w.index < |s.accepted| && w.data == s.accepted[w.index].data && s.accepted[w.index].player == w.player
          && w.player in s.pool.conns && w.port == s.pool.conns[w.player].port)
  }

  ghost predicate StageInv<I>(s: Stage<I>) {
    s.pool.Inverse() && (forall p :: InOrder(s, p)) && Intact(s)
  }

  lemma NewStageInv<I>()
    ensures StageInv(NewStage<I>())
  {
    forall p ensures InOrder(NewStage<I>(), p) {
      assert WrittenFor([], p) + Indices([]) == KeptFor<I>([], p);
    }
  }

  lemma KeptForSnoc<I>(accepted: seq<Accepted<I>>, a: Accepted<I>, p: int)
    ensures KeptFor(accepted + [a], p) ==
            KeptFor(accepted, p) + (if a.player == p && a.kept then [|accepted|] else [])
  {
    assert (accepted + [a])[..|accepted|] == accepted;
  }

  lemma WrittenForSnoc(written: seq<Written>, w: Written, p: int)
    ensures WrittenFor(written + [w], p) == WrittenFor(written, p) + (if w.player == p then [w.index] else [])
  {
    assert (written + [w])[..|written|] == written;
  }

  lemma EnqueueEffect<M>(pool: Pool<M>, player: int, client: Addr, port: Option<int>, m: M)
    requires pool.Inverse() && Enqueue(pool, player, client, port, m).Some?
    requires port.Some? ==> port.value !in pool.infos
    ensures var pool' := Enqueue(pool, player, client, port, m).value;
            && pool'.Inverse()
            && pool'.QueueOf(player) == pool.QueueOf(player) + (if |pool.QueueOf(player)| < BUFFER_SIZE then [m] else [])
            && (forall p | p != player :: pool'.QueueOf(p) == pool.QueueOf(p))
            && (forall p | p in pool.conns :: p in pool'.conns && pool'.conns[p].port == pool.conns[p].port)
            && pool'.conns.Keys == pool.conns.Keys + {player}
            && (forall q | q in pool.infos :: q in pool'.infos && pool'.infos[q] == pool.infos[q])
            && (player !in pool.conns ==> Some(pool'.conns[player].port) == port)
  {
  }

  lemma AcceptInOrder<I>(s: Stage<I>, id: I, player: int, data: string, client: Addr, port: Option<int>, p: int)
    requires StageInv(s) && (port.Some? ==> port.value !in s.pool.infos)
    requires Accept(s, id, player, data, client, port).Some?
    ensures InOrder(Accept(s, id, player, data, client, port).value, p)
  {
    var s' := Accept(s, id, player, data, client, port).value;
    var m := Queued(|s.accepted|, data);
    EnqueueEffect(s.pool, player, client, port, m);
    KeptForSnoc(s.accepted, s'.accepted[|s.accepted|], p);
    assert InOrder(s, p);
    var q := s.pool.QueueOf(p);
    assert Indices(q + [m]) == Indices(q) + [m.index];
    assert s'.pool.QueueOf(p) == q || s'.pool.QueueOf(p) == q + [m];
  }

  lemma AcceptIntact<I>(s: Stage<I>, id: I, player: int, data: string, client: Addr, port: Option<int>)
    requires StageInv(s) && (port.Some? ==> port.value !in s.pool.infos)
    requires Accept(s, id, player, data, client, port).Some?
    ensures Intact(Accept(s, id, player, data, client, port).value)
  {
    var s' := Accept(s, id, player, data, client, port).value;
    EnqueueEffect(s.pool, player, client, port, Queued(|s.accepted|, data));
    assert forall i | 0 <= i < |s.accepted| :: s'.accepted[i] == s.accepted[i];
  }

  lemma AcceptKeeps<I>(s: Stage<I>, id: I, player: int, data: string, client: Addr, port: Option<int>)
    requires StageInv(s) && (port.Some? ==> port.value !in s.pool.infos)
    requires Accept(s, id, player, data, client, port).Some?
    ensures StageInv(Accept(s, id, player, data, client, port).value)
  {
    EnqueueEffect(s.pool, player, client, port, Queued(|s.accepted|, data));
    AcceptIntact(s, id, player, data, client, port);
    forall p ensures InOrder(Accept(s, id, player, data, client, port).value, p) {
      AcceptInOrder(s, id, player, data, client, port, p);
    }
  }

  lemma HeadMoves(before: seq<nat>, q: seq<Queued>)
    requires q != []
    ensures before + Indices(q) == before + [q[0].index] + Indices(q[1..])
  {
    assert Indices(q) == [q[0].index] + Indices(q[1..]);
  }

  lemma WriteInOrder<I>(s: Stage<I>, player: int, p: int)
    requires StageInv(s) && s.pool.QueueOf(player) != []
    ensures InOrder(Write(s, player), p)
  {
    var s' := Write(s, player);
    WrittenForSnoc(s.written, s'.written[|s.written|], p);
    assert InOrder(s, p);
    if p == player {
      HeadMoves(WrittenFor(s.written, p), s.pool.QueueOf(p));
      assert s'.pool.QueueOf(p) == s.pool.QueueOf(p)[1..];
    } else {
      assert s'.pool.QueueOf(p) == s.pool.QueueOf(p);
    }
  }

  lemma WriteIntact<I>(s: Stage<I>, player: int)
    requires StageInv(s) && s.pool.QueueOf(player) != []
    ensures Intact(Write(s, player)) && Write(s, player).pool.Inverse()
  {
    var s' := Write(s, player);
    var q := s.pool.QueueOf(player);
    assert q[0].index < |s.accepted| && q[0].data == s.accepted[q[0].index].data;
    forall p, i | 0 <= i < |s'.pool.QueueOf(p)|
      ensures exists j :: 0 <= j < |s.pool.QueueOf(p)| && s'.pool.QueueOf(p)[i] == s.pool.QueueOf(p)[j]
    {
      assert s'.pool.QueueOf(p)[i] == s.pool.QueueOf(p)[if p == player then i + 1 else i];
    }
  }

  lemma WriteKeeps<I>(s: Stage<I>, player: int)
    requires StageInv(s) && s.pool.QueueOf(player) != []
    ensures StageInv(Write(s, player))
  {
    WriteIntact(s, player);
    forall p ensures InOrder(Write(s, player), p) {
      WriteInOrder(s, player, p);
    }
  }

  // ---------------------------------------------------------------- consequences

  ghost predicate Increasing(s: seq<nat>) {
    forall i, j | 0 <= i < j < |s| :: s[i] < s[j]
  }

  lemma {:induction false} KeptForIncreasing<I>(accepted: seq<Accepted<I>>, p: int)
    ensures Increasing(KeptFor(accepted, p))
    ensures forall k | k in KeptFor(accepted, p) :: k < |accepted|
  {
    if accepted != [] {
      KeptForIncreasing(accepted[..|accepted| - 1], p);
      var before := KeptFor(accepted[..|accepted| - 1], p);
      assert forall k | 0 <= k < |before| :: before[k] in before;
    }
  }

  lemma {:induction false} WrittenForHas(written: seq<Written>, p: int)
    ensures forall i | 0 <= i < |written| && written[i].player == p :: written[i].index in WrittenFor(written, p)
  {
    if written != [] {
      WrittenForHas(written[..|written| - 1], p);
    }
  }

  lemma {:induction false} WrittenOrder(written: seq<Written>, p: int, i: nat, j: nat)
    requires Increasing(WrittenFor(written, p)) && i < j < |written|
    requires written[i].player == p == written[j].player
    ensures written[i].index < written[j].index
  {
    var n := |written| - 1;
    var before, all := WrittenFor(written[..n], p), WrittenFor(written, p);
    assert before <= all;
    if j < n {
      assert forall x, y | 0 <= x < y < |before| :: before[x] == all[x] && before[y] == all[y];
      WrittenOrder(written[..n], p, i, j);
    } else {
      WrittenForHas(written[..n], p);
      assert written[..n][i] == written[i];
      var k :| 0 <= k < |before| && before[k] == written[i].index;
      assert all[k] == before[k] && all[|before|] == written[j].index;
    }
  }

  /** No accepted packet is written twice, and each player's packets are written in the order in which
      they were accepted. */
  lemma WrittenOnce<I>(s: Stage<I>, i: nat, j: nat)
    requires StageInv(s) && i < j < |s.written|
    ensures s.written[i].index != s.written[j].index
    ensures s.written[i].player == s.written[j].player ==> s.written[i].index < s.written[j].index
  {
    var a, b := s.written[i], s.written[j];
    assert a in s.written && b in s.written;
    if a.player == b.player {
      assert InOrder(s, a.player);
      KeptForIncreasing(s.accepted, a.player);
      var w, k := WrittenFor(s.written, a.player), KeptFor(s.accepted, a.player);
      assert forall x | 0 <= x < |w| :: w[x] == k[x];
      WrittenOrder(s.written, a.player, i, j);
    }
  }

  /** How many packets were accepted for a player, and how many of those found the queue full. */
  function AcceptedFor<I>(accepted: seq<Accepted<I>>, p: int): nat {
    if accepted == [] then 0
    else AcceptedFor(accepted[..|accepted| - 1], p) + (if accepted[|accepted| - 1].player == p then 1 else 0)
  }

  function OverflowedFor<I>(accepted: seq<Accepted<I>>, p: int): nat {
    if accepted == [] then 0
    else
      var a := accepted[|accepted| - 1];
      OverflowedFor(accepted[..|accepted| - 1], p) + (if a.player == p && !a.kept then 1 else 0)
  }

  lemma {:induction false} KeptForLength<I>(accepted: seq<Accepted<I>>, p: int)
    ensures AcceptedFor(accepted, p) == |KeptFor(accepted, p)| + OverflowedFor(accepted, p)
  {
    if accepted != [] {
      KeptForLength(accepted[..|accepted| - 1], p);
    }
  }

  /** Accounting: accepted = written + queued + overflowed, for every player. */
  lemma AcceptedAccounts<I>(s: Stage<I>, p: int)
    requires StageInv(s)
    ensures AcceptedFor(s.accepted, p) ==
            |WrittenFor(s.written, p)| + |s.pool.QueueOf(p)| + OverflowedFor(s.accepted, p)
  {
    assert InOrder(s, p);
    KeptForLength(s.accepted, p);
  }
}
