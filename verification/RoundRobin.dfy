/** How the server-side proxy spreads a player's return traffic: fairness of the rotation, and exactly
    when its index runs out of range. */
module RoundRobin {
  import opened Text
  import opened Sources

  // ---------------------------------------------------------------- fairness

  function Addrs(list: seq<Source>): (r: seq<Addr>)
    ensures |r| == |list|
  {
    seq(|list|, i requires 0 <= i < |list| => list[i].addr)
  }

  /** Event `e` is a reply to `p`. */
  predicate IsReply(e: Event, p: int) {
    e.Reply? && e.player == p
  }

  /** Whenever the run replies to `p`, the endpoints taking turns are those in `turns`.  Everything else
      may happen in between, to this player or to others. */
  ghost predicate Steady(t: SourceTable, es: seq<Event>, p: int, turns: seq<Addr>) {
    es == [] ||
    (var n := |es| - 1;
     var t' := Run(t, es[..n]);
     && Steady(t, es[..n], p, turns)
     && (IsReply(es[n], p) ==> !Dropped(t', p, es[n].at) && Addrs(Rotation(t', p, es[n].at)) == turns))
  }

  /** What happened to each reply to `p`, in order. */
  function Outcomes(t: SourceTable, es: seq<Event>, p: int): seq<Outcome> {
    if es == [] then []
    else
      var n := |es| - 1;
      Outcomes(t, es[..n], p) + (if IsReply(es[n], p) then [Send(Run(t, es[..n]), p, es[n].at).1] else [])
  }

  /** The place reached after `n` turns among `k`, starting from place `s`. */
  function Place(s: int, n: nat, k: int): (r: int)
    requires 0 <= s < k
    ensures 0 <= r < k
  {
    var d := s + n % k;
    if d < k then d else d - k
  }

  lemma NextTurn(n: nat, k: int)
    requires k > 0
    ensures if n % k == k - 1 then (n + 1) / k == n / k + 1 && (n + 1) % k == 0
            else (n + 1) / k == n / k && (n + 1) % k == n % k + 1
  {
    var q, r := n / k, n % k;
    assert n == q * k + r;
    if r == k - 1 {
      assert n + 1 == (q + 1) * k;
      DivModIs(n + 1, k, q + 1, 0);
    } else {
      DivModIs(n + 1, k, q, r + 1);
    }
  }

  lemma DivModIs(x: int, k: int, q: int, r: int)
    requires k > 0 && 0 <= r < k && x == q * k + r
    ensures x / k == q && x % k == r
  {
    var d := x / k - q;
    assert d * k == r - x % k;
    MultipleOf(d, k);
  }

  lemma MultipleOf(d: int, k: int)
    requires k > 0
    ensures d >= 1 ==> d * k >= k
    ensures d <= -1 ==> d * k <= -k
  {
  }

  lemma PlaceStep(s: int, n: nat, k: int)
    requires 0 <= s < k
    ensures Place(s, n + 1, k) == (Place(s, n, k) + 1) % k
  {
    NextTurn(n, k);
    OneMore(Place(s, n, k), k);
  }

  lemma OneMore(d: int, k: int)
    requires 0 <= d < k
    ensures (d + 1) % k == if d + 1 == k then 0 else d + 1
  {
    if d + 1 == k {
      DivModIs(d + 1, k, 1, 0);
    } else {
      DivModIs(d + 1, k, 0, d + 1);
    }
  }

  /** In a steady run the turns go round in order, starting from the stored index. */
  lemma {:induction false} TurnsInOrder(t: SourceTable, es: seq<Event>, p: int, turns: seq<Addr>)
    requires Steady(t, es, p, turns) && 0 <= t.Index(p) < |turns|
    ensures var os := Outcomes(t, es, p);
            && (forall i | 0 <= i < |os| :: os[i] == Sent(turns[Place(t.Index(p), i, |turns|)]))
            && Run(t, es).Index(p) == Place(t.Index(p), |os|, |turns|)
  {
    if es != [] {
      var n := |es| - 1;
      TurnsInOrder(t, es[..n], p, turns);
      TurnStep(Run(t, es[..n]), es[n], p, turns);
      PlaceStep(t.Index(p), |Outcomes(t, es[..n], p)|, |turns|);
    }
  }

  lemma TurnStep(t: SourceTable, e: Event, p: int, turns: seq<Addr>)
    requires 0 <= t.Index(p) < |turns|
    requires IsReply(e, p) ==> !Dropped(t, p, e.at) && Addrs(Rotation(t, p, e.at)) == turns
    ensures IsReply(e, p) ==> Send(t, p, e.at).1 == Sent(turns[t.Index(p)]) && Step(t, e).Index(p) == (t.Index(p) + 1) % |turns|
    ensures !IsReply(e, p) ==> Step(t, e).Index(p) == t.Index(p)
  {
    if IsReply(e, p) {
      var r := Rotation(t, p, e.at);
      assert turns[t.Index(p)] == Addrs(r)[t.Index(p)] == r[t.Index(p)].addr;
    }
  }

  /** How many turns fall on place `j` among the first `n`. */
  function Hits(s: int, n: nat, k: int, j: int): nat
    requires 0 <= s < k
  {
    if n == 0 then 0 else Hits(s, n - 1, k, j) + (if Place(s, n - 1, k) == j then 1 else 0)
  }

  lemma {:induction false} HitsCount(s: int, n: nat, k: int, j: int)
    requires 0 <= s < k && 0 <= j < k
    ensures var ahead := if j >= s then j - s else j - s + k;
            Hits(s, n, k, j) == n / k + (if ahead < n % k then 1 else 0)
  {
    if n == 0 {
      DivModIs(0, k, 0, 0);
    } else {
      HitsCount(s, n - 1, k, j);
      NextTurn(n - 1, k);
    }
  }

  lemma {:induction false} HitsOfTurns(os: seq<Outcome>, s: int, turns: seq<Addr>, j: int)
    requires 0 <= s < |turns| && 0 <= j < |turns|
    requires forall a, b | 0 <= a < b < |turns| :: turns[a] != turns[b]
    requires forall i | 0 <= i < |os| :: os[i] == Sent(turns[Place(s, i, |turns|)])
    ensures multiset(os)[Sent(turns[j])] == Hits(s, |os|, |turns|, j)
  {
    if os != [] {
      var n := |os| - 1;
      assert os == os[..n] + [os[n]];
      HitsOfTurns(os[..n], s, turns, j);
    }
  }

  /** Fairness: over any run that keeps the same k endpoints taking turns, n replies to a player choose
      each endpoint floor(n/k) or ceil(n/k) times. */
  lemma Fair(t: SourceTable, es: seq<Event>, p: int, turns: seq<Addr>, j: int)
    requires Steady(t, es, p, turns) && 0 <= t.Index(p) < |turns| && 0 <= j < |turns|
    requires forall a, b | 0 <= a < b < |turns| :: turns[a] != turns[b]
    ensures var os := Outcomes(t, es, p);
            var (n, k, c) := (|os|, |turns|, multiset(os)[Sent(turns[j])]);
            n / k <= c <= (n + k - 1) / k
  {
    var os := Outcomes(t, es, p);
    TurnsInOrder(t, es, p, turns);
    HitsOfTurns(os, t.Index(p), turns, j);
    HitsCount(t.Index(p), |os|, |turns|, j);
    CeilingIs(|os|, |turns|);
  }

  lemma CeilingIs(n: nat, k: int)
    requires k > 0
    ensures (n + k - 1) / k == n / k + (if n % k == 0 then 0 else 1)
  {
    var q, r := n / k, n % k;
    assert n == q * k + r;
    if r == 0 {
      DivModIs(n + k - 1, k, q, k - 1);
    } else {
      assert n + k - 1 == (q + 1) * k + (r - 1);
      DivModIs(n + k - 1, k, q + 1, r - 1);
    }
  }

  // ---------------------------------------------------------------- when the index is out of range

  /** The last forwarded reply to a player since the player's state was last dropped: which place it
      chose, among how many. */
  datatype Turn = Turn(place: int, width: int)

  ghost function LastTurn(es: seq<Event>, p: int): (r: Option<Turn>)
    ensures r.Some? ==> r.value.width >= 1
  {
    if es == [] then None
    else
      var n := |es| - 1;
      var t := Run(EMPTY, es[..n]);
      if !IsReply(es[n], p) then LastTurn(es[..n], p)
      else if Dropped(t, p, es[n].at) then None
      else Some(Turn(t.Index(p), |Rotation(t, p, es[n].at)|))
  }

  /** No reply of the run faults. */
  ghost predicate Faultless(es: seq<Event>) {
    es == [] ||
    (var n := |es| - 1;
     Faultless(es[..n]) && (es[n].Reply? ==> !Send(Run(EMPTY, es[..n]), es[n].player, es[n].at).1.Fault?))
  }

  /** The stored index is one past the last place chosen, modulo the number of endpoints of that turn,
      and so always below that number. */
  lemma {:induction false} IndexFromLastTurn(es: seq<Event>, p: int)
    ensures match LastTurn(es, p)
            case None => Run(EMPTY, es).Index(p) == 0
            case Some(turn) =>
              && turn.width >= 1
              && Run(EMPTY, es).Index(p) == (turn.place + 1) % turn.width
              && 0 <= Run(EMPTY, es).Index(p) < turn.width
  {
    if es != [] {
      var n := |es| - 1;
      IndexFromLastTurn(es[..n], p);
      IndexStep(Run(EMPTY, es[..n]), es[n], p);
    }
  }

  lemma IndexStep(t: SourceTable, e: Event, p: int)
    ensures !IsReply(e, p) ==> Step(t, e).Index(p) == t.Index(p)
    ensures IsReply(e, p) && Dropped(t, p, e.at) ==> Step(t, e).Index(p) == 0
    ensures IsReply(e, p) && !Dropped(t, p, e.at) ==>
              Step(t, e).Index(p) == (t.Index(p) + 1) % |Rotation(t, p, e.at)|
  {
  }

  /** After any run, the next reply to a player faults exactly when it is not blocked, some reply was
      forwarded before it, and by now no more endpoints take turns than the index that reply left. */
  lemma FaultIff(es: seq<Event>, p: int, now: int)
    ensures var t := Run(EMPTY, es);
            Send(t, p, now).1.Fault? <==>
              && !Dropped(t, p, now)
              && LastTurn(es, p).Some?
              && |Rotation(t, p, now)| <= (LastTurn(es, p).value.place + 1) % LastTurn(es, p).value.width
  {
    IndexFromLastTurn(es, p);
  }

  /** Between two forwarded replies to the same player the number of endpoints taking turns never
      gets smaller. */
  ghost predicate NeverShrinks(es: seq<Event>) {
    es == [] ||
    (var n := |es| - 1;
     var (t, e) := (Run(EMPTY, es[..n]), es[n]);
     && NeverShrinks(es[..n])
     && (e.Reply? && !Dropped(t, e.player, e.at) && LastTurn(es[..n], e.player).Some? ==>
           LastTurn(es[..n], e.player).value.width <= |Rotation(t, e.player, e.at)|))
  }

  lemma {:induction false} NeverShrinksNeverFaults(es: seq<Event>)
    requires NeverShrinks(es)
    ensures Faultless(es)
  {
    if es != [] {
      var n := |es| - 1;
      NeverShrinksNeverFaults(es[..n]);
      if es[n].Reply? {
        IndexFromLastTurn(es[..n], es[n].player);
      }
    }
  }

  /** A run that faults: two endpoints send one packet each, the game server replies at once, and its
      second reply comes a second later. */
  lemma TwoEndpointsThenIdleFaults(p: int, a: Addr, b: Addr, at: int)
    requires a != b
    ensures var es := [Heard(at, p, a), Heard(at, p, b), Reply(at, p)];
            Faultless(es) && Send(Run(EMPTY, es), p, at + ACTIVE_ENDPOINT_TIMEOUT).1.Fault?
  {
    var e0, e1, e2 := Heard(at, p, a), Heard(at, p, b), Reply(at, p);
    assert Run(EMPTY, []) == EMPTY && Faultless([]);
    hide Run, Faultless, Send, Receive;
    FaultlessAppend([], e0);
    FaultlessAppend([e0], e1);
    FaultlessAppend([e0, e1], e2);
    AppendThree(e0, e1, e2);
    TwoHeard(p, a, b, at);
    TwoThenIdle(p, a, b, at);
  }

  lemma AppendThree(a: Event, b: Event, c: Event)
    ensures [] + [a] == [a] && [a] + [b] == [a, b] && [a, b] + [c] == [a, b, c]
  {
  }

  lemma FaultlessAppend(es: seq<Event>, e: Event)
    ensures Run(EMPTY, es + [e]) == Step(Run(EMPTY, es), e)
    ensures Faultless(es + [e]) <==>
            Faultless(es) && (e.Reply? ==> !Send(Run(EMPTY, es), e.player, e.at).1.Fault?)
  {
    hide Send, Step;
    RunAppend(EMPTY, es, e);
    assert (es + [e])[..|es|] == es;
  }

  function BothHeard(p: int, a: Addr, b: Addr, at: int): SourceTable {
    SourceTable(map[p := [Source(a, at), Source(b, at)]], map[p := Source(b, at)], map[])
  }

  lemma TwoHeard(p: int, a: Addr, b: Addr, at: int)
    requires a != b
    ensures Receive(Receive(EMPTY, p, a, at), p, b, at) == BothHeard(p, a, b, at)
  {
    var t1 := Receive(EMPTY, p, a, at);
    assert t1.Of(p) == [Source(a, at)];
    assert Find(t1.Of(p), b) == -1;
    assert t1.Of(p) + [Source(b, at)] == [Source(a, at), Source(b, at)];
  }

  /** The first reply takes the first of two turns, so the next would be the second; a second later there is
      only one. */
  lemma TwoThenIdle(p: int, a: Addr, b: Addr, at: int)
    requires a != b
    ensures var (t, outcome) := Send(BothHeard(p, a, b, at), p, at);
            outcome == Sent(a) && t.Index(p) == 1 && Send(t, p, at + ACTIVE_ENDPOINT_TIMEOUT).1.Fault?
  {
    var sa, sb := Source(a, at), Source(b, at);
    assert [sa, sb][..1] == [sa] && [sa][..0] == [];
    assert Active([sa, sb], at) == [sa, sb];
    assert Active([sa, sb], at + ACTIVE_ENDPOINT_TIMEOUT) == [];
  }

  lemma RunAppend(t: SourceTable, es: seq<Event>, e: Event)
    ensures Run(t, es + [e]) == Step(Run(t, es), e)
  {
    assert (es + [e])[..|es|] == es;
  }
}
