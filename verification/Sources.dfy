/** The server-side proxy's table of where each player's traffic comes from: which client-side
    endpoints have sent packets for the player, when, and where the next packet for the player goes. */
module Sources {
  /** An opaque network address. */
  type Addr = int

  /** Times are in nanoseconds. */
  const ACTIVE_ENDPOINT_TIMEOUT: int := 1_000_000_000
  const CONNECTION_DROP_TIMEOUT: int := 60_000_000_000
  const SECOND: int := 1_000_000_000

  datatype Source = Source(addr: Addr, last: int)

  datatype SourceTable = SourceTable(
    sources: map<int, seq<Source>>,
    lastUsed: map<int, Source>,
    nextIndex: map<int, int>)
  {
    function Of(p: int): seq<Source> {
      if p in sources then sources[p] else []
    }

    function Index(p: int): int {
      if p in nextIndex then nextIndex[p] else 0
    }
  }

  const EMPTY: SourceTable := SourceTable(map[], map[], map[])

  // ---------------------------------------------------------------- receiving and sending

  /** The position of the entry for an address, or -1. */
  function Find(list: seq<Source>, addr: Addr): (i: int)
    ensures -1 <= i < |list|
    ensures i >= 0 ==> list[i].addr == addr
    ensures i == -1 ==> forall j | 0 <= j < |list| :: list[j].addr != addr
  {
    if list == [] then -1
    else if list[0].addr == addr then 0
    else
      var j := Find(list[1..], addr);
      assert forall k | 0 < k < |list| :: list[k] == list[1..][k - 1];
      if j == -1 then -1 else j + 1
  }

  function Refresh(list: seq<Source>, addr: Addr, now: int): (r: seq<Source>) {
    var i := Find(list, addr);
    if i == -1 then list + [Source(addr, now)] else list[i := Source(addr, now)]
  }

  /** A packet for player `p` arrives from `addr`. */
  function Receive(t: SourceTable, p: int, addr: Addr, now: int): SourceTable {
    SourceTable(t.sources[p := Refresh(t.Of(p), addr, now)], t.lastUsed[p := Source(addr, now)], t.nextIndex)
  }

  function Active(list: seq<Source>, now: int): (r: seq<Source>)
    ensures |r| <= |list|
  {
    if list == [] then []
    else
      var n := |list| - 1;
      Active(list[..n], now) + (if now - list[n].last < ACTIVE_ENDPOINT_TIMEOUT then [list[n]] else [])
  }

  predicate Dropped(t: SourceTable, p: int, now: int) {
    p !in t.lastUsed || now - t.lastUsed[p].last >= CONNECTION_DROP_TIMEOUT
  }

  /** The entries that take turns: the active ones, or the last used one if there are none. */
  function Rotation(t: SourceTable, p: int, now: int): (r: seq<Source>)
    requires p in t.lastUsed
    ensures |r| >= 1
  {
    var active := Active(t.Of(p), now);
    if active == [] then [t.lastUsed[p]] else active
  }

  /** `Fault` is the run-time panic of an index out of range. */
  datatype Outcome = Blocked | Sent(addr: Addr) | Fault

  /** A packet from the game server for player `p`. */
  function Send(t: SourceTable, p: int, now: int): (SourceTable, Outcome) {
    if Dropped(t, p, now) then
      (SourceTable(t.sources - {p}, t.lastUsed - {p}, t.nextIndex - {p}), Blocked)
    else
      var rotation := Rotation(t, p, now);
      var idx := t.Index(p);
      var t' := t.(nextIndex := t.nextIndex[p := (idx + 1) % |rotation|]);
      (t', if 0 <= idx < |rotation| then Sent(rotation[idx].addr) else Fault)
  }

  // ---------------------------------------------------------------- one reading of the clock for each entry

  /** The active entries when the clock is read anew for each: `clock(i)` for the one at place `i`. */
  function ActiveAt(list: seq<Source>, clock: nat -> int): (r: seq<Source>)
    ensures |r| <= |list|
  {
    if list == [] then []
    else
      var n := |list| - 1;
      ActiveAt(list[..n], clock) + (if clock(n) - list[n].last < ACTIVE_ENDPOINT_TIMEOUT then [list[n]] else [])
  }

  function RotationAt(t: SourceTable, p: int, clock: nat -> int): (r: seq<Source>)
    requires p in t.lastUsed
    ensures |r| >= 1
  {
    var active := ActiveAt(t.Of(p), clock);
    if active == [] then [t.lastUsed[p]] else active
  }

  /** `Send` with the readings that the program makes: `now` for the drop test, then one for each entry. */
  function SendAt(t: SourceTable, p: int, now: int, clock: nat -> int): (SourceTable, Outcome) {
    if Dropped(t, p, now) then
      (SourceTable(t.sources - {p}, t.lastUsed - {p}, t.nextIndex - {p}), Blocked)
    else
      var rotation := RotationAt(t, p, clock);
      var idx := t.Index(p);
      var t' := t.(nextIndex := t.nextIndex[p := (idx + 1) % |rotation|]);
      (t', if 0 <= idx < |rotation| then Sent(rotation[idx].addr) else Fault)
  }

  /** No entry turns one second old between the drop test and its own reading. */
  predicate NoneExpires(list: seq<Source>, now: int, clock: nat -> int) {
    forall i | 0 <= i < |list| ::
      clock(i) - list[i].last < ACTIVE_ENDPOINT_TIMEOUT <==> now - list[i].last < ACTIVE_ENDPOINT_TIMEOUT
  }

  lemma {:induction false} ActiveAtIs(list: seq<Source>, now: int, clock: nat -> int)
    requires NoneExpires(list, now, clock)
    ensures ActiveAt(list, clock) == Active(list, now)
  {
    if list != [] {
      ActiveAtIs(list[..|list| - 1], now, clock);
    }
  }

  /** When no entry expires while they are looked at, the readings might as well be one. */
  lemma OneReadingWillDo(t: SourceTable, p: int, now: int, clock: nat -> int)
    requires NoneExpires(t.Of(p), now, clock)
    ensures SendAt(t, p, now, clock) == Send(t, p, now)
  {
    ActiveAtIs(t.Of(p), now, clock);
  }

  /** In general, with a clock that does not go back between the drop test and the last reading, each entry
      active by the last reading takes its turn, and none that was not by the first. */
  lemma {:induction false} ReadingsBetween(list: seq<Source>, now: int, later: int, clock: nat -> int)
    requires forall i | 0 <= i < |list| :: now <= clock(i) <= later
    ensures forall e | e in Active(list, later) :: e in ActiveAt(list, clock)
    ensures forall e | e in ActiveAt(list, clock) :: e in Active(list, now)
  {
    if list != [] {
      ReadingsBetween(list[..|list| - 1], now, later, clock);
    }
  }

  // ---------------------------------------------------------------- the invariant

  ghost predicate DistinctAddrs(list: seq<Source>) {
    forall i, j | 0 <= i < j < |list| :: list[i].addr != list[j].addr
  }

  /** What always holds of the three maps for one player. */
  ghost predicate PlayerInv(t: SourceTable, p: int, now: int) {
    && (p in t.sources <==> p in t.lastUsed)
    && (p in t.nextIndex ==> p in t.sources && t.nextIndex[p] >= 0)
    && DistinctAddrs(t.Of(p))
    && (p in t.lastUsed ==> NewestIs(t.Of(p), t.lastUsed[p]) && t.lastUsed[p].last <= now)
  }

  ghost predicate NewestIs(list: seq<Source>, newest: Source) {
    newest in list && forall i | 0 <= i < |list| :: list[i].last <= newest.last
  }

  ghost predicate Inv(t: SourceTable, now: int) {
    forall p :: PlayerInv(t, p, now)
  }

  lemma RefreshKeeps(list: seq<Source>, addr: Addr, now: int)
    requires DistinctAddrs(list) && forall i | 0 <= i < |list| :: list[i].last <= now
    ensures DistinctAddrs(Refresh(list, addr, now)) && NewestIs(Refresh(list, addr, now), Source(addr, now))
  {
    var i := Find(list, addr);
    var r := Refresh(list, addr, now);
    assert r[if i == -1 then |list| else i] == Source(addr, now);
  }

  lemma ReceiveKeepsInv(t: SourceTable, p: int, addr: Addr, then': int, now: int)
    requires Inv(t, then') && then' <= now
    ensures Inv(Receive(t, p, addr, now), now)
  {
    var t' := Receive(t, p, addr, now);
    forall q ensures PlayerInv(t', q, now) {
      assert PlayerInv(t, q, then');
      if q == p {
        RefreshKeeps(t.Of(p), addr, now);
      }
    }
  }

  lemma SendKeepsInv(t: SourceTable, p: int, then': int, now: int)
    requires Inv(t, then') && then' <= now
    ensures Inv(Send(t, p, now).0, now)
  {
    var t' := Send(t, p, now).0;
    forall q ensures PlayerInv(t', q, now) {
      assert PlayerInv(t, q, then');
    }
  }

  lemma {:induction false} ActiveMembers(list: seq<Source>, now: int)
    ensures forall e :: e in Active(list, now) <==> e in list && now - e.last < ACTIVE_ENDPOINT_TIMEOUT
  {
    if list != [] {
      var n := |list| - 1;
      ActiveMembers(list[..n], now);
      assert list == list[..n] + [list[n]];
    }
  }

  lemma {:induction false} ActiveDistinct(list: seq<Source>, now: int)
    requires DistinctAddrs(list)
    ensures DistinctAddrs(Active(list, now))
  {
    if list != [] {
      var n := |list| - 1;
      var r, c := Active(list, now), Active(list[..n], now);
      ActiveDistinct(list[..n], now);
      ActiveMembers(list[..n], now);
      forall i | 0 <= i < |c| ensures c[i].addr != list[n].addr {
        assert c[i] in list[..n];
      }
    }
  }

  /** The fallback to the last used endpoint fires exactly when that endpoint was last heard from at
      least a second ago, and nothing is forwarded once it is a minute ago. */
  lemma FallbackIff(t: SourceTable, p: int, now: int)
    requires PlayerInv(t, p, now) && p in t.lastUsed
    ensures Active(t.Of(p), now) == [] <==> now - t.lastUsed[p].last >= SECOND
    ensures Send(t, p, now).1.Blocked? <==> now - t.lastUsed[p].last >= 60 * SECOND
  {
    ActiveMembers(t.Of(p), now);
    var newest := t.lastUsed[p];
    if now - newest.last < ACTIVE_ENDPOINT_TIMEOUT {
      assert newest in Active(t.Of(p), now);
    } else if Active(t.Of(p), now) != [] {
      assert Active(t.Of(p), now)[0] in Active(t.Of(p), now);
    }
  }

  // ---------------------------------------------------------------- runs

  datatype Event =
    | Heard(at: int, player: int, addr: Addr)
    | Reply(at: int, player: int)

  function Step(t: SourceTable, e: Event): SourceTable {
    match e
    case Heard(at, p, addr) => Receive(t, p, addr, at)
    case Reply(at, p) => Send(t, p, at).0
  }

  function Run(t: SourceTable, es: seq<Event>): SourceTable {
    if es == [] then t else Step(Run(t, es[..|es| - 1]), es[|es| - 1])
  }

  /** The clock never goes back. */
  ghost predicate Monotone(es: seq<Event>, now: int) {
    (forall i, j | 0 <= i < j < |es| :: es[i].at <= es[j].at) && (forall i | 0 <= i < |es| :: es[i].at <= now)
  }

  /** The invariant holds after every run. */
  lemma {:induction false} InvAlways(es: seq<Event>, now: int)
    requires Monotone(es, now)
    ensures Inv(Run(EMPTY, es), now)
  {
    if es != [] {
      var n := |es| - 1;
      var e := es[n];
      InvAlways(es[..n], e.at);
      var t := Run(EMPTY, es[..n]);
      match e {
        case Heard(at, p, addr) => ReceiveKeepsInv(t, p, addr, at, at);
        case Reply(at, p) => SendKeepsInv(t, p, at, at);
      }
      InvLater(Run(EMPTY, es), e.at, now);
    }
  }

  lemma InvLater(t: SourceTable, then': int, now: int)
    requires Inv(t, then') && then' <= now
    ensures Inv(t, now)
  {
    forall q ensures PlayerInv(t, q, now) {
      assert PlayerInv(t, q, then');
    }
  }

  // ---------------------------------------------------------------- the table against the history

  /** Player `p` was heard from at `addr`, less than `window` ago. */
  ghost predicate HeardWithin(es: seq<Event>, p: int, addr: Addr, now: int, window: int) {
    exists i :: 0 <= i < |es| && HeardFrom(es[i], p, addr) && now - es[i].at < window
  }

  predicate HeardFrom(e: Event, p: int, addr: Addr) {
    e.Heard? && e.player == p && e.addr == addr
  }

  /** The list has an entry for `addr` at least as recent as `at`. */
  ghost predicate Recorded(list: seq<Source>, addr: Addr, at: int) {
    exists i :: 0 <= i < |list| && list[i].addr == addr && list[i].last >= at
  }

  /** Every entry stands for an event of the run. */
  ghost predicate Sound(t: SourceTable, es: seq<Event>) {
    forall p, k | 0 <= k < |t.Of(p)| :: EventOf(es, p, t.Of(p)[k])
  }

  ghost predicate EventOf(es: seq<Event>, p: int, s: Source) {
    exists i :: 0 <= i < |es| && HeardFrom(es[i], p, s.addr) && es[i].at == s.last
  }

  /** Everything heard within the drop timeout is in the table. */
  ghost predicate Complete(t: SourceTable, es: seq<Event>, now: int) {
    forall i | 0 <= i < |es| && es[i].Heard? && now - es[i].at < CONNECTION_DROP_TIMEOUT ::
      Recorded(t.Of(es[i].player), es[i].addr, es[i].at)
  }

  lemma EventOfLonger(es: seq<Event>, e: Event, p: int, s: Source)
    requires EventOf(es, p, s)
    ensures EventOf(es + [e], p, s)
  {
    var i :| 0 <= i < |es| && HeardFrom(es[i], p, s.addr) && es[i].at == s.last;
    assert (es + [e])[i] == es[i];
  }

  lemma StepKeepsSound(t: SourceTable, es: seq<Event>, e: Event)
    requires Sound(t, es)
    ensures Sound(Step(t, e), es + [e])
  {
    var t' := Step(t, e);
    forall p, k | 0 <= k < |t'.Of(p)| ensures EventOf(es + [e], p, t'.Of(p)[k]) {
      if e.Heard? && p == e.player && t'.Of(p)[k] == Source(e.addr, e.at) {
        assert (es + [e])[|es|] == e;
      } else {
        assert t'.Of(p)[k] == t.Of(p)[k];
        EventOfLonger(es, e, p, t.Of(p)[k]);
      }
    }
  }

  lemma RefreshRecords(list: seq<Source>, addr: Addr, now: int, a: Addr, at: int)
    requires (a == addr && at <= now) || Recorded(list, a, at)
    requires forall i | 0 <= i < |list| :: list[i].last <= now
    ensures Recorded(Refresh(list, addr, now), a, at)
  {
    var f := Find(list, addr);
    var r := Refresh(list, addr, now);
    assert r[if f == -1 then |list| else f] == Source(addr, now);
    if Recorded(list, a, at) {
      var i :| 0 <= i < |list| && list[i].addr == a && list[i].last >= at;
      assert i != f ==> r[i] == list[i];
    }
  }

  lemma HeardKeepsComplete(t: SourceTable, es: seq<Event>, e: Event)
    requires e.Heard? && Inv(t, e.at) && Complete(t, es, e.at)
    ensures Complete(Step(t, e), es + [e], e.at)
  {
    var t', es' := Step(t, e), es + [e];
    assert PlayerInv(t, e.player, e.at);
    forall i | 0 <= i < |es'| && es'[i].Heard? && e.at - es'[i].at < CONNECTION_DROP_TIMEOUT
      ensures Recorded(t'.Of(es'[i].player), es'[i].addr, es'[i].at)
    {
      if i < |es| {
        assert es'[i] == es[i];
      }
      if es'[i].player == e.player {
        RefreshRecords(t.Of(e.player), e.addr, e.at, es'[i].addr, es'[i].at);
      }
    }
  }

  lemma ReplyKeepsComplete(t: SourceTable, es: seq<Event>, e: Event)
    requires e.Reply? && Inv(t, e.at) && Complete(t, es, e.at)
    ensures Complete(Step(t, e), es + [e], e.at)
  {
    var t', es' := Step(t, e), es + [e];
    assert PlayerInv(t, e.player, e.at);
    forall i | 0 <= i < |es'| && es'[i].Heard? && e.at - es'[i].at < CONNECTION_DROP_TIMEOUT
      ensures Recorded(t'.Of(es'[i].player), es'[i].addr, es'[i].at)
    {
      assert es'[i] == es[i];
      assert Recorded(t.Of(es[i].player), es[i].addr, es[i].at);
    }
  }

  lemma {:induction false} HistoryAlways(es: seq<Event>, now: int)
    requires Monotone(es, now)
    ensures Sound(Run(EMPTY, es), es) && Complete(Run(EMPTY, es), es, now)
  {
    if es != [] {
      var n := |es| - 1;
      var e, t := es[n], Run(EMPTY, es[..n]);
      assert es == es[..n] + [e];
      HistoryAlways(es[..n], e.at);
      InvAlways(es[..n], e.at);
      StepKeepsSound(t, es[..n], e);
      if e.Heard? {
        HeardKeepsComplete(t, es[..n], e);
      } else {
        ReplyKeepsComplete(t, es[..n], e);
      }
    }
  }

  /** The endpoints in the rotation are exactly those heard from within the last second, each listed
      once, and traffic for a player is blocked exactly when nothing at all was heard for that player
      within the last minute. */
  lemma RotationIsHistory(es: seq<Event>, p: int, now: int)
    requires Monotone(es, now)
    ensures var t := Run(EMPTY, es);
            && (forall a :: (exists s :: s in Active(t.Of(p), now) && s.addr == a) <==>
                            HeardWithin(es, p, a, now, ACTIVE_ENDPOINT_TIMEOUT))
            && DistinctAddrs(Active(t.Of(p), now))
            && (Send(t, p, now).1.Blocked? <==> forall a :: !HeardWithin(es, p, a, now, CONNECTION_DROP_TIMEOUT))
  {
    var t := Run(EMPTY, es);
    HistoryAlways(es, now);
    InvAlways(es, now);
    assert PlayerInv(t, p, now);
    ActiveDistinct(t.Of(p), now);
    forall s | s in Active(t.Of(p), now) ensures HeardWithin(es, p, s.addr, now, ACTIVE_ENDPOINT_TIMEOUT) {
      ActiveWasHeard(t, es, p, s, now);
    }
    forall a | HeardWithin(es, p, a, now, ACTIVE_ENDPOINT_TIMEOUT)
      ensures exists s :: s in Active(t.Of(p), now) && s.addr == a
    {
      var s := HeardIsActive(t, es, p, a, now);
    }
    DroppedIsHistory(t, es, p, now);
  }

  lemma ActiveWasHeard(t: SourceTable, es: seq<Event>, p: int, s: Source, now: int)
    requires Sound(t, es) && s in Active(t.Of(p), now)
    ensures HeardWithin(es, p, s.addr, now, ACTIVE_ENDPOINT_TIMEOUT)
  {
    ActiveMembers(t.Of(p), now);
    var k :| 0 <= k < |t.Of(p)| && t.Of(p)[k] == s;
    assert EventOf(es, p, t.Of(p)[k]);
    var i :| 0 <= i < |es| && HeardFrom(es[i], p, s.addr) && es[i].at == s.last;
  }

  lemma HeardIsActive(t: SourceTable, es: seq<Event>, p: int, a: Addr, now: int) returns (s: Source)
    requires Complete(t, es, now) && HeardWithin(es, p, a, now, ACTIVE_ENDPOINT_TIMEOUT)
    ensures s in Active(t.Of(p), now) && s.addr == a
  {
    var i :| 0 <= i < |es| && HeardFrom(es[i], p, a) && now - es[i].at < ACTIVE_ENDPOINT_TIMEOUT;
    assert Recorded(t.Of(p), a, es[i].at);
    var k :| 0 <= k < |t.Of(p)| && t.Of(p)[k].addr == a && t.Of(p)[k].last >= es[i].at;
    s := t.Of(p)[k];
    ActiveMembers(t.Of(p), now);
  }

  lemma DroppedIsHistory(t: SourceTable, es: seq<Event>, p: int, now: int)
    requires Sound(t, es) && Complete(t, es, now) && PlayerInv(t, p, now)
    ensures Dropped(t, p, now) <==> forall a :: !HeardWithin(es, p, a, now, CONNECTION_DROP_TIMEOUT)
  {
    if !Dropped(t, p, now) {
      var k :| 0 <= k < |t.Of(p)| && t.Of(p)[k] == t.lastUsed[p];
      assert EventOf(es, p, t.Of(p)[k]);
      assert HeardWithin(es, p, t.lastUsed[p].addr, now, CONNECTION_DROP_TIMEOUT);
    }
    if a :| HeardWithin(es, p, a, now, CONNECTION_DROP_TIMEOUT) {
      var i :| 0 <= i < |es| && HeardFrom(es[i], p, a) && now - es[i].at < CONNECTION_DROP_TIMEOUT;
      assert Recorded(t.Of(p), a, es[i].at);
    }
  }

  // ---------------------------------------------------------------- where a reply goes

  /** The last packet heard for the player. */
  ghost predicate LastHeard(es: seq<Event>, p: int, s: Source) {
    exists i :: LastHeardAt(es, p, s, i)
  }

  ghost predicate LastHeardAt(es: seq<Event>, p: int, s: Source, i: int) {
    && 0 <= i < |es| && HeardFrom(es[i], p, s.addr) && es[i].at == s.last
    && forall j | i < j < |es| :: !(es[j].Heard? && es[j].player == p)
  }

  lemma {:induction false} LastUsedIsLastHeard(es: seq<Event>, p: int)
    requires p in Run(EMPTY, es).lastUsed
    ensures LastHeard(es, p, Run(EMPTY, es).lastUsed[p])
  {
    if es == [] {
      assert false;
    } else {
      var n := |es| - 1;
      var t := Run(EMPTY, es[..n]);
      LastUsedStep(t, es[n], p);
      hide Step;
      if es[n].Heard? && es[n].player == p {
        assert LastHeardAt(es, p, Run(EMPTY, es).lastUsed[p], n);
      } else {
        LastUsedIsLastHeard(es[..n], p);
        StillLastHeard(es, p, t.lastUsed[p]);
      }
    }
  }

  lemma LastUsedStep(t: SourceTable, e: Event, p: int)
    requires p in Step(t, e).lastUsed
    ensures if e.Heard? && e.player == p then Step(t, e).lastUsed[p] == Source(e.addr, e.at)
            else p in t.lastUsed && Step(t, e).lastUsed[p] == t.lastUsed[p]
  {
    hide Refresh, Rotation;
  }

  lemma StillLastHeard(es: seq<Event>, p: int, s: Source)
    requires es != [] && LastHeard(es[..|es| - 1], p, s)
    requires var e := es[|es| - 1]; !(e.Heard? && e.player == p)
    ensures LastHeard(es, p, s)
  {
    var i :| LastHeardAt(es[..|es| - 1], p, s, i);
    assert LastHeardAt(es, p, s, i);
  }

  /** A reply that is sent goes to an entry active by its own reading of the clock, or if there is none to the last
      used one. */
  lemma SentTo(t: SourceTable, p: int, now: int, clock: nat -> int)
    requires SendAt(t, p, now, clock).1.Sent?
    ensures var addr := SendAt(t, p, now, clock).1.addr;
            || (exists i :: 0 <= i < |t.Of(p)| && t.Of(p)[i].addr == addr && clock(i) - t.Of(p)[i].last < SECOND)
            || (&& (forall i | 0 <= i < |t.Of(p)| :: clock(i) - t.Of(p)[i].last >= SECOND)
                && p in t.lastUsed && addr == t.lastUsed[p].addr)
  {
    ActiveAtMembers(t.Of(p), clock);
    var r := ActiveAt(t.Of(p), clock);
    var idx := t.Index(p);
    if r != [] {
      assert r[idx] in r;
    }
  }

  ghost predicate YoungAt(list: seq<Source>, clock: nat -> int, s: Source) {
    exists i :: 0 <= i < |list| && list[i] == s && clock(i) - s.last < SECOND
  }

  lemma {:induction false} ActiveAtMembers(list: seq<Source>, clock: nat -> int)
    ensures forall s | s in ActiveAt(list, clock) :: YoungAt(list, clock, s)
    ensures ActiveAt(list, clock) == [] ==> forall i | 0 <= i < |list| :: clock(i) - list[i].last >= SECOND
  {
    if list != [] {
      var n := |list| - 1;
      ActiveAtMembers(list[..n], clock);
      forall s | s in ActiveAt(list, clock) ensures YoungAt(list, clock, s) {
        if s in ActiveAt(list[..n], clock) {
          var i :| 0 <= i < n && list[..n][i] == s && clock(i) - s.last < SECOND;
          assert list[i] == s;
        } else {
          assert list[n] == s && clock(n) - s.last < SECOND;
        }
      }
    }
  }

  /** After every run: a reply is blocked exactly when nothing was heard for the player within the last minute.
      Otherwise, unless it faults, it goes to an endpoint heard within the last second, or if there is none to the
      one that was heard last. */
  lemma ReplyGoesTo(es: seq<Event>, p: int, now: int)
    requires Monotone(es, now)
    ensures var outcome := Send(Run(EMPTY, es), p, now).1;
            && (outcome.Blocked? <==> forall a :: !HeardWithin(es, p, a, now, 60 * SECOND))
            && (outcome.Sent? ==>
                  if exists a :: HeardWithin(es, p, a, now, SECOND) then HeardWithin(es, p, outcome.addr, now, SECOND)
                  else exists at :: LastHeard(es, p, Source(outcome.addr, at)))
  {
    assert CONNECTION_DROP_TIMEOUT == 60 * SECOND && ACTIVE_ENDPOINT_TIMEOUT == SECOND;
    hide HeardWithin, LastHeard, Run, Active, Monotone, Send;
    RotationIsHistory(es, p, now);
    var t := Run(EMPTY, es);
    if Send(t, p, now).1.Sent? {
      SentByHistory(t, es, p, now);
    }
  }

  lemma SentByHistory(t: SourceTable, es: seq<Event>, p: int, now: int)
    requires Send(t, p, now).1.Sent? && t == Run(EMPTY, es)
    requires forall a :: (exists s :: s in Active(t.Of(p), now) && s.addr == a) <==> HeardWithin(es, p, a, now, SECOND)
    ensures var addr := Send(t, p, now).1.addr;
            if exists a :: HeardWithin(es, p, a, now, SECOND) then HeardWithin(es, p, addr, now, SECOND)
            else exists at :: LastHeard(es, p, Source(addr, at))
  {
    LastUsedIsLastHeard(es, p);
    var r := Active(t.Of(p), now);
    hide HeardWithin, LastHeard, Run, Active;
    var idx := t.Index(p);
    if r != [] {
      assert r[idx] in r;
      assert exists s :: s in r && s.addr == r[idx].addr;
    } else {
      assert LastHeard(es, p, Source(t.lastUsed[p].addr, t.lastUsed[p].last));
    }
  }

  // ---------------------------------------------------------------- what a step changes

  /** A packet heard adds its address at the end of the player's list, or renews the entry where it stands; other
      entries and other players keep what they have. */
  lemma HeardChanges(t: SourceTable, p: int, addr: Addr, now: int)
    requires DistinctAddrs(t.Of(p))
    ensures var (before, after) := (t.Of(p), Receive(t, p, addr, now).Of(p));
            && |before| <= |after| <= |before| + 1
            && (|after| == |before| <==> exists i :: 0 <= i < |before| && before[i].addr == addr)
            && (forall i | 0 <= i < |before| ::
                  after[i] == if before[i].addr == addr then Source(addr, now) else before[i])
            && (|after| > |before| ==> after[|before|] == Source(addr, now))
    ensures var t' := Receive(t, p, addr, now);
            && t'.nextIndex == t.nextIndex
            && forall q | q != p :: t'.Of(q) == t.Of(q) && (q in t'.lastUsed <==> q in t.lastUsed)
                                    && (q in t.lastUsed ==> t'.lastUsed[q] == t.lastUsed[q])
  {
  }

  /** A blocked reply forgets everything about the player; another one changes nothing but the player's index.
      Nothing changes for other players. */
  lemma ReplyChanges(t: SourceTable, p: int, now: int)
    ensures var (t', outcome) := Send(t, p, now);
            && (outcome.Blocked? ==> p !in t'.sources && p !in t'.lastUsed && p !in t'.nextIndex)
            && (!outcome.Blocked? ==> t'.sources == t.sources && t'.lastUsed == t.lastUsed)
            && t'.sources - {p} == t.sources - {p} && t'.lastUsed - {p} == t.lastUsed - {p}
            && t'.nextIndex - {p} == t.nextIndex - {p}
  {
  }
}
