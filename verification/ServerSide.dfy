/** The traffic handler of the server-side proxy, with its three maps updated in place and its entries
    shared between them. */
module ServerSide {
  import opened Text
  import opened Sources
  import Tokens

  class ClientSideProxyInfo {
    const sourceAddr: Addr
    var lastReceivedTimestamp: int
    /** The one list, and the one place in it, that this entry belongs to. */
    ghost const player: int
    ghost const place: int

    constructor (sourceAddr: Addr, timestamp: int, ghost player: int, ghost place: int)
      ensures this.sourceAddr == sourceAddr && lastReceivedTimestamp == timestamp
      ensures this.player == player && this.place == place
    {
      this.sourceAddr := sourceAddr;
      lastReceivedTimestamp := timestamp;
      this.player := player;
      this.place := place;
    }

    function View(): Source
      reads this
    {
      Source(sourceAddr, lastReceivedTimestamp)
    }
  }

  function ListView(list: seq<ClientSideProxyInfo>): (r: seq<Source>)
    reads list
    ensures |r| == |list|
  {
    seq(|list|, i requires 0 <= i < |list| reads list => list[i].View())
  }

  lemma ListViewSnoc(list: seq<ClientSideProxyInfo>, info: ClientSideProxyInfo)
    ensures ListView(list + [info]) == ListView(list) + [info.View()]
  {
  }

  class ServerSideProxyTrafficHandler {
    var clientSideProxySources: map<int, seq<ClientSideProxyInfo>>
    var lastUsedSource: map<int, ClientSideProxyInfo>
    var nextSourceIndex: map<int, int>
    ghost var infos: set<ClientSideProxyInfo>

    function SourcesOf(p: int): seq<ClientSideProxyInfo>
      reads this
    {
      if p in clientSideProxySources then clientSideProxySources[p] else []
    }

    /** Every entry is in its own place of its own player's list, so no entry is shared between two
        places; the last used entry of a player is one of that player's entries. */
    ghost predicate Valid()
      reads this
    {
      && (forall p | p in clientSideProxySources :: InPlace(clientSideProxySources[p], p))
      && (forall p | p in lastUsedSource ::
            p in clientSideProxySources && lastUsedSource[p] in clientSideProxySources[p])
    }

    ghost predicate InPlace(list: seq<ClientSideProxyInfo>, p: int)
      reads this
    {
      forall i | 0 <= i < |list| :: list[i] in infos && list[i].player == p && list[i].place == i
    }

    ghost function View(): SourceTable
      requires Valid()
      reads this, infos
    {
      SourceTable(
        map p | p in clientSideProxySources :: ListView(clientSideProxySources[p]),
        map p | p in lastUsedSource :: lastUsedSource[p].View(),
        nextSourceIndex)
    }

    constructor ()
      ensures Valid() && infos == {}
      ensures View() == EMPTY
    {
      clientSideProxySources := map[];
      lastUsedSource := map[];
      nextSourceIndex := map[];
      infos := {};
    }

    /** The position of the entry for an address in the list, or -1. */
    method FindClientInfo(sources: seq<ClientSideProxyInfo>, addr: Addr) returns (index: int)
      ensures index == Find(ListView(sources), addr)
    {
      index := 0;
      while index < |sources|
        invariant 0 <= index <= |sources|
        invariant forall j | 0 <= j < index :: sources[j].sourceAddr != addr
      {
        if sources[index].sourceAddr == addr {
          FindIs(ListView(sources), addr, index);
          return;
        }
        index := index + 1;
      }
      index := -1;
    }

    lemma FindIs(list: seq<Source>, addr: Addr, k: nat)
      requires k < |list| && list[k].addr == addr && forall j | 0 <= j < k :: list[j].addr != addr
      ensures Find(list, addr) == k
    {
      if k > 0 {
        FindIs(list[1..], addr, k - 1);
      }
    }

    /** The clock is read once for each entry. */
    method FilterActiveSources(sources: seq<ClientSideProxyInfo>, clock: nat -> int)
      returns (active: seq<ClientSideProxyInfo>)
      ensures ListView(active) == ActiveAt(ListView(sources), clock)
    {
      active := [];
      for i := 0 to |sources|
        invariant ListView(active) == ActiveAt(ListView(sources)[..i], clock)
      {
        ghost var prefix := ListView(sources)[..i + 1];
        assert prefix[..i] == ListView(sources)[..i];
        if clock(i) - sources[i].lastReceivedTimestamp < ACTIVE_ENDPOINT_TIMEOUT {
          active := active + [sources[i]];
        }
      }
      assert ListView(sources)[..|sources|] == ListView(sources);
    }

    /** A packet from a client-side endpoint: the player and the game data, or nothing if it does not
        parse. */
    method PreprocessServerBoundTraffic(data: string, sourceAddr: Addr, now: int)
      returns (result: Option<(int, string)>)
      requires Valid()
      modifies this, infos
      ensures Valid() && fresh(infos - old(infos))
      ensures result == Tokens.ParseServerSideToken(data)
      ensures View() == if result.None? then old(View()) else Receive(old(View()), result.value.0, sourceAddr, now)
    {
      result := Tokens.ParseServerSideToken(data);
      if result.Some? {
        Record(result.value.0, sourceAddr, now);
      }
    }

    method Record(p: int, sourceAddr: Addr, now: int)
      requires Valid()
      modifies this, infos
      ensures Valid() && fresh(infos - old(infos))
      ensures View() == Receive(old(View()), p, sourceAddr, now)
    {
      var sources := SourcesOf(p);
      var index := FindClientInfo(sources, sourceAddr);
      if index == -1 {
        var info := new ClientSideProxyInfo(sourceAddr, now, p, |sources|);
        Append(p, info);
      } else {
        Touch(p, index, now);
      }
    }

    method Append(p: int, info: ClientSideProxyInfo)
      requires Valid() && info.player == p && info.place == |SourcesOf(p)|
      modifies this
      ensures Valid() && infos == old(infos) + {info}
      ensures View() == SourceTable(old(View()).sources[p := old(View()).Of(p) + [info.View()]],
                                    old(View()).lastUsed[p := info.View()], old(View()).nextIndex)
    {
      hide ServerSideProxyTrafficHandler.View, ServerSideProxyTrafficHandler.Valid;
      AddEntry(p, info);
      Use(p, info);
    }

    method AddEntry(p: int, info: ClientSideProxyInfo)
      requires Valid() && info.player == p && info.place == |SourcesOf(p)|
      modifies `clientSideProxySources, `infos
      ensures Valid() && infos == old(infos) + {info} && info in SourcesOf(p)
      ensures View() == old(View()).(sources := old(View()).sources[p := old(View()).Of(p) + [info.View()]])
    {
      ghost var list := SourcesOf(p);
      ListViewSnoc(list, info);
      hide ListView;
      clientSideProxySources := clientSideProxySources[p := SourcesOf(p) + [info]];
      infos := infos + {info};
      assert View().sources == old(View()).sources[p := ListView(list + [info])];
    }

    method Use(p: int, info: ClientSideProxyInfo)
      requires Valid() && info in SourcesOf(p)
      modifies `lastUsedSource
      ensures Valid()
      ensures View() == old(View()).(lastUsed := old(View()).lastUsed[p := info.View()])
    {
      lastUsedSource := lastUsedSource[p := info];
      assert View().lastUsed == old(View()).lastUsed[p := info.View()];
    }

    method Touch(p: int, k: nat, now: int)
      requires Valid() && p in clientSideProxySources && k < |clientSideProxySources[p]|
      modifies `lastUsedSource, clientSideProxySources[p][k]
      ensures Valid()
      ensures var s := Source(clientSideProxySources[p][k].sourceAddr, now);
              View() == SourceTable(old(View()).sources[p := old(View()).Of(p)[k := s]],
                                    old(View()).lastUsed[p := s], old(View()).nextIndex)
    {
      var info := clientSideProxySources[p][k];
      hide ServerSideProxyTrafficHandler.View, ServerSideProxyTrafficHandler.Valid;
      TouchEntry(p, k, now);
      Use(p, info);
    }

    /** If the entry is also the player's last used one, that changes with it. */
    method TouchEntry(p: int, k: nat, now: int)
      requires Valid() && p in clientSideProxySources && k < |clientSideProxySources[p]|
      modifies clientSideProxySources[p][k]
      ensures Valid() && clientSideProxySources[p][k].View() == Source(clientSideProxySources[p][k].sourceAddr, now)
      ensures var s := Source(clientSideProxySources[p][k].sourceAddr, now);
              && View().sources == old(View()).sources[p := old(View()).Of(p)[k := s]]
              && View().lastUsed[p := s] == old(View()).lastUsed[p := s]
              && View().nextIndex == old(View()).nextIndex
    {
      var info := clientSideProxySources[p][k];
      info.lastReceivedTimestamp := now;
      assert ListView(clientSideProxySources[p]) == old(ListView(clientSideProxySources[p]))[k := info.View()];
      forall q | q != p && q in clientSideProxySources
        ensures ListView(clientSideProxySources[q]) == old(ListView(clientSideProxySources[q]))
      {
        assert InPlace(clientSideProxySources[q], q);
      }
      forall q | q != p && q in lastUsedSource ensures lastUsedSource[q].View() == old(lastUsedSource[q].View()) {
        assert InPlace(clientSideProxySources[q], q);
      }
      hide ListView;
      assert View().sources == old(View()).sources[p := ListView(clientSideProxySources[p])];
      assert View().lastUsed[p := info.View()] == old(View()).lastUsed[p := info.View()];
    }

    /** A packet from the game server for the owner of a port, if the port has one.  The clock is read at the
        drop test and again for each entry.  `Fault` stands for the panic of the index expression. */
    method HandleClientBoundTraffic(owner: Option<int>, now: int, clock: nat -> int) returns (outcome: Outcome)
      requires Valid()
      modifies this
      ensures Valid()
      ensures owner.None? ==> outcome == Blocked && View() == old(View())
      ensures owner.Some? ==> (View(), outcome) == SendAt(old(View()), owner.value, now, clock)
    {
      if owner.None? {
        return Blocked;
      }
      var p := owner.value;
      if p !in lastUsedSource || now - lastUsedSource[p].lastReceivedTimestamp >= CONNECTION_DROP_TIMEOUT {
        Forget(p);
        return Blocked;
      }
      outcome := Forward(p, now, clock);
    }

    /** Clean up stale player state. */
    method Forget(p: int)
      requires Valid()
      modifies this
      ensures Valid() && infos == old(infos)
      ensures View() == SourceTable(old(View()).sources - {p}, old(View()).lastUsed - {p}, old(View()).nextIndex - {p})
    {
      hide ServerSideProxyTrafficHandler.View, ServerSideProxyTrafficHandler.Valid;
      ForgetLastUsed(p);
      ForgetSources(p);
      ForgetIndex(p);
    }

    method ForgetIndex(p: int)
      requires Valid()
      modifies `nextSourceIndex
      ensures Valid()
      ensures View() == old(View()).(nextIndex := old(View()).nextIndex - {p})
    {
      nextSourceIndex := nextSourceIndex - {p};
    }

    method ForgetLastUsed(p: int)
      requires Valid()
      modifies `lastUsedSource
      ensures Valid() && p !in lastUsedSource
      ensures View() == old(View()).(lastUsed := old(View()).lastUsed - {p})
    {
      lastUsedSource := lastUsedSource - {p};
      assert View().lastUsed == old(View()).lastUsed - {p};
    }

    method ForgetSources(p: int)
      requires Valid() && p !in lastUsedSource
      modifies `clientSideProxySources
      ensures Valid()
      ensures View() == old(View()).(sources := old(View()).sources - {p})
    {
      clientSideProxySources := clientSideProxySources - {p};
      assert View().sources == old(View()).sources - {p};
    }

    /** The active entries of a player, or the last used one if there are none. */
    method TakingTurns(p: int, clock: nat -> int) returns (activeSources: seq<ClientSideProxyInfo>)
      requires Valid() && p in lastUsedSource
      ensures ListView(activeSources) == RotationAt(View(), p, clock)
    {
      activeSources := FilterActiveSources(SourcesOf(p), clock);
      assert ListView(SourcesOf(p)) == View().Of(p);
      if |activeSources| == 0 {
        activeSources := [lastUsedSource[p]];
        assert ListView(activeSources) == [View().lastUsed[p]];
      }
    }

    /** Take the next turn of the rotation. */
    method Forward(p: int, ghost now: int, clock: nat -> int) returns (outcome: Outcome)
      requires Valid() && !Dropped(View(), p, now)
      modifies `nextSourceIndex
      ensures Valid()
      ensures (View(), outcome) == SendAt(old(View()), p, now, clock)
    {
      hide ActiveAt;
      var activeSources := TakingTurns(p, clock);
      ghost var rotation := ListView(activeSources);
      var idx := if p in nextSourceIndex then nextSourceIndex[p] else 0;
      nextSourceIndex := nextSourceIndex[p := (idx + 1) % |activeSources|];
      assert View() == old(View()).(nextIndex := nextSourceIndex) && idx == old(View()).Index(p);
      if !(0 <= idx < |activeSources|) {
        return Fault;
      }
      assert rotation[idx] == activeSources[idx].View();
      return Sent(activeSources[idx].sourceAddr);
    }
  }
}
