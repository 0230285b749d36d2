/** When the relay panics: at an endpoint on a stored base64 token that is too short to slice, at the
    server-side proxy on an index that is out of range, and never otherwise. */
module RelayFaults {
  import opened Text
  import opened Tokens
  import opened Commands
  import opened Connections
  import opened Stages
  import opened Relay
  import opened RelayForward
  import Sources
  import RoundRobin
  import Base64

  // ---------------------------------------------------------------- one step

  /** A packet that is no command, is not dropped and starts with nobody's token meets a base64 token that is
      too short before it meets one that it starts with. */
  ghost predicate FirstHopFault(s: State, ev: Event) {
    ev.EndpointReceives? && Enabled(s, ev) &&
    var (t, data) := (Current(s), Truncate(s.sends[ev.send].data));
    && !(PREFIX <= data) && !ShouldDrop(s.endpoints[ev.endpoint].handler.degradation, ev.draw)
    && |data| >= GENERATED_TOKEN_LENGTH && data[..GENERATED_TOKEN_LENGTH] !in t.tokenToPlayer
    && MeetsShort(t.base64Tokens, data[..GENERATED_TOKEN_LENGTH])
  }

  /** A packet of the game server for a player whose stored index is not below the number of endpoints that
      take turns now. */
  ghost predicate RotationFault(s: State, ev: Event) {
    ev.ServerForwards? && Enabled(s, ev) &&
    var owner := s.server.pool.OwnerOf(s.serverBack[0].port);
    owner.Some? && Sources.Send(s.sources, owner.value, s.now).1.Fault?
  }

  lemma CrashIff(h: Handler, t: TokenTable, data: string, draw: int)
    requires |t.base64Tokens| == |t.decodedTokens|
    ensures Preprocess(h, t, data, draw).2.Crash? <==>
            && !(PREFIX <= data) && !ShouldDrop(h.degradation, draw)
            && |data| >= GENERATED_TOKEN_LENGTH && data[..GENERATED_TOKEN_LENGTH] !in t.tokenToPlayer
            && MeetsShort(t.base64Tokens, data[..GENERATED_TOKEN_LENGTH])
  {
    hide ParseRequest, MeetsShort;
    if |data| >= GENERATED_TOKEN_LENGTH {
      ScanMeetsShort(t.base64Tokens, data[..GENERATED_TOKEN_LENGTH]);
    }
  }

  /** A step makes the relay crash exactly when it is one of these two. */
  lemma StepCrashesIff(s: State, ev: Event)
    requires !s.crashed
    ensures Step(s, ev).crashed <==> FirstHopFault(s, ev) || RotationFault(s, ev)
  {
    if Enabled(s, ev) {
      match ev {
        case EndpointReceives(e, id, draw, port) => ReceiveCrashesIff(s, e, id, draw, port);
        case ServerReceives(hop, port) => hide ParseServerSideToken, Accept;
        case _ =>
      }
    }
  }

  lemma ReceiveCrashesIff(s: State, e: nat, id: nat, draw: int, port: Option<int>)
    requires Enabled(s, EndpointReceives(e, id, draw, port))
    ensures DoEndpointReceives(s, e, id, draw, port).crashed <==> FirstHopFault(s, EndpointReceives(e, id, draw, port))
  {
    hide Preprocess, Handle, MeetsShort;
    CrashIff(s.endpoints[e].handler, Current(s), Truncate(s.sends[id].data), draw);
  }

  // ---------------------------------------------------------------- every run

  ghost predicate FaultAt(s0: State, evs: seq<Event>, k: int) {
    0 <= k < |evs| && (FirstHopFault(Run(s0, evs[..k]), evs[k]) || RotationFault(Run(s0, evs[..k]), evs[k]))
  }

  ghost predicate Faulted(s0: State, evs: seq<Event>) {
    exists k :: FaultAt(s0, evs, k)
  }

  /** A run ends in a crash exactly when one of its steps was such a fault. */
  lemma {:induction false} CrashesExactlyWhen(s0: State, evs: seq<Event>)
    requires Initial(s0)
    ensures Run(s0, evs).crashed <==> Faulted(s0, evs)
  {
    if evs != [] {
      var n := |evs| - 1;
      CrashesExactlyWhen(s0, evs[..n]);
      var s := Run(s0, evs[..n]);
      if !s.crashed {
        StepCrashesIff(s, evs[n]);
      }
      hide Step, Enabled, Initial;
      FaultsOfPrefix(s0, evs);
      assert s.crashed ==> Run(s0, evs) == s by { CrashedStays(s, evs[n]); }
    }
  }

  lemma CrashedStays(s: State, ev: Event)
    ensures s.crashed ==> Step(s, ev) == s && !FirstHopFault(s, ev) && !RotationFault(s, ev)
  {
  }

  lemma FaultsOfPrefix(s0: State, evs: seq<Event>)
    requires evs != []
    ensures Faulted(s0, evs) <==> Faulted(s0, evs[..|evs| - 1]) || FaultAt(s0, evs, |evs| - 1)
  {
    var n := |evs| - 1;
    forall k | 0 <= k < n ensures FaultAt(s0, evs, k) <==> FaultAt(s0, evs[..n], k) {
      assert evs[..n][..k] == evs[..k];
    }
    hide Run, FirstHopFault, RotationFault;
  }

  // ---------------------------------------------------------------- the source table of the run

  /** What a step is for the source table: a packet heard from an endpoint, a reply to a player, or nothing. */
  ghost function SourceEvent(s: State, ev: Event): Option<Sources.Event> {
    if !Enabled(s, ev) then None
    else if ev.ServerReceives? then
      var w := s.endpoints[ev.hop.endpoint].stage.written[ev.hop.index];
      var parsed := ParseServerSideToken(Truncate(w.data));
      if parsed.None? then None else Some(Sources.Heard(s.now, parsed.value.0, w.port))
    else if ev.ServerForwards? then
      var owner := s.server.pool.OwnerOf(s.serverBack[0].port);
      if owner.None? then None else Some(Sources.Reply(s.now, owner.value))
    else None
  }

  ghost function SourceEvents(s0: State, evs: seq<Event>): seq<Sources.Event> {
    if evs == [] then []
    else
      var n := |evs| - 1;
      var e := SourceEvent(Run(s0, evs[..n]), evs[n]);
      SourceEvents(s0, evs[..n]) + (if e.Some? then [e.value] else [])
  }

  lemma StepSources(s: State, ev: Event)
    ensures Step(s, ev).sources ==
            (if SourceEvent(s, ev).Some? then Sources.Step(s.sources, SourceEvent(s, ev).value) else s.sources)
  {
    hide ParseServerSideToken, Accept, Preprocess, Handle, Sources.Send, Sources.Receive;
  }

  /** The server-side proxy's source table is at any time that of the packets heard and the replies so far. */
  lemma {:induction false} SourcesAreHistory(s0: State, evs: seq<Event>)
    requires Initial(s0)
    ensures Run(s0, evs).sources == Sources.Run(Sources.EMPTY, SourceEvents(s0, evs))
  {
    if evs != [] {
      var n := |evs| - 1;
      hide Step, SourceEvent, Sources.Step;
      SourcesAreHistory(s0, evs[..n]);
      var s := Run(s0, evs[..n]);
      StepSources(s, evs[n]);
      if SourceEvent(s, evs[n]).Some? {
        RoundRobin.RunAppend(Sources.EMPTY, SourceEvents(s0, evs[..n]), SourceEvent(s, evs[n]).value);
      } else {
        assert SourceEvents(s0, evs[..n]) + [] == SourceEvents(s0, evs[..n]);
      }
    }
  }

  /** After any run of the relay, its next forwarding step faults exactly when the packet has an owner who is
      not blocked, some earlier reply to that player was forwarded since the player's state was last dropped,
      and by now no more endpoints take turns than the index which that reply left. */
  lemma RotationFaultIff(s0: State, evs: seq<Event>)
    requires Initial(s0)
    ensures var (s, es) := (Run(s0, evs), SourceEvents(s0, evs));
            RotationFault(s, ServerForwards) <==>
              Enabled(s, ServerForwards) &&
              var owner := s.server.pool.OwnerOf(s.serverBack[0].port);
              && owner.Some? && !Sources.Dropped(s.sources, owner.value, s.now)
              && var turn := RoundRobin.LastTurn(es, owner.value);
                 turn.Some? && |Sources.Rotation(s.sources, owner.value, s.now)| <= (turn.value.place + 1) % turn.value.width
  {
    hide Run, SourceEvents, Sources.Send, Sources.Dropped, Sources.Rotation, RoundRobin.LastTurn, Sources.Run;
    SourcesAreHistory(s0, evs);
    var s := Run(s0, evs);
    if Enabled(s, ServerForwards) && s.server.pool.OwnerOf(s.serverBack[0].port).Some? {
      RoundRobin.FaultIff(SourceEvents(s0, evs), s.server.pool.OwnerOf(s.serverBack[0].port).value, s.now);
    }
  }

  // ---------------------------------------------------------------- runs that do not crash

  /** A packet that does not ask for a token shorter than 28 characters. */
  predicate AsksNoShortToken(data: string) {
    PREFIX <= data && ParseRequest(data).ReplaceToken? ==> |ParseRequest(data).base64Token| >= GENERATED_TOKEN_LENGTH
  }

  lemma NoShortTokenKept(h: Handler, t: TokenTable, data: string, draw: int)
    requires |t.base64Tokens| == |t.decodedTokens| && !HasShortToken(t) && AsksNoShortToken(data)
    ensures !HasShortToken(Preprocess(h, t, data, draw).1)
  {
    hide ParseRequest, Base64.Decode, TrafficOf, HasShortToken;
    if PREFIX <= data && ParseRequest(data).ReplaceToken? {
      ReplaceKeepsLong(t, ParseRequest(data).player, ParseRequest(data).base64Token);
    }
  }

  lemma ReplaceKeepsLong(t: TokenTable, player: int, base64Token: string)
    requires |t.base64Tokens| == |t.decodedTokens| && !HasShortToken(t) && |base64Token| >= GENERATED_TOKEN_LENGTH
    ensures !HasShortToken(Replace(t, player, base64Token).0)
  {
    if Replace(t, player, base64Token).1.None? {
      ShortAfterReplaceIff(t, player, base64Token);
    }
  }

  /** What a step can do to the token table: only a received packet can change it. */
  lemma StepTable(s: State, ev: Event)
    requires s.tables != []
    ensures Step(s, ev).tables != []
    ensures Current(Step(s, ev)) == Current(s) ||
            (&& ev.EndpointReceives? && Enabled(s, ev)
             && Current(Step(s, ev)) == Preprocess(s.endpoints[ev.endpoint].handler, Current(s),
                                                   Truncate(s.sends[ev.send].data), ev.draw).1)
  {
    hide Preprocess, Handle, ParseServerSideToken, Accept, Sources.Send;
  }

  ghost predicate SendsAskNoShort(sends: seq<ClientSend>) {
    forall i | 0 <= i < |sends| :: AsksNoShortToken(Truncate(sends[i].data))
  }

  lemma {:induction false} NoShortTokenEver(s0: State, evs: seq<Event>)
    requires Initial(s0) && !HasShortToken(Current(s0)) && SendsAskNoShort(Run(s0, evs).sends)
    ensures Run(s0, evs).tables != [] && !HasShortToken(Current(Run(s0, evs)))
  {
    if evs != [] {
      var n := |evs| - 1;
      var s := Run(s0, evs[..n]);
      StepGrows(s, evs[n]);
      hide Step, HasShortToken, AsksNoShortToken, Preprocess;
      assert SendsAskNoShort(s.sends) by { FewerSends(s.sends, Run(s0, evs).sends); }
      NoShortTokenEver(s0, evs[..n]);
      StepTable(s, evs[n]);
      if evs[n].EndpointReceives? && Enabled(s, evs[n]) {
        NoShortTokenKept(s.endpoints[evs[n].endpoint].handler, Current(s), Truncate(s.sends[evs[n].send].data), evs[n].draw);
      }
    }
  }

  lemma FewerSends(a: seq<ClientSend>, b: seq<ClientSend>)
    requires a <= b && SendsAskNoShort(b)
    ensures SendsAskNoShort(a)
  {
    forall i | 0 <= i < |a| ensures AsksNoShortToken(Truncate(a[i].data)) {
      assert a[i] == b[i];
    }
  }

  lemma LongNeverFaults(s: State, ev: Event)
    requires s.tables != [] && !HasShortToken(Current(s))
    ensures !FirstHopFault(s, ev)
  {
    if ev.EndpointReceives? && Enabled(s, ev) {
      var t := Current(s);
      assert forall i | 0 <= i < |t.base64Tokens| :: |t.base64Tokens[i]| >= GENERATED_TOKEN_LENGTH;
    }
  }

  lemma SteadyNeverFaults(s0: State, evs: seq<Event>, ev: Event)
    requires Initial(s0) && RoundRobin.Faultless(SourceEvents(s0, evs + [ev]))
    ensures !RotationFault(Run(s0, evs), ev)
  {
    hide Run, SourceEvents, Sources.Send, Sources.Run, Initial, RoundRobin.Faultless;
    var s := Run(s0, evs);
    SourcesAreHistory(s0, evs);
    if ev.ServerForwards? && Enabled(s, ev) && s.server.pool.OwnerOf(s.serverBack[0].port).Some? {
      OneMoreReply(s0, evs, ev);
      RoundRobin.FaultlessAppend(SourceEvents(s0, evs), Sources.Reply(s.now, s.server.pool.OwnerOf(s.serverBack[0].port).value));
    }
  }

  lemma OneMoreReply(s0: State, evs: seq<Event>, ev: Event)
    requires var s := Run(s0, evs);
             ev.ServerForwards? && Enabled(s, ev) && s.server.pool.OwnerOf(s.serverBack[0].port).Some?
    ensures var s := Run(s0, evs);
            SourceEvents(s0, evs + [ev]) ==
            SourceEvents(s0, evs) + [Sources.Reply(s.now, s.server.pool.OwnerOf(s.serverBack[0].port).value)]
  {
    assert (evs + [ev])[..|evs|] == evs;
  }

  lemma {:induction false} FaultlessPrefix(s0: State, evs: seq<Event>)
    requires evs != [] && RoundRobin.NeverShrinks(SourceEvents(s0, evs))
    ensures RoundRobin.NeverShrinks(SourceEvents(s0, evs[..|evs| - 1]))
  {
    var n := |evs| - 1;
    var (es, prefix) := (SourceEvents(s0, evs), SourceEvents(s0, evs[..n]));
    assert es == prefix || (|es| == |prefix| + 1 && es[..|es| - 1] == prefix);
  }

  /** A run does not crash when it starts with no short token, no datagram of a client asks for one, and the
      number of endpoints that take turns for a player never shrinks between two replies. */
  lemma {:induction false} NeverCrashes(s0: State, evs: seq<Event>)
    requires Initial(s0) && !HasShortToken(Current(s0)) && SendsAskNoShort(Run(s0, evs).sends)
    requires RoundRobin.NeverShrinks(SourceEvents(s0, evs))
    ensures !Run(s0, evs).crashed
  {
    if evs != [] {
      var n := |evs| - 1;
      var s := Run(s0, evs[..n]);
      FaultlessPrefix(s0, evs);
      StepGrows(s, evs[n]);
      hide Step, HasShortToken, AsksNoShortToken, SourceEvents, RoundRobin.NeverShrinks, FirstHopFault, RotationFault;
      assert SendsAskNoShort(s.sends) by { FewerSends(s.sends, Run(s0, evs).sends); }
      NeverCrashes(s0, evs[..n]);
      NoShortTokenEver(s0, evs[..n]);
      LongNeverFaults(s, evs[n]);
      RoundRobin.NeverShrinksNeverFaults(SourceEvents(s0, evs));
      assert evs[..n] + [evs[n]] == evs;
      SteadyNeverFaults(s0, evs[..n], evs[n]);
      StepCrashesIff(s, evs[n]);
    }
  }

  /** Whatever happens, no player ever has the empty token, if none has it at first. */
  lemma {:induction false} NoEmptyTokenEver(s0: State, evs: seq<Event>)
    requires Initial(s0) && "" !in Current(s0).decodedTokens
    ensures Run(s0, evs).tables != [] && "" !in Current(Run(s0, evs)).decodedTokens
  {
    if evs != [] {
      var n := |evs| - 1;
      var s := Run(s0, evs[..n]);
      hide Step, Preprocess;
      NoEmptyTokenEver(s0, evs[..n]);
      StepTable(s, evs[n]);
      if evs[n].EndpointReceives? && Enabled(s, evs[n]) {
        NoPacketInstallsEmptyToken(s.endpoints[evs[n].endpoint].handler, Current(s), Truncate(s.sends[evs[n].send].data),
                                   evs[n].draw);
      }
    }
  }

  // ---------------------------------------------------------------- a run that crashes

  /** Asks for a token of one byte, "A", for player 1. */
  const SHORT_TOKEN := "QQ=="

  function AskForShort(): string {
    PREFIX + REPLACE_TOKEN + [DELIMITER] + "1" + [DELIMITER] + SHORT_TOKEN
  }

  lemma ShortTokenDecodes()
    ensures Base64.Decode(SHORT_TOKEN) == Some("A")
  {
    assert Base64.Group("A") == 65 * 0x1_0000;
    assert Base64.EncodeGroup("A") == SHORT_TOKEN;
    assert Base64.Encode("A") == Base64.EncodeGroup("A");
    Base64.DecodeEncode("A");
  }

  lemma ShortIsAsked()
    ensures PREFIX <= AskForShort() && ParseRequest(AskForShort()) == ReplaceToken(1, SHORT_TOKEN)
    ensures |AskForShort()| <= BUFFER_SIZE
  {
    assert Digits(1) == "1";
    assert Itoa(1) == "1";
    AtoiItoa(1);
    hide ParseRequest, Atoi;
    ReplaceMessage("1", SHORT_TOKEN, 1);
    assert |PREFIX| == 14 && |REPLACE_TOKEN| == 12;
  }

  lemma ShortIsInstalled(t: TokenTable)
    requires |t.base64Tokens| == |t.decodedTokens| && t.HasPlayer(1) && "A" !in t.tokenToPlayer
    ensures var (t', err) := Replace(t, 1, SHORT_TOKEN);
            && err.None? && t'.base64Tokens == t.base64Tokens[0 := SHORT_TOKEN]
            && |t'.base64Tokens| == |t'.decodedTokens|
            && forall h | h in t'.tokenToPlayer :: h in t.tokenToPlayer || h == "A"
  {
    ShortTokenDecodes();
    hide Base64.Decode;
  }

  lemma ProbeFaults(t: TokenTable, probe: string)
    requires |probe| == GENERATED_TOKEN_LENGTH && probe !in t.tokenToPlayer
    requires t.base64Tokens != [] && t.base64Tokens[0] == SHORT_TOKEN
    ensures ParseClientSideToken(t, probe).Fault?
  {
    assert probe[..GENERATED_TOKEN_LENGTH] == probe;
  }

  /** An endpoint that receives a command which replaces a token. */
  lemma ReceiveReplace(s: State, e: nat, id: nat, draw: int, player: int, base64Token: string)
    requires Enabled(s, EndpointReceives(e, id, draw, None))
    requires var data := Truncate(s.sends[id].data); PREFIX <= data && ParseRequest(data) == ReplaceToken(player, base64Token)
    requires Replace(Current(s), player, base64Token).1.None?
    requires |Replace(Current(s), player, base64Token).0.base64Tokens| == |Replace(Current(s), player, base64Token).0.decodedTokens|
    ensures var s' := Step(s, EndpointReceives(e, id, draw, None));
            && s'.tables != [] && Current(s') == Replace(Current(s), player, base64Token).0 && !s'.crashed
            && s'.sends == s.sends && s'.sendsPending == s.sendsPending - {id} && |s'.endpoints| == |s.endpoints|
            && s'.endpoints[e].running == s.endpoints[e].running && s'.endpoints[e].handler == s.endpoints[e].handler
  {
    hide ParseRequest, Replace;
  }

  /** A crash that is reachable from every start at which player 1 exists and nobody has the token "A": a
      client asks for that token, which is installed, and then sends any 28 bytes that are nobody's token. */
  lemma {:induction false} ShortTokenCrashes(s0: State, e: nat, client: int, probe: string, draw: int)
    requires Initial(s0) && e < |s0.endpoints| && Current(s0).HasPlayer(1) && "A" !in Current(s0).tokenToPlayer
    requires |probe| == GENERATED_TOKEN_LENGTH && probe !in Current(s0).tokenToPlayer && !(PREFIX <= probe)
    ensures Run(s0, [ClientSends(e, client, AskForShort()), EndpointReceives(e, 0, draw, None)] +
                    [ClientSends(e, client, probe), EndpointReceives(e, 1, draw, None)]).crashed
  {
    hide *;
    var (a, b) := (ClientSends(e, client, AskForShort()), EndpointReceives(e, 0, draw, None));
    var (c, d) := (ClientSends(e, client, probe), EndpointReceives(e, 1, draw, None));
    FourSteps(s0, a, b, c, d);
    ShortAsked(s0, e, client, probe, draw);
    AfterShort(Step(Step(s0, a), b), e, client, probe, draw);
  }

  lemma ShortAsked(s0: State, e: nat, client: int, probe: string, draw: int)
    requires Initial(s0) && e < |s0.endpoints| && Current(s0).HasPlayer(1) && "A" !in Current(s0).tokenToPlayer
    requires |probe| == GENERATED_TOKEN_LENGTH && probe !in Current(s0).tokenToPlayer && !(PREFIX <= probe)
    ensures var s := Step(Step(s0, ClientSends(e, client, AskForShort())), EndpointReceives(e, 0, draw, None));
            && !s.crashed && s.tables != [] && |Current(s).base64Tokens| == |Current(s).decodedTokens|
            && e < |s.endpoints| && s.endpoints[e].running && s.endpoints[e].handler.degradation == MIN_DEGRADATION
            && Current(s).base64Tokens != [] && Current(s).base64Tokens[0] == SHORT_TOKEN
            && |s.sends| == 1 && probe !in Current(s).tokenToPlayer
  {
    StartsReady(s0, e);
    hide *;
    FirstSend(s0, e, client);
    ShortIsAsked();
    ShortIsInstalled(Current(s0));
    ReceiveReplace(Step(s0, ClientSends(e, client, AskForShort())), e, 0, draw, 1, SHORT_TOKEN);
    FirstIsShort(Current(s0).base64Tokens);
  }

  lemma FirstIsShort(tokens: seq<string>)
    ensures tokens != [] ==> tokens[0 := SHORT_TOKEN][0] == SHORT_TOKEN
  {
  }

  lemma StartsReady(s: State, e: nat)
    requires Initial(s) && e < |s.endpoints|
    ensures !s.crashed && s.tables != [] && |Current(s).base64Tokens| == |Current(s).decodedTokens| && s.sends == []
    ensures s.endpoints[e].running && s.endpoints[e].handler.degradation == MIN_DEGRADATION
    ensures Current(s).HasPlayer(1) ==> Current(s).base64Tokens != []
  {
    assert s.endpoints[e] == NewEndpoint(s.endpoints[e].port, s.endpoints[e].Player());
  }

  lemma FirstSend(s: State, e: nat, client: int)
    requires !s.crashed && s.tables != [] && |Current(s).base64Tokens| == |Current(s).decodedTokens| && s.sends == []
    requires e < |s.endpoints| && s.endpoints[e].running
    ensures var s1 := Step(s, ClientSends(e, client, AskForShort()));
            && s1.endpoints == s.endpoints && s1.tables == s.tables && Current(s1) == Current(s) && |s1.sends| == 1
            && (forall draw :: Enabled(s1, EndpointReceives(e, 0, draw, None)))
            && Truncate(s1.sends[0].data) == AskForShort()
  {
    ShortIsAsked();
    hide AskForShort, ParseRequest;
  }

  lemma AfterShort(s: State, e: nat, client: int, probe: string, draw: int)
    requires !s.crashed && s.tables != [] && |Current(s).base64Tokens| == |Current(s).decodedTokens|
    requires e < |s.endpoints| && s.endpoints[e].running && s.endpoints[e].handler.degradation == MIN_DEGRADATION
    requires Current(s).base64Tokens != [] && Current(s).base64Tokens[0] == SHORT_TOKEN
    requires |s.sends| == 1 && |probe| == GENERATED_TOKEN_LENGTH && probe !in Current(s).tokenToPlayer && !(PREFIX <= probe)
    ensures Step(Step(s, ClientSends(e, client, probe)), EndpointReceives(e, 1, draw, None)).crashed
  {
    ProbeFaults(Current(s), probe);
    hide ParseClientSideToken, Handle;
    var s1 := Step(s, ClientSends(e, client, probe));
    assert Truncate(s1.sends[1].data) == probe;
    assert Enabled(s1, EndpointReceives(e, 1, draw, None));
    assert Preprocess(s1.endpoints[e].handler, Current(s1), probe, draw).2.Crash?;
  }

  lemma RunSnoc(s: State, evs: seq<Event>, ev: Event)
    ensures Run(s, evs + [ev]) == Step(Run(s, evs), ev)
  {
    hide Step;
    assert (evs + [ev])[..|evs|] == evs;
  }

  lemma FourSteps(s: State, a: Event, b: Event, c: Event, d: Event)
    ensures Run(s, [a, b] + [c, d]) == Step(Step(Step(Step(s, a), b), c), d)
  {
    hide Step;
    assert Run(s, []) == s;
    hide Run;
    assert [] + [a] == [a] && [a] + [b] == [a, b] && [a, b] + [c] == [a, b, c] && [a, b, c] + [d] == [a, b] + [c, d];
    RunSnoc(s, [], a);
    RunSnoc(s, [a], b);
    RunSnoc(s, [a, b], c);
    RunSnoc(s, [a, b, c], d);
  }
}
