/** When a proxy of the relay stops, and that it stays stopped. */
module RelayStops {
  import opened Text
  import opened Commands
  import opened Connections
  import opened Relay
  import Tokens
  import Sources

  // ---------------------------------------------------------------- when a proxy stops

  /** In this step a packet is let through at the endpoint, which has no socket for its player and gets none. */
  ghost predicate LacksSocket(s: State, ev: Event, e: nat) {
    && Enabled(s, ev) && ev.EndpointReceives? && ev.endpoint == e && ev.port.None?
    && var ep := s.endpoints[e];
       var r := Preprocess(ep.handler, Current(s), Truncate(s.sends[ev.send].data), ev.draw).2;
       r.Traffic? && r.player !in ep.stage.pool.conns
  }

  /** In this step the server-side proxy reads a packet with a player number, has no socket for that player and
      gets none. */
  ghost predicate ServerLacksSocket(s: State, ev: Event) {
    && Enabled(s, ev) && ev.ServerReceives? && ev.port.None?
    && var data := s.endpoints[ev.hop.endpoint].stage.written[ev.hop.index].data;
       var parsed := Tokens.ParseServerSideToken(Truncate(data));
       parsed.Some? && parsed.value.0 !in s.server.pool.conns
  }

  /** A running endpoint stops in a step exactly when it lacks a socket for the packet. */
  lemma EndpointStopsIff(s: State, ev: Event, e: nat)
    requires e < |s.endpoints| && s.endpoints[e].running
    ensures |Step(s, ev).endpoints| == |s.endpoints|
    ensures !Step(s, ev).endpoints[e].running <==> LacksSocket(s, ev, e)
  {
    hide Preprocess, Sources.Send, Tokens.ParseServerSideToken;
  }

  /** The server-side proxy stops in a step exactly when it lacks a socket for the packet. */
  lemma ServerStopsIff(s: State, ev: Event)
    requires s.serverRunning
    ensures !Step(s, ev).serverRunning <==> ServerLacksSocket(s, ev)
  {
    hide Preprocess, Sources.Send, Tokens.ParseServerSideToken;
  }

  // ---------------------------------------------------------------- what it does afterwards

  /** What a stopped endpoint no longer changes: it has accepted, refused and delivered all that it ever will. */
  ghost predicate SameWork(a: Endpoint, b: Endpoint) {
    a.running == b.running && a.handler == b.handler && a.tally == b.tally && a.stage.accepted == b.stage.accepted
    && a.delivered == b.delivered
  }

  lemma StepKeepsWork(s: State, ev: Event, e: nat)
    requires e < |s.endpoints| && !s.endpoints[e].running
    ensures |Step(s, ev).endpoints| == |s.endpoints| && SameWork(s.endpoints[e], Step(s, ev).endpoints[e])
  {
    hide Preprocess, Sources.Send, Tokens.ParseServerSideToken, Handle;
  }

  ghost predicate SameServer(a: State, b: State) {
    a.serverRunning == b.serverRunning && a.server.accepted == b.server.accepted && a.sources == b.sources
    && a.replies == b.replies
  }

  lemma StepKeepsServer(s: State, ev: Event)
    requires !s.serverRunning
    ensures SameServer(s, Step(s, ev))
  {
    hide Preprocess, Sources.Send, Tokens.ParseServerSideToken, Handle;
  }

  // ---------------------------------------------------------------- over whole runs

  ghost predicate LackedSocket(s0: State, evs: seq<Event>, e: nat, k: nat) {
    k < |evs| && LacksSocket(Run(s0, evs[..k]), evs[k], e)
  }

  ghost predicate ServerLackedSocket(s0: State, evs: seq<Event>, k: nat) {
    k < |evs| && ServerLacksSocket(Run(s0, evs[..k]), evs[k])
  }

  /** After any run an endpoint has stopped exactly when one of the steps found it without a socket for a packet. */
  lemma {:induction false} StoppedExactlyWhen(s0: State, evs: seq<Event>, e: nat)
    requires Initial(s0) && e < |s0.endpoints|
    ensures |Run(s0, evs).endpoints| == |s0.endpoints|
    ensures !Run(s0, evs).endpoints[e].running <==> exists k :: LackedSocket(s0, evs, e, k)
  {
    if evs == [] {
      assert s0.endpoints[e] == NewEndpoint(s0.endpoints[e].port, s0.endpoints[e].Player());
    } else {
      hide Step, Initial, LackedSocket, LacksSocket;
      var n := |evs| - 1;
      StoppedExactlyWhen(s0, evs[..n], e);
      LackedStep(s0, evs, e);
      StepStops(Run(s0, evs[..n]), evs[n], e);
    }
  }

  /** The same for the server-side proxy. */
  lemma {:induction false} ServerStoppedExactlyWhen(s0: State, evs: seq<Event>)
    requires Initial(s0)
    ensures !Run(s0, evs).serverRunning <==> exists k :: ServerLackedSocket(s0, evs, k)
  {
    if evs != [] {
      hide Step, Initial, ServerLackedSocket, ServerLacksSocket;
      var n := |evs| - 1;
      ServerStoppedExactlyWhen(s0, evs[..n]);
      ServerLackedStep(s0, evs);
      ServerStepStops(Run(s0, evs[..n]), evs[n]);
    }
  }

  lemma LackedStep(s0: State, evs: seq<Event>, e: nat)
    requires evs != []
    ensures var n := |evs| - 1;
            (exists k :: LackedSocket(s0, evs, e, k)) <==>
            (exists k :: LackedSocket(s0, evs[..n], e, k)) || LacksSocket(Run(s0, evs[..n]), evs[n], e)
  {
    hide Run, LacksSocket;
    var n := |evs| - 1;
    forall k: nat | k < n ensures LackedSocket(s0, evs, e, k) <==> LackedSocket(s0, evs[..n], e, k) {
      assert evs[..n][..k] == evs[..k];
    }
    assert LackedSocket(s0, evs, e, n) <==> LacksSocket(Run(s0, evs[..n]), evs[n], e);
  }

  lemma ServerLackedStep(s0: State, evs: seq<Event>)
    requires evs != []
    ensures var n := |evs| - 1;
            (exists k :: ServerLackedSocket(s0, evs, k)) <==>
            (exists k :: ServerLackedSocket(s0, evs[..n], k)) || ServerLacksSocket(Run(s0, evs[..n]), evs[n])
  {
    hide Run, ServerLacksSocket;
    var n := |evs| - 1;
    forall k: nat | k < n ensures ServerLackedSocket(s0, evs, k) <==> ServerLackedSocket(s0, evs[..n], k) {
      assert evs[..n][..k] == evs[..k];
    }
    assert ServerLackedSocket(s0, evs, n) <==> ServerLacksSocket(Run(s0, evs[..n]), evs[n]);
  }

  lemma StepStops(s: State, ev: Event, e: nat)
    requires e < |s.endpoints|
    ensures |Step(s, ev).endpoints| == |s.endpoints|
    ensures !Step(s, ev).endpoints[e].running <==> !s.endpoints[e].running || LacksSocket(s, ev, e)
  {
    hide Step, LacksSocket;
    if s.endpoints[e].running {
      EndpointStopsIff(s, ev, e);
    } else {
      StepKeepsWork(s, ev, e);
      StoppedLacksNothing(s, ev, e);
    }
  }

  lemma StoppedLacksNothing(s: State, ev: Event, e: nat)
    requires e < |s.endpoints| && !s.endpoints[e].running
    ensures !LacksSocket(s, ev, e)
  {
    hide Preprocess;
  }

  lemma ServerStepStops(s: State, ev: Event)
    ensures !Step(s, ev).serverRunning <==> !s.serverRunning || ServerLacksSocket(s, ev)
  {
    hide Step;
    if s.serverRunning {
      ServerStopsIff(s, ev);
    } else {
      StepKeepsServer(s, ev);
    }
  }

  /** Once stopped, an endpoint never accepts, refuses or delivers anything again, whatever follows. */
  lemma {:induction false} StoppedForGood(s: State, evs: seq<Event>, e: nat)
    requires e < |s.endpoints| && !s.endpoints[e].running
    ensures |Run(s, evs).endpoints| == |s.endpoints| && SameWork(s.endpoints[e], Run(s, evs).endpoints[e])
  {
    if evs != [] {
      hide Step;
      var n := |evs| - 1;
      StoppedForGood(s, evs[..n], e);
      StepKeepsWork(Run(s, evs[..n]), evs[n], e);
    }
  }

  /** Once stopped, the server-side proxy takes nothing more, and its table of sources and what it sent back stay as
      they are. */
  lemma {:induction false} ServerStoppedForGood(s: State, evs: seq<Event>)
    requires !s.serverRunning
    ensures SameServer(s, Run(s, evs))
  {
    if evs != [] {
      hide Step;
      var n := |evs| - 1;
      ServerStoppedForGood(s, evs[..n]);
      StepKeepsServer(Run(s, evs[..n]), evs[n]);
    }
  }
}
