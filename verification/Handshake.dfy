/** The prompt and command handshake of the SSH enabler.  One goroutine copies the session's output into a
    writer, which sends on a one-slot channel for each prompt it sees and closes the channel after the last
    command's; another receives from the channel before it types each command. */
module Handshake {
  import opened Text

  /** What the writer does to the channel. */
  datatype ChannelOp = Send(n: nat) | Close

  /** The channel operations of one `Write`, and the new count of commands let through. */
  function WriteEffect(accept: nat, run: nat, prompt: bool): (seq<ChannelOp>, nat) {
    if !prompt || run >= accept then ([], run)
    else (if accept <= run + 1 then [Send(run + 1), Close] else [Send(run + 1)], run + 1)
  }

  class PtyWriter {
    const commandsToAccept: nat
    var commandsRun: nat

    constructor (accept: nat)
      ensures commandsToAccept == accept && commandsRun == 0
    {
      commandsToAccept := accept;
      commandsRun := 0;
    }

    /** The operations are carried out in order, each when the channel allows it. */
    method Write(prompt: bool) returns (ops: seq<ChannelOp>)
      modifies this
      ensures var (effect, run) := WriteEffect(commandsToAccept, old(commandsRun), prompt);
              ops == effect && commandsRun == run
    {
      ops := [];
      if prompt && commandsRun < commandsToAccept {
        commandsRun := commandsRun + 1;
        ops := ops + [Send(commandsRun)];
        if commandsToAccept <= commandsRun {
          ops := ops + [Close];
        }
      }
    }
  }

  // ---------------------------------------------------------------- the two goroutines

  /** The command goroutine: before the receive for command `i`, about to type it, sleeping after it, or
      stopped by a failure.  `Waiting(|commands|)` is the end of its loop. */
  datatype Typist = Waiting(i: nat) | Typing(i: nat) | Sleeping(i: nat) | Failed(i: nat)

  /** `prompts`, `sent` and `received` are histories: the prompts written so far and the values that went in
      and came out of the channel.  `zeros` counts receives of the closed channel's zero value.  `panicked`
      is set by a send on a closed channel and by a second close. */
  datatype State = State(
    run: nat,
    pending: seq<ChannelOp>,
    slot: Option<nat>,
    closed: bool,
    typist: Typist,
    typed: seq<string>,
    prompts: nat,
    sent: nat,
    received: seq<nat>,
    zeros: nat,
    panicked: bool)

  function Initial(): State {
    State(0, [], None, false, Waiting(0), [], 0, 0, [], 0, false)
  }

  datatype Event =
    | Output(prompt: bool)
    | WriterProceeds
    | Receive
    | Type(ok: bool)
    | Wake

  /** A blocked operation changes nothing. */
  function Step(commands: seq<string>, s: State, e: Event): State {
    if s.panicked then s
    else
      match e
      case Output(prompt) =>
        if s.pending != [] then s
        else
          var (ops, run) := WriteEffect(|commands|, s.run, prompt);
          s.(pending := ops, run := run, prompts := if prompt then s.prompts + 1 else s.prompts)
      case WriterProceeds =>
        if s.pending == [] then s
        else
          (match s.pending[0]
           case Send(n) =>
             if s.closed then s.(panicked := true)
             else if s.slot.Some? then s
             else s.(slot := Some(n), sent := s.sent + 1, pending := s.pending[1..])
           case Close =>
             if s.closed then s.(panicked := true)
             else s.(closed := true, pending := s.pending[1..]))
      case Receive =>
        if !s.typist.Waiting? || s.typist.i >= |commands| then s
        else if s.slot.Some? then
          s.(slot := None, received := s.received + [s.slot.value], typist := Typing(s.typist.i))
        else if s.closed then s.(zeros := s.zeros + 1, typist := Typing(s.typist.i))
        else s
      case Type(ok) =>
        if !s.typist.Typing? || s.typist.i >= |commands| then s
        else if ok then s.(typed := s.typed + [commands[s.typist.i]], typist := Sleeping(s.typist.i))
        else s.(typist := Failed(s.typist.i))
      case Wake => if s.typist.Sleeping? then s.(typist := Waiting(s.typist.i + 1)) else s
  }

  function Run(commands: seq<string>, s: State, events: seq<Event>): State
    decreases |events|
  {
    if events == [] then s else Run(commands, Step(commands, s, events[0]), events[1..])
  }

  // ---------------------------------------------------------------- the invariant

  /** What the writer still has to do, given how far it has got. */
  predicate WriterInv(n: nat, s: State) {
    && s.sent <= s.run <= n && s.run <= s.prompts
    && (s.run == s.sent ==> s.pending == (if s.run == n && 0 < n && !s.closed then [Close] else []))
    && (s.run > s.sent ==> s.run == s.sent + 1 && !s.closed &&
                           s.pending == (if s.run == n then [Send(s.run), Close] else [Send(s.run)]))
    && (s.closed ==> s.sent == n)
  }

  /** The slot holds what was sent and not yet received, and the values are 1, 2, 3, ... */
  predicate SlotInv(s: State) {
    && s.sent == |s.received| + (if s.slot.Some? then 1 else 0)
    && (s.slot.Some? ==> s.slot.value == s.sent)
    && (forall k | 0 <= k < |s.received| :: s.received[k] == k + 1)
  }

  /** Each receive is followed by its command. */
  predicate TypistInv(commands: seq<string>, s: State) {
    && s.typist.i <= |commands|
    && (!s.typist.Waiting? ==> s.typist.i < |commands|)
    && |s.received| == (if s.typist.Waiting? then s.typist.i else s.typist.i + 1)
    && |s.typed| == (if s.typist.Sleeping? then s.typist.i + 1 else s.typist.i)
    && s.typed == commands[..|s.typed|]
  }

  predicate Inv(commands: seq<string>, s: State) {
    && !s.panicked && s.zeros == 0
    && WriterInv(|commands|, s)
    && SlotInv(s)
    && TypistInv(commands, s)
  }

  lemma StepKeepsInv(commands: seq<string>, s: State, e: Event)
    requires Inv(commands, s)
    ensures Inv(commands, Step(commands, s, e))
  {
    var after := Step(commands, s, e);
    if e.Type? && after != s && e.ok {
      assert commands[..s.typist.i] + [commands[s.typist.i]] == commands[..s.typist.i + 1];
    }
  }

  lemma {:induction false} InvAlways(commands: seq<string>, s: State, events: seq<Event>)
    requires Inv(commands, s)
    ensures Inv(commands, Run(commands, s, events))
    decreases |events|
  {
    if events != [] {
      StepKeepsInv(commands, s, events[0]);
      InvAlways(commands, Step(commands, s, events[0]), events[1..]);
    }
  }

  /** Over every interleaving: commands are typed in order and each at most once, the i-th only after at
      least i prompts; nothing is sent after the close, the channel is closed at most once, and no receive
      returns the zero value of the closed channel.  At any time at most two prompts are ahead of the typist:
      one in the slot, one waiting to be sent. */
  lemma HandshakeSafe(commands: seq<string>, events: seq<Event>)
    ensures var s := Run(commands, Initial(), events);
            && |s.typed| <= |commands| && s.typed == commands[..|s.typed|]
            && |s.typed| <= |s.received| <= s.prompts
            && (forall k | 0 <= k < |s.received| :: s.received[k] == k + 1)
            && !s.panicked && s.zeros == 0
            && (s.closed ==> s.sent == |commands|)
            && s.run <= |s.received| + 2
  {
    InvAlways(commands, Initial(), events);
  }

  // ---------------------------------------------------------------- what can be typed without output

  /** Every prompt counts until there are as many as commands. */
  lemma {:induction false} RunCountsPrompts(commands: seq<string>, s: State, events: seq<Event>)
    requires s.run == Min(s.prompts, |commands|)
    ensures var s' := Run(commands, s, events); s'.run == Min(s'.prompts, |commands|)
    decreases |events|
  {
    if events != [] {
      RunCountsPrompts(commands, Step(commands, s, events[0]), events[1..]);
    }
  }

  function Min(a: nat, b: nat): nat {
    if a < b then a else b
  }

  predicate Silent(events: seq<Event>) {
    forall i | 0 <= i < |events| :: !events[i].Output?
  }

  lemma {:induction false} SilentKeepsPrompts(commands: seq<string>, s: State, events: seq<Event>)
    requires Silent(events)
    ensures Run(commands, s, events).prompts == s.prompts
    decreases |events|
  {
    if events != [] {
      assert !events[0].Output?;
      SilentKeepsPrompts(commands, Step(commands, s, events[0]), events[1..]);
    }
  }

  /** A command whose prompt was counted can be typed next. */
  lemma TypeOne(commands: seq<string>, s: State) returns (more: seq<Event>)
    requires Inv(commands, s) && !s.typist.Failed? && |s.typed| < s.run
    ensures Silent(more)
    ensures var s' := Run(commands, s, more);
            !s'.typist.Failed? && |s'.typed| == |s.typed| + 1 && s'.run == s.run
  {
    more := [];
    var s1 := s;
    if s1.typist.Sleeping? {
      more, s1 := TakeStep(commands, s, more, s1, Wake);
    }
    if s1.typist.Waiting? {
      if s1.slot.None? {
        more, s1 := TakeStep(commands, s, more, s1, WriterProceeds);
      }
      more, s1 := TakeStep(commands, s, more, s1, Receive);
    }
    more, s1 := TakeStep(commands, s, more, s1, Type(true));
  }

  lemma TakeStep(commands: seq<string>, s: State, events: seq<Event>, after: State, e: Event)
    returns (events': seq<Event>, after': State)
    requires Silent(events) && !e.Output? && after == Run(commands, s, events)
    ensures Silent(events') && after' == Run(commands, s, events') == Step(commands, after, e)
  {
    hide Step;
    events', after' := events + [e], Step(commands, after, e);
    RunSplit(commands, s, events, [e]);
    assert [e][1..] == [];
    assert Run(commands, after, [e]) == Run(commands, after', []);
  }

  lemma {:induction false} TypeMany(commands: seq<string>, s: State, n: nat) returns (more: seq<Event>)
    requires Inv(commands, s) && !s.typist.Failed? && n <= s.run
    ensures Silent(more) && |Run(commands, s, more).typed| >= n
    decreases n - |s.typed|
  {
    if |s.typed| >= n {
      more := [];
    } else {
      hide Inv;
      var first := TypeOne(commands, s);
      InvAlways(commands, s, first);
      var rest := TypeMany(commands, Run(commands, s, first), n);
      RunSplit(commands, s, first, rest);
      more := first + rest;
    }
  }

  /** At any time in any session that has not failed: exactly as many commands can be typed without waiting for
      further output as prompts were written so far, up to the number of commands.  It is the count that
      matters and not where the prompts stood. */
  lemma TypedWithoutOutputIff(commands: seq<string>, events: seq<Event>, n: nat)
    requires !Run(commands, Initial(), events).typist.Failed?
    ensures var s := Run(commands, Initial(), events);
            (exists more :: Silent(more) && |Run(commands, s, more).typed| >= n) <==> n <= Min(s.prompts, |commands|)
  {
    var s := Run(commands, Initial(), events);
    InvAlways(commands, Initial(), events);
    RunCountsPrompts(commands, Initial(), events);
    forall more | Silent(more) ensures |Run(commands, s, more).typed| <= Min(s.prompts, |commands|) {
      InvAlways(commands, s, more);
      SilentKeepsPrompts(commands, s, more);
    }
    if n <= s.run {
      var more := TypeMany(commands, s, n);
    }
  }

  /** So the typist that is about to wait before a command goes on without waiting for output exactly when
      there were more prompts than commands before it. */
  lemma NextTypedWithoutOutputIff(commands: seq<string>, events: seq<Event>, i: nat)
    requires i < |commands| && Run(commands, Initial(), events).typist == Waiting(i)
    ensures var s := Run(commands, Initial(), events);
            (exists more :: Silent(more) && |Run(commands, s, more).typed| > i) <==> s.prompts > i
  {
    TypedWithoutOutputIff(commands, events, i + 1);
    var s := Run(commands, Initial(), events);
    hide Run;
    forall more ensures |Run(commands, s, more).typed| > i <==> |Run(commands, s, more).typed| >= i + 1 {}
  }

  /** For instance, two prompts written before anything is typed let the first two commands through with no
      output in between. */
  lemma {:induction false} PromptsAreBanked(a: string, b: string)
    ensures var events := [Output(true), WriterProceeds, Output(true), Receive, WriterProceeds, Type(true), Wake] +
                          [Receive, Type(true)];
            var s := Run([a, b], Initial(), events);
            s.typed == [a, b] && forall i | 5 <= i < |events| :: !events[i].Output?
  {
    var first := [Output(true), WriterProceeds, Output(true), Receive, WriterProceeds, Type(true), Wake];
    RunSplit([a, b], Initial(), first, [Receive, Type(true)]);
    RunSplit([a, b], Initial(), first[..4], first[4..]);
    assert first == first[..4] + first[4..];
    assert first[..4] == [Output(true), WriterProceeds, Output(true), Receive];
    assert first[4..] == [WriterProceeds, Type(true), Wake];
    FourSteps([a, b], Initial(), Output(true), WriterProceeds, Output(true), Receive);
    var s4 := Run([a, b], Initial(), first[..4]);
    ThreeSteps([a, b], s4, WriterProceeds, Type(true), Wake);
    var s7 := Run([a, b], s4, first[4..]);
    assert s7.typed == [a];
    TwoSteps([a, b], s7, Receive, Type(true));
  }

  lemma {:induction false} RunSplit(commands: seq<string>, s: State, x: seq<Event>, y: seq<Event>)
    ensures Run(commands, s, x + y) == Run(commands, Run(commands, s, x), y)
    decreases |x|
  {
    if x == [] {
      assert x + y == y;
    } else {
      assert (x + y)[0] == x[0] && (x + y)[1..] == x[1..] + y;
      RunSplit(commands, Step(commands, s, x[0]), x[1..], y);
    }
  }

  lemma TwoSteps(commands: seq<string>, s: State, a: Event, b: Event)
    ensures Run(commands, s, [a, b]) == Step(commands, Step(commands, s, a), b)
  {
    var s1 := Step(commands, s, a);
    assert [a, b][1..] == [b] && [b][1..] == [];
    assert Run(commands, s1, [b]) == Run(commands, Step(commands, s1, b), []);
  }

  lemma ThreeSteps(commands: seq<string>, s: State, a: Event, b: Event, c: Event)
    ensures Run(commands, s, [a, b, c]) == Step(commands, Step(commands, Step(commands, s, a), b), c)
  {
    assert [a, b, c][1..] == [b, c];
    TwoSteps(commands, Step(commands, s, a), b, c);
  }

  lemma FourSteps(commands: seq<string>, s: State, a: Event, b: Event, c: Event, d: Event)
    ensures Run(commands, s, [a, b, c, d]) ==
            Step(commands, Step(commands, Step(commands, Step(commands, s, a), b), c), d)
  {
    assert [a, b, c, d][1..] == [b, c, d];
    ThreeSteps(commands, Step(commands, s, a), b, c, d);
  }
}
