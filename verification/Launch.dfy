/** A game server container beside the sync sidecar: the wrapper script, which finds and launches a build,
    and the SDK wrapper, which tells GameLift that the session is active.  The two share a version file and
    an activation file; of the volume they only read. */
module Launch {
  import opened Text
  import opened Keys
  import opened Publish
  import opened PublishFiles

  const SERVER_BINARY := "gameserver"
  const DEFAULT_VERSION: Version := "default"

  /** Both polls wait this many seconds, two at a time. */
  const TIMEOUT := 30
  const INTERVAL := 2

  datatype Wrapper =
    | Down
    | WaitVersion
    | WaitBinary(v: Version, elapsed: nat)
    | CheckBinary(v: Version)
    | WaitMarker(v: Version, elapsed: nat)
    | CheckMarker(v: Version)
    | CheckExecutable(v: Version)
    | Settling(v: Version)
    | Signalling(v: Version)
    | Serving(v: Version)
    | Ended

  datatype Sdk = Absent | Ready | Waiting(v: Version) | Active(v: Version) | Gone

  /** What happened, in order: the game server was launched from a version's directory, its process was seen
      alive, `ActivateGameSession` was called for a session with this version. */
  datatype Entry = Launched(v: Version) | SeenAlive(v: Version) | Activated(v: Version)

  datatype Container = Container(
    wrapper: Wrapper,
    sdk: Sdk,
    versionFile: Option<Version>,
    activateFile: bool,
    serverAlive: bool)

  datatype World = World(sync: State, container: Container, log: seq<Entry>)

  function Start(): World {
    World(Initial(), Container(Down, Absent, None, false, false), [])
  }

  datatype Action =
    // the publish and sync protocol goes on
    | Sync(e: Event)
    // the container starts, or stops with everything in it
    | Boot
    | Halt
    // GameLift starts a session; writing the version file may fail
    | StartSession(property: Option<Version>, written: bool)
    // the next step of the wrapper script; `ok` is what the executable check would say
    | Proceed(ok: bool)
    // the game server process ends
    | ServerDies
    // the SDK wrapper's ticker; `ok` is GameLift's answer
    | Tick(ok: bool)
    // timeout, signal or failure of the SDK wrapper
    | SdkExit

  function ProceedWrapper(volume: Volume, c: Container, ok: bool): (Container, seq<Entry>) {
    match c.wrapper
    case WaitVersion =>
      if c.versionFile.Some? then (c.(wrapper := WaitBinary(c.versionFile.value, 0)), [])
      else if c.sdk.Gone? then (c.(wrapper := Ended), [])
      else (c, [])
    case WaitBinary(v, elapsed) =>
      if Build(v, SERVER_BINARY) !in volume.files && elapsed < TIMEOUT
      then (c.(wrapper := WaitBinary(v, elapsed + INTERVAL)), [])
      else (c.(wrapper := CheckBinary(v)), [])
    case CheckBinary(v) =>
      (c.(wrapper := if Build(v, SERVER_BINARY) in volume.files then WaitMarker(v, 0) else Ended), [])
    case WaitMarker(v, elapsed) =>
      if v !in volume.complete && elapsed < TIMEOUT
      then (c.(wrapper := WaitMarker(v, elapsed + INTERVAL)), [])
      else (c.(wrapper := CheckMarker(v)), [])
    case CheckMarker(v) =>
      (c.(wrapper := if v in volume.complete then CheckExecutable(v) else Ended), [])
    case CheckExecutable(v) =>
      if ok && Build(v, SERVER_BINARY) in volume.files
      then (c.(wrapper := Settling(v), serverAlive := true), [Launched(v)])
      else (c.(wrapper := Ended), [])
    case Settling(v) =>
      if c.serverAlive then (c.(wrapper := Signalling(v)), [SeenAlive(v)])
      else (c.(wrapper := Ended), [])
    case Signalling(v) => (c.(wrapper := Serving(v), activateFile := true), [])
    case Serving(v) =>
      if c.serverAlive then (c, [])
      else (c.(wrapper := Ended, activateFile := false), [])
    case _ => (c, [])
  }

  function ContainerStep(volume: Volume, c: Container, a: Action): (Container, seq<Entry>) {
    match a
    case Boot =>
      if c.wrapper.Down? then (Container(WaitVersion, Ready, None, false, false), []) else (c, [])
    case Halt => (c.(wrapper := Down, sdk := Absent, serverAlive := false), [])
    case StartSession(property, written) =>
      if !c.sdk.Ready? then (c, [])
      else
        var v := if property.Some? then property.value else DEFAULT_VERSION;
        (c.(sdk := Waiting(v), versionFile := if written then Some(v) else c.versionFile), [])
    case Proceed(ok) => ProceedWrapper(volume, c, ok)
    case ServerDies => (c.(serverAlive := false), [])
    case Tick(ok) =>
      if !(c.sdk.Waiting? && c.activateFile) then (c, [])
      else if ok then (c.(sdk := Active(c.sdk.v), activateFile := false), [Activated(c.sdk.v)])
      else (c.(sdk := Gone), [Activated(c.sdk.v)])
    case SdkExit => if c.sdk.Absent? then (c, []) else (c.(sdk := Gone), [])
    case Sync(_) => (c, [])
  }

  function Next(builds: Builds, w: World, a: Action): World {
    if a.Sync? then w.(sync := Step(builds, w.sync, a.e))
    else
      var (c, entries) := ContainerStep(w.sync.volume, w.container, a);
      w.(container := c, log := w.log + entries)
  }

  function RunWorld(builds: Builds, w: World, actions: seq<Action>): World
    decreases |actions|
  {
    if actions == [] then w else RunWorld(builds, Next(builds, w, actions[0]), actions[1..])
  }

  // ---------------------------------------------------------------- the invariant

  function VersionOf(w: Wrapper): Option<Version> {
    match w
    case WaitBinary(v, _) => Some(v)
    case CheckBinary(v) => Some(v)
    case WaitMarker(v, _) => Some(v)
    case CheckMarker(v) => Some(v)
    case CheckExecutable(v) => Some(v)
    case Settling(v) => Some(v)
    case Signalling(v) => Some(v)
    case Serving(v) => Some(v)
    case _ => None
  }

  /** The wrapper works on the version of the SDK wrapper's session. */
  predicate SameVersion(c: Container) {
    && (VersionOf(c.wrapper).Some? ==> c.versionFile == VersionOf(c.wrapper))
    && (c.sdk.Ready? ==> c.versionFile.None?)
    && (c.wrapper.Down? ==> c.sdk.Absent?)
    && (c.sdk.Waiting? || c.sdk.Active? ==> c.versionFile.Some? ==> c.versionFile.value == c.sdk.v)
  }

  /** What the end of the log says. */
  datatype Progress = Nothing | JustLaunched(v: Version) | JustSeen(v: Version)

  function ProgressOf(log: seq<Entry>): Progress {
    if log == [] then Nothing
    else
      var last := log[|log| - 1];
      if last.Launched? then JustLaunched(last.v)
      else if last.SeenAlive? && |log| >= 2 && log[|log| - 2] == Launched(last.v) then JustSeen(last.v)
      else Nothing
  }

  /** How far the log has got for the version that is being launched. */
  predicate Reached(c: Container, p: Progress) {
    && (c.wrapper.Settling? ==> p == JustLaunched(c.wrapper.v))
    && (c.wrapper.Signalling? ==> p == JustSeen(c.wrapper.v))
    && (c.activateFile && c.sdk.Waiting? ==> c.wrapper.Serving? && p == JustSeen(c.wrapper.v))
    && (c.activateFile && !c.wrapper.Down? ==> c.wrapper.Serving?)
  }

  /** What an entry needs to find at the end of the log: a sighting its launch, an activation the sighting. */
  predicate Justified(p: Progress, entry: Entry) {
    && (entry.SeenAlive? ==> p == JustLaunched(entry.v))
    && (entry.Activated? ==> p == JustSeen(entry.v))
  }

  predicate InOrder(log: seq<Entry>) {
    forall i | 0 <= i < |log| :: Justified(ProgressOf(log[..i]), log[i])
  }

  predicate Checked(builds: Builds, volume: Volume, wrapper: Wrapper) {
    (wrapper.CheckExecutable? || wrapper.Settling? || wrapper.Signalling? || wrapper.Serving?) && wrapper.v in builds ==>
      wrapper.v in volume.complete
  }

  predicate LaunchesChecked(builds: Builds, volume: Volume, log: seq<Entry>) {
    forall i | 0 <= i < |log| && log[i].v in builds :: log[i].v in volume.complete
  }

  predicate WorldInv(builds: Builds, w: World) {
    && KeptInv(builds, w.sync)
    && SameVersion(w.container)
    && Reached(w.container, ProgressOf(w.log))
    && InOrder(w.log)
    && Checked(builds, w.sync.volume, w.container.wrapper)
    && LaunchesChecked(builds, w.sync.volume, w.log)
  }

  lemma SameVersionKept(volume: Volume, c: Container, a: Action)
    requires SameVersion(c)
    ensures SameVersion(ContainerStep(volume, c, a).0)
  {
  }

  function Advance(p: Progress, entries: seq<Entry>): Progress {
    if entries == [] then p
    else
      match entries[0]
      case Launched(v) => JustLaunched(v)
      case SeenAlive(v) => if p == JustLaunched(v) then JustSeen(v) else Nothing
      case Activated(_) => Nothing
  }

  /** At most one entry is added, and only where the log had got to. */
  lemma ReachedKept(volume: Volume, c: Container, a: Action, p: Progress)
    requires SameVersion(c) && Reached(c, p)
    ensures var (after, entries) := ContainerStep(volume, c, a);
            && Reached(after, Advance(p, entries))
            && |entries| <= 1
            && (entries != [] ==> Justified(p, entries[0]))
  {
  }

  lemma InOrderSnoc(log: seq<Entry>, entries: seq<Entry>)
    requires InOrder(log) && |entries| <= 1
    requires entries != [] ==> Justified(ProgressOf(log), entries[0])
    ensures InOrder(log + entries) && ProgressOf(log + entries) == Advance(ProgressOf(log), entries)
  {
    var after := log + entries;
    assert after[..|log|] == log;
    forall i | 0 <= i < |log| ensures after[..i] == log[..i] && after[i] == log[i] {}
    assert entries == [] ==> after == log;
  }

  lemma CheckedKept(builds: Builds, volume: Volume, c: Container, a: Action, log: seq<Entry>)
    requires SameVersion(c) && Reached(c, ProgressOf(log))
    requires Checked(builds, volume, c.wrapper) && LaunchesChecked(builds, volume, log)
    ensures var (after, entries) := ContainerStep(volume, c, a);
            Checked(builds, volume, after.wrapper) && LaunchesChecked(builds, volume, log + entries)
  {
    var (after, entries) := ContainerStep(volume, c, a);
    ReachedKept(volume, c, a, ProgressOf(log));
    if entries != [] {
      assert entries == [entries[0]];
      assert entries[0].v in builds ==> entries[0].v in volume.complete;
    }
  }

  lemma WorldInvKept(builds: Builds, w: World, a: Action)
    requires WorldInv(builds, w)
    ensures WorldInv(builds, Next(builds, w, a))
  {
    if a.Sync? {
      StepKeeps(builds, w.sync, a.e);
    } else {
      SameVersionKept(w.sync.volume, w.container, a);
      ReachedKept(w.sync.volume, w.container, a, ProgressOf(w.log));
      InOrderSnoc(w.log, ContainerStep(w.sync.volume, w.container, a).1);
      CheckedKept(builds, w.sync.volume, w.container, a, w.log);
    }
  }

  lemma {:induction false} WorldInvAlways(builds: Builds, w: World, actions: seq<Action>)
    requires WorldInv(builds, w)
    ensures WorldInv(builds, RunWorld(builds, w, actions))
    decreases |actions|
  {
    if actions != [] {
      WorldInvKept(builds, w, actions[0]);
      WorldInvAlways(builds, Next(builds, w, actions[0]), actions[1..]);
    }
  }

  /** What uploaders and sidecar did in a run. */
  function SyncEvents(actions: seq<Action>): seq<Event> {
    if actions == [] then []
    else (if actions[0].Sync? then [actions[0].e] else []) + SyncEvents(actions[1..])
  }

  lemma {:induction false} SyncIsRun(builds: Builds, w: World, actions: seq<Action>)
    ensures RunWorld(builds, w, actions).sync == Run(builds, w.sync, SyncEvents(actions))
    decreases |actions|
  {
    if actions != [] {
      hide Step, ContainerStep;
      SyncIsRun(builds, Next(builds, w, actions[0]), actions[1..]);
      if actions[0].Sync? {
        assert SyncEvents(actions)[1..] == SyncEvents(actions[1..]);
      } else {
        assert SyncEvents(actions) == SyncEvents(actions[1..]);
      }
    }
  }

  // ---------------------------------------------------------------- which version is launched

  lemma {:induction false} RunWorldLast(builds: Builds, w: World, actions: seq<Action>)
    requires actions != []
    ensures var n := |actions| - 1;
            RunWorld(builds, w, actions) == Next(builds, RunWorld(builds, w, actions[..n]), actions[n])
    decreases |actions|
  {
    hide Next;
    var n := |actions| - 1;
    if n > 0 {
      RunWorldLast(builds, Next(builds, w, actions[0]), actions[1..]);
      assert actions[1..][..n - 1] == actions[..n][1..];
    } else {
      assert actions[..n] == [] && actions[1..] == [];
    }
  }

  /** GameLift starts a session whose `BuildVersion` property is `v`, or which has none when `v` is "default". */
  predicate AsksFor(a: Action, v: Version) {
    a.StartSession? && (a.property.Some? ==> v == a.property.value) && (a.property.None? ==> v == "default")
  }

  /** The `k`-th action started the session of the container that runs now, for version `v`. */
  ghost predicate SessionAt(builds: Builds, actions: seq<Action>, k: int, v: Version, written: bool) {
    && 0 <= k < |actions| && AsksFor(actions[k], v) && (written ==> actions[k].written)
    && RunWorld(builds, Start(), actions[..k]).container.sdk.Ready?
    && forall j | k <= j < |actions| :: !actions[j].Halt?
  }

  /** The session that runs now was started for `v`, and if `written` the version file with that. */
  ghost predicate SessionFor(builds: Builds, actions: seq<Action>, v: Version, written: bool) {
    exists k :: SessionAt(builds, actions, k, v, written)
  }

  lemma SessionGoesOn(builds: Builds, actions: seq<Action>, v: Version, written: bool)
    requires actions != [] && SessionFor(builds, actions[..|actions| - 1], v, written) && !actions[|actions| - 1].Halt?
    ensures SessionFor(builds, actions, v, written)
  {
    hide RunWorld, AsksFor;
    var before := actions[..|actions| - 1];
    var k :| SessionAt(builds, before, k, v, written);
    assert before[..k] == actions[..k];
    assert SessionAt(builds, actions, k, v, written);
  }

  lemma SessionStarts(builds: Builds, actions: seq<Action>, v: Version, written: bool)
    requires actions != [] && RunWorld(builds, Start(), actions[..|actions| - 1]).container.sdk.Ready?
    requires var a := actions[|actions| - 1]; AsksFor(a, v) && (written ==> a.written)
    ensures SessionFor(builds, actions, v, written)
  {
    hide RunWorld;
    assert SessionAt(builds, actions, |actions| - 1, v, written);
  }

  /** What the two processes know of a session comes from the action that started it. */
  ghost predicate SessionsKnown(builds: Builds, actions: seq<Action>, c: Container) {
    && (c.sdk.Waiting? || c.sdk.Active? ==> SessionFor(builds, actions, c.sdk.v, false))
    && (c.versionFile.Some? && !c.wrapper.Down? ==> SessionFor(builds, actions, c.versionFile.value, true))
  }

  /** What one action can make of that knowledge. */
  lemma SessionStep(volume: Volume, c: Container, a: Action)
    requires SameVersion(c)
    ensures var c' := ContainerStep(volume, c, a).0;
            && (c'.sdk.Waiting? || c'.sdk.Active? ==>
                  || (c.sdk.Ready? && AsksFor(a, c'.sdk.v))
                  || ((c.sdk.Waiting? || c.sdk.Active?) && c.sdk.v == c'.sdk.v && !a.Halt?))
            && (c'.versionFile.Some? && !c'.wrapper.Down? ==>
                  || (c.sdk.Ready? && AsksFor(a, c'.versionFile.value) && a.written)
                  || (c.versionFile == c'.versionFile && !c.wrapper.Down? && !a.Halt?))
  {
  }

  lemma {:induction false} SessionsAlways(builds: Builds, actions: seq<Action>)
    ensures SessionsKnown(builds, actions, RunWorld(builds, Start(), actions).container)
  {
    if actions != [] {
      var n := |actions| - 1;
      var w := RunWorld(builds, Start(), actions[..n]);
      RunWorldLast(builds, Start(), actions);
      SessionsAlways(builds, actions[..n]);
      StartInv(builds);
      WorldInvAlways(builds, Start(), actions[..n]);
      assert SameVersion(w.container);
      hide RunWorld, WorldInv, SessionFor, SameVersion;
      SessionStep(w.sync.volume, w.container, actions[n]);
      SessionsStep(builds, actions, w.container, Next(builds, w, actions[n]).container);
    }
  }

  lemma SessionsStep(builds: Builds, actions: seq<Action>, c: Container, c': Container)
    requires actions != [] && c == RunWorld(builds, Start(), actions[..|actions| - 1]).container
    requires SessionsKnown(builds, actions[..|actions| - 1], c)
    requires var a := actions[|actions| - 1];
             && (c'.sdk.Waiting? || c'.sdk.Active? ==>
                   || (c.sdk.Ready? && AsksFor(a, c'.sdk.v))
                   || ((c.sdk.Waiting? || c.sdk.Active?) && c.sdk.v == c'.sdk.v && !a.Halt?))
             && (c'.versionFile.Some? && !c'.wrapper.Down? ==>
                   || (c.sdk.Ready? && AsksFor(a, c'.versionFile.value) && a.written)
                   || (c.versionFile == c'.versionFile && !c.wrapper.Down? && !a.Halt?))
    ensures SessionsKnown(builds, actions, c')
  {
    hide RunWorld, SessionFor;
    var a := actions[|actions| - 1];
    if c'.sdk.Waiting? || c'.sdk.Active? {
      if c.sdk.Ready? && AsksFor(a, c'.sdk.v) {
        SessionStarts(builds, actions, c'.sdk.v, false);
      } else {
        SessionGoesOn(builds, actions, c'.sdk.v, false);
      }
    }
    if c'.versionFile.Some? && !c'.wrapper.Down? {
      if c.sdk.Ready? && AsksFor(a, c'.versionFile.value) && a.written {
        SessionStarts(builds, actions, c'.versionFile.value, true);
      } else {
        SessionGoesOn(builds, actions, c'.versionFile.value, true);
      }
    }
  }

  /** What is so when an entry is added to the log: a server is launched from a binary that is there and executable,
      seen alive when it is, and a session activated by the ticker. */
  predicate EntryIsTrue(volume: Volume, c: Container, a: Action, entry: Entry) {
    match entry
    case Launched(v) => a == Proceed(true) && Build(v, SERVER_BINARY) in volume.files
    case SeenAlive(v) => a.Proceed? && c.serverAlive
    case Activated(v) => a.Tick? && c.activateFile && c.sdk == Waiting(v)
  }

  lemma EntryAdded(volume: Volume, c: Container, a: Action, p: Progress)
    requires SameVersion(c) && Reached(c, p) && ContainerStep(volume, c, a).1 != []
    ensures var entry := ContainerStep(volume, c, a).1[0];
            && EntryIsTrue(volume, c, a, entry)
            && c.versionFile == Some(entry.v) && !c.wrapper.Down?
  {
  }

  /** The `j`-th action added the `i`-th entry, for the version for which the session of that moment was started. */
  ghost predicate AddedAt(builds: Builds, actions: seq<Action>, i: nat, entry: Entry, j: int) {
    && 0 <= j < |actions|
    && var w := RunWorld(builds, Start(), actions[..j]);
       && |w.log| == i && EntryIsTrue(w.sync.volume, w.container, actions[j], entry)
       && SessionFor(builds, actions[..j], entry.v, true)
  }

  ghost predicate WasAdded(builds: Builds, actions: seq<Action>, i: nat, entry: Entry) {
    exists j :: AddedAt(builds, actions, i, entry, j)
  }

  lemma WasAddedBefore(builds: Builds, actions: seq<Action>, i: nat, entry: Entry)
    requires actions != [] && WasAdded(builds, actions[..|actions| - 1], i, entry)
    ensures WasAdded(builds, actions, i, entry)
  {
    hide RunWorld, SessionFor, EntryIsTrue;
    var j :| AddedAt(builds, actions[..|actions| - 1], i, entry, j);
    assert actions[..|actions| - 1][..j] == actions[..j];
    assert AddedAt(builds, actions, i, entry, j);
  }

  lemma AddedNow(builds: Builds, actions: seq<Action>, entry: Entry)
    requires actions != []
    requires var w := RunWorld(builds, Start(), actions[..|actions| - 1]);
             && WorldInv(builds, w)
             && ContainerStep(w.sync.volume, w.container, actions[|actions| - 1]).1 == [entry]
    ensures WasAdded(builds, actions, |RunWorld(builds, Start(), actions[..|actions| - 1]).log|, entry)
  {
    var n := |actions| - 1;
    var w := RunWorld(builds, Start(), actions[..n]);
    SessionsAlways(builds, actions[..n]);
    EntryAdded(w.sync.volume, w.container, actions[n], ProgressOf(w.log));
    hide RunWorld, WorldInv, ContainerStep, EntryIsTrue, SessionFor;
    assert AddedAt(builds, actions, |w.log|, entry, n);
  }

  lemma {:induction false} EntriesWereAdded(builds: Builds, actions: seq<Action>, i: nat)
    requires i < |RunWorld(builds, Start(), actions).log|
    ensures WasAdded(builds, actions, i, RunWorld(builds, Start(), actions).log[i])
  {
    if actions == [] {
      assert false;
    } else {
      var n := |actions| - 1;
      var w := RunWorld(builds, Start(), actions[..n]);
      RunWorldLast(builds, Start(), actions);
      StartInv(builds);
      WorldInvAlways(builds, Start(), actions[..n]);
      AtMostOneEntry(builds, w, actions[n]);
      var after := RunWorld(builds, Start(), actions);
      assert after.log == w.log + ContainerStep(w.sync.volume, w.container, actions[n]).1;
      hide RunWorld, WorldInv, WasAdded, ContainerStep, Next, Start;
      if i < |w.log| {
        EntriesWereAdded(builds, actions[..n], i);
        WasAddedBefore(builds, actions, i, after.log[i]);
      } else {
        AddedNow(builds, actions, after.log[i]);
      }
    }
  }

  lemma AtMostOneEntry(builds: Builds, w: World, a: Action)
    requires WorldInv(builds, w)
    ensures var entries := ContainerStep(w.sync.volume, w.container, a).1;
            && Next(builds, w, a).log == w.log + entries && |entries| <= 1
            && (entries != [] ==> entries == [entries[0]])
  {
    ReachedKept(w.sync.volume, w.container, a, ProgressOf(w.log));
  }

  /** Over every run of the uploaders, the sidecar, the wrapper and the SDK wrapper together:
      `ActivateGameSession` is called only right after the server of the session's own version was launched
      and its process seen alive; every launch, sighting and activation is of the version that GameLift asked for
      when it started the session of that moment, "default" if it named none; and whatever was launched from a
      version that is uploaded once is marked, and the mark holds: it is a whole build, if it is plain or nothing
      was added behind a reading, and in any case its files that come after the marker are there. */
  lemma ActivatedOnWholeBuild(builds: Builds, actions: seq<Action>, i: nat)
    requires i < |RunWorld(builds, Start(), actions).log|
    ensures var w := RunWorld(builds, Start(), actions);
            var v := w.log[i].v;
            && (w.log[i].Activated? ==>
                  2 <= i && w.log[i - 1] == SeenAlive(v) && w.log[i - 2] == Launched(v))
            && WasAdded(builds, actions, i, w.log[i])
            && w.sync == Run(builds, Initial(), SyncEvents(actions))
            && (v in builds ==> v in w.sync.volume.complete && MarkHolds(builds, SyncEvents(actions), v))
  {
    StartInv(builds);
    WorldInvAlways(builds, Start(), actions);
    SyncIsRun(builds, Start(), actions);
    EntriesWereAdded(builds, actions, i);
    hide WorldInv, RunWorld, Run, MarkHolds, WasAdded;
    var w := RunWorld(builds, Start(), actions);
    EntryMeans(builds, w, i);
    if w.log[i].v in builds {
      MarkedHolds(builds, SyncEvents(actions), w.log[i].v);
    }
  }

  /** And at any time the version that the SDK wrapper waits for or has activated, and the one in the version file,
      is the one asked for. */
  lemma SessionVersionIs(builds: Builds, actions: seq<Action>)
    ensures var c := RunWorld(builds, Start(), actions).container;
            && (c.sdk.Waiting? || c.sdk.Active? ==> SessionFor(builds, actions, c.sdk.v, false))
            && (VersionOf(c.wrapper).Some? ==> SessionFor(builds, actions, VersionOf(c.wrapper).value, true))
  {
    SessionsAlways(builds, actions);
    StartInv(builds);
    WorldInvAlways(builds, Start(), actions);
    hide RunWorld, SessionFor, KeptInv, Reached, InOrder, Checked, LaunchesChecked;
  }

  lemma EntryMeans(builds: Builds, w: World, i: nat)
    requires WorldInv(builds, w) && i < |w.log|
    ensures var v := w.log[i].v;
            && (w.log[i].Activated? ==>
                  2 <= i && w.log[i - 1] == SeenAlive(v) && w.log[i - 2] == Launched(v))
            && (v in builds ==> v in w.sync.volume.complete)
  {
    hide KeptInv, SameVersion, Reached, Checked;
    assert Justified(ProgressOf(w.log[..i]), w.log[i]);
  }

  // ---------------------------------------------------------------- the polls end

  /** How many more steps the wrapper can take before it serves or ends. */
  function Budget(w: Wrapper): int {
    match w
    case WaitBinary(_, elapsed) => 22 + (TIMEOUT - elapsed) / INTERVAL
    case CheckBinary(_) => 21
    case WaitMarker(_, elapsed) => 5 + (TIMEOUT - elapsed) / INTERVAL
    case CheckMarker(_) => 4
    case CheckExecutable(_) => 3
    case Settling(_) => 2
    case Signalling(_) => 1
    case _ => 0
  }

  predicate PollsInBounds(w: Wrapper) {
    w.WaitBinary? || w.WaitMarker? ==> w.elapsed <= TIMEOUT && w.elapsed % INTERVAL == 0
  }

  lemma ProceedSpends(volume: Volume, c: Container, ok: bool)
    requires PollsInBounds(c.wrapper)
    ensures var after := ProceedWrapper(volume, c, ok).0.wrapper;
            && PollsInBounds(after)
            && (VersionOf(c.wrapper).Some? ==> 0 <= Budget(after) <= Budget(c.wrapper) <= 37)
            && (Budget(c.wrapper) > 0 ==> Budget(after) < Budget(c.wrapper))
            && (VersionOf(c.wrapper).Some? || c.wrapper.Ended? ==> VersionOf(after).Some? || after.Ended?)
  {
  }

  function Proceeds(actions: seq<Action>): nat {
    if actions == [] then 0 else (if actions[0].Proceed? then 1 else 0) + Proceeds(actions[1..])
  }

  /** Once the wrapper has read a version, 37 of its steps are enough for it to serve or to end, whatever
      the other processes do in between, unless the container is stopped. */
  lemma {:induction false} LaunchEnds(builds: Builds, w: World, actions: seq<Action>)
    requires VersionOf(w.container.wrapper).Some? || w.container.wrapper.Ended?
    requires PollsInBounds(w.container.wrapper)
    requires forall i | 0 <= i < |actions| :: !actions[i].Halt?
    requires Proceeds(actions) >= Budget(w.container.wrapper)
    ensures var after := RunWorld(builds, w, actions).container.wrapper; after.Serving? || after.Ended?
    ensures Budget(w.container.wrapper) <= 37
    decreases |actions|
  {
    if actions != [] {
      var a := actions[0];
      assert !a.Halt?;
      if a.Proceed? {
        ProceedSpends(w.sync.volume, w.container, a.ok);
      }
      LaunchEnds(builds, Next(builds, w, a), actions[1..]);
    }
  }

  // ---------------------------------------------------------------- what a launch comes to

  /** Where the wrapper is after `n` steps on a build that is all there. */
  function LaunchStage(v: Version, n: nat): Wrapper {
    match n
    case 0 => WaitBinary(v, 0)
    case 1 => CheckBinary(v)
    case 2 => WaitMarker(v, 0)
    case 3 => CheckMarker(v)
    case 4 => CheckExecutable(v)
    case 5 => Settling(v)
    case 6 => Signalling(v)
    case _ => Serving(v)
  }

  /** What there is of a version on the volume: the binary and the marker, or not the one or not the other. */
  datatype Contents = Whole | NoBinary | NoMarker

  predicate Holds(volume: Volume, v: Version, contents: Contents) {
    match contents
    case Whole => Build(v, SERVER_BINARY) in volume.files && v in volume.complete
    case NoBinary => Build(v, SERVER_BINARY) !in volume.files
    case NoMarker => v !in volume.complete
  }

  /** It is so before, between and after the actions of a run. */
  ghost predicate Throughout(builds: Builds, w: World, actions: seq<Action>, v: Version, contents: Contents)
    decreases |actions|
  {
    && Holds(w.sync.volume, v, contents)
    && (actions == [] || Throughout(builds, Next(builds, w, actions[0]), actions[1..], v, contents))
  }

  /** Nothing ends the container, the server or the SDK wrapper, the binary is executable and GameLift answers. */
  predicate Undisturbed(a: Action) {
    && !a.Halt? && !a.ServerDies? && !a.SdkExit?
    && (a.Proceed? ==> a.ok) && (a.Tick? ==> a.ok)
  }

  /** How far the launch is after `n` steps of the wrapper: the log since it began, and the session, which is
      active when the ticker came after the seventh step. */
  predicate LaunchedSoFar(c: Container, entries: seq<Entry>, v: Version, n: nat, ticked: bool) {
    && c.wrapper == LaunchStage(v, n)
    && c.sdk == (if ticked then Active(v) else Waiting(v))
    && c.activateFile == (n >= 7 && !ticked)
    && (n >= 5 ==> c.serverAlive)
    && entries == LaunchLog(v, n) + (if ticked then [Activated(v)] else [])
    && (ticked ==> n >= 7)
  }

  function LaunchLog(v: Version, n: nat): seq<Entry> {
    if n <= 4 then [] else if n == 5 then [Launched(v)] else [Launched(v), SeenAlive(v)]
  }

  function Upto7(n: nat): nat {
    if n < 7 then n else 7
  }

  lemma LaunchStep(volume: Volume, c: Container, entries: seq<Entry>, a: Action, v: Version, n: nat, ticked: bool)
    requires LaunchedSoFar(c, entries, v, Upto7(n), ticked) && Holds(volume, v, Whole) && Undisturbed(a)
    ensures var (c', more) := ContainerStep(volume, c, a);
            LaunchedSoFar(c', entries + more, v, Upto7(if a.Proceed? then n + 1 else n), ticked || (a.Tick? && n >= 7))
  {
  }

  lemma Regroup(a: seq<Entry>, b: seq<Entry>, c: seq<Entry>)
    ensures a + b + c == a + (b + c)
  {
  }

  /** Whether the ticker comes after `left` more steps of the wrapper. */
  predicate TicksAfter(actions: seq<Action>, left: int) {
    actions != [] &&
    ((actions[0].Tick? && left <= 0) || TicksAfter(actions[1..], if actions[0].Proceed? then left - 1 else left))
  }

  lemma {:induction false} LaunchProceeds(builds: Builds, w: World, actions: seq<Action>, log: seq<Entry>, entries: seq<Entry>,
                                          v: Version, n: nat, ticked: bool)
    requires w.log == log + entries && LaunchedSoFar(w.container, entries, v, Upto7(n), ticked)
    requires Throughout(builds, w, actions, v, Whole)
    requires forall i | 0 <= i < |actions| :: Undisturbed(actions[i])
    ensures var after := RunWorld(builds, w, actions);
            && log <= after.log
            && LaunchedSoFar(after.container, after.log[|log|..], v, Upto7(n + Proceeds(actions)),
                             ticked || TicksAfter(actions, 7 - n))
    decreases |actions|
  {
    if actions == [] {
      assert w.log[|log|..] == entries;
    } else {
      var a := actions[0];
      var more := ContainerStep(w.sync.volume, w.container, a).1;
      assert Undisturbed(a);
      LaunchStep(w.sync.volume, w.container, entries, a, v, n, ticked);
      assert a.Sync? ==> more == [] && ContainerStep(w.sync.volume, w.container, a).0 == w.container;
      hide ContainerStep, LaunchedSoFar, Undisturbed, Step;
      Regroup(log, entries, more);
      assert entries + [] == entries;
      LaunchProceeds(builds, Next(builds, w, a), actions[1..], log, entries + more, v, if a.Proceed? then n + 1 else n,
                     ticked || (a.Tick? && n >= 7));
    }
  }

  /** A build that is there, marked and executable, and stays there, is launched, seen alive and activated for
      its session, whatever uploaders and sidecar do in between: seven steps of the wrapper and then one of the
      ticker are what it takes, and nothing is activated before. */
  lemma WholeBuildIsActivated(builds: Builds, w: World, actions: seq<Action>, v: Version)
    requires w.container.wrapper == WaitBinary(v, 0) && w.container.sdk == Waiting(v) && !w.container.activateFile
    requires Throughout(builds, w, actions, v, Whole)
    requires forall i | 0 <= i < |actions| :: Undisturbed(actions[i])
    ensures var after := RunWorld(builds, w, actions);
            && after.log == w.log + LaunchLog(v, Upto7(Proceeds(actions))) +
                            (if TicksAfter(actions, 7) then [Activated(v)] else [])
            && after.container.wrapper == LaunchStage(v, Upto7(Proceeds(actions)))
            && after.container.sdk == (if TicksAfter(actions, 7) then Active(v) else Waiting(v))
  {
    assert w.log == w.log + [];
    LaunchProceeds(builds, w, actions, w.log, [], v, 0, false);
    var after := RunWorld(builds, w, actions);
    assert after.log == w.log + after.log[|w.log|..];
  }

  /** What is uploaded once stays there, so that this is so of every build that is marked when the wrapper
      begins, whatever else it ships, unless that is the marker's own name and the binary is not there yet. */
  lemma MarkedBuildIsActivated(builds: Builds, before: seq<Action>, actions: seq<Action>, v: Version)
    requires v in builds && SERVER_BINARY in builds[v]
    requires var w := RunWorld(builds, Start(), before);
             && w.container.wrapper == WaitBinary(v, 0) && w.container.sdk == Waiting(v) && v in w.sync.volume.complete
             && (ShipsMarker(builds, v) ==> Build(v, SERVER_BINARY) in w.sync.volume.files)
    requires forall i | 0 <= i < |actions| :: Undisturbed(actions[i])
    requires TicksAfter(actions, 7)
    ensures var w := RunWorld(builds, Start(), before);
            var after := RunWorld(builds, w, actions);
            && after.log == w.log + [Launched(v), SeenAlive(v), Activated(v)]
            && after.container.sdk == Active(v) && after.container.wrapper == Serving(v)
  {
    StartInv(builds);
    WorldInvAlways(builds, Start(), before);
    var w := RunWorld(builds, Start(), before);
    NotYetActivated(builds, w, v);
    hide RunWorld, WorldInv, Throughout, Start;
    BinaryIsThere(builds, before, v);
    MarkedStays(builds, w, actions, v);
    WholeBuildIsActivated(builds, w, actions, v);
    SevenBeforeTick(actions, 7);
  }

  lemma BinaryIsThere(builds: Builds, before: seq<Action>, v: Version)
    requires v in builds && SERVER_BINARY in builds[v]
    requires var volume := RunWorld(builds, Start(), before).sync.volume;
             v in volume.complete && (ShipsMarker(builds, v) ==> Build(v, SERVER_BINARY) in volume.files)
    ensures Build(v, SERVER_BINARY) in RunWorld(builds, Start(), before).sync.volume.files
  {
    SyncIsRun(builds, Start(), before);
    hide Run, RunWorld;
    if !ShipsMarker(builds, v) {
      assert !Excluded(Build(v, SERVER_BINARY)) && AfterMarker(SERVER_BINARY);
      MarkedHolds(builds, SyncEvents(before), v);
      assert FileHere(Run(builds, Initial(), SyncEvents(before)), v, SERVER_BINARY);
    }
  }

  lemma StartInv(builds: Builds)
    ensures WorldInv(builds, Start())
  {
  }

  lemma NotYetActivated(builds: Builds, w: World, v: Version)
    requires WorldInv(builds, w) && w.container.wrapper == WaitBinary(v, 0)
    ensures !w.container.activateFile
  {
    hide KeptInv;
  }

  lemma {:induction false} MarkedStays(builds: Builds, w: World, actions: seq<Action>, v: Version)
    requires WorldInv(builds, w) && v in builds
    requires v in w.sync.volume.complete && Build(v, SERVER_BINARY) in w.sync.volume.files
    ensures Throughout(builds, w, actions, v, Whole)
    decreases |actions|
  {
    if actions != [] {
      WorldInvKept(builds, w, actions[0]);
      if actions[0].Sync? {
        StepKeeps(builds, w.sync, actions[0].e);
        assert Protected(builds, Build(v, SERVER_BINARY));
      }
      MarkedStays(builds, Next(builds, w, actions[0]), actions[1..], v);
    }
  }

  lemma {:induction false} SevenBeforeTick(actions: seq<Action>, left: int)
    requires TicksAfter(actions, left)
    ensures Proceeds(actions) >= left
  {
    if !(actions[0].Tick? && left <= 0) {
      SevenBeforeTick(actions[1..], if actions[0].Proceed? then left - 1 else left);
    }
  }

  /** Once there is a version file the wrapper's next step takes its version up, also when the SDK wrapper has ended
      in the meantime. */
  lemma {:induction false} VersionIsTakenUp(builds: Builds, w: World, actions: seq<Action>, v: Version, ok: bool)
    requires w.container.wrapper.WaitVersion? && w.container.versionFile == Some(v) && !w.container.sdk.Ready?
    requires forall i | 0 <= i < |actions| :: !actions[i].Halt? && !actions[i].Proceed?
    ensures RunWorld(builds, w, actions + [Proceed(ok)]).container.wrapper == WaitBinary(v, 0)
    decreases |actions|
  {
    var all := actions + [Proceed(ok)];
    if actions == [] {
      assert RunWorld(builds, w, all) == RunWorld(builds, Next(builds, w, Proceed(ok)), []);
    } else {
      hide Step;
      assert !actions[0].Halt? && !actions[0].Proceed?;
      assert all[0] == actions[0] && all[1..] == actions[1..] + [Proceed(ok)];
      VersionIsTakenUp(builds, Next(builds, w, actions[0]), actions[1..], v, ok);
    }
  }

  // ---------------------------------------------------------------- how it ends

  /** The wrapper has nothing more to launch: its server has died, the check of the binary says no, or the SDK
      wrapper ended before there was a version. */
  predicate Doomed(c: Container, actions: seq<Action>) {
    || ((c.wrapper.Settling? || c.wrapper.Serving?) && !c.serverAlive)
    || (c.wrapper.CheckExecutable? && Proceed(true) !in actions)
    || (c.wrapper.WaitVersion? && c.versionFile.None? && c.sdk.Gone?)
  }

  lemma DoomedStep(builds: Builds, w: World, a: Action, actions: seq<Action>)
    requires Doomed(w.container, actions) && a in actions && !a.Halt?
    ensures var (c, c') := (w.container, Next(builds, w, a).container);
            && (if a.Proceed? then c'.wrapper == Ended && (c.wrapper.Serving? ==> !c'.activateFile)
                else c'.wrapper == c.wrapper && Doomed(c', actions))
            && w.log <= Next(builds, w, a).log
            && forall i | |w.log| <= i < |Next(builds, w, a).log| :: Next(builds, w, a).log[i].Activated?
  {
    hide Step;
    if a.Sync? {
      assert Next(builds, w, a).container == w.container;
    }
  }

  lemma {:induction false} EndedStays(builds: Builds, w: World, actions: seq<Action>)
    requires w.container.wrapper == Ended && forall i | 0 <= i < |actions| :: !actions[i].Halt?
    ensures var after := RunWorld(builds, w, actions);
            && after.container.wrapper == Ended && (!w.container.activateFile ==> !after.container.activateFile)
            && w.log <= after.log && forall i | |w.log| <= i < |after.log| :: after.log[i].Activated?
    decreases |actions|
  {
    if actions != [] {
      hide Step;
      assert !actions[0].Halt?;
      EndedStays(builds, Next(builds, w, actions[0]), actions[1..]);
    }
  }

  /** Then the wrapper's next step ends it, takes back the signal of a server that died, and launches nothing,
      whatever the others do before and after. */
  lemma {:induction false} DoomedEnds(builds: Builds, w: World, actions: seq<Action>)
    requires Doomed(w.container, actions) && forall i | 0 <= i < |actions| :: !actions[i].Halt?
    ensures var after := RunWorld(builds, w, actions);
            && after.container.wrapper == (if Proceeds(actions) == 0 then w.container.wrapper else Ended)
            && (w.container.wrapper.Serving? && Proceeds(actions) > 0 ==> !after.container.activateFile)
            && w.log <= after.log && forall i | |w.log| <= i < |after.log| :: after.log[i].Activated?
    decreases |actions|
  {
    if actions != [] {
      DoomedStep(builds, w, actions[0], actions);
      var w' := Next(builds, w, actions[0]);
      hide Next;
      if actions[0].Proceed? {
        EndedStays(builds, w', actions[1..]);
      } else {
        DoomedEnds(builds, w', actions[1..]);
      }
    }
  }

  lemma {:induction false} GoneStays(builds: Builds, w: World, actions: seq<Action>)
    requires w.container.sdk.Gone? && forall i | 0 <= i < |actions| :: !actions[i].Halt?
    requires w.container.wrapper != Down
    ensures var after := RunWorld(builds, w, actions);
            && after.container.sdk.Gone? && w.log <= after.log
            && forall i | |w.log| <= i < |after.log| :: !after.log[i].Activated?
    decreases |actions|
  {
    if actions != [] {
      hide Step;
      assert !actions[0].Halt?;
      GoneStays(builds, Next(builds, w, actions[0]), actions[1..]);
    }
  }

  /** An activation that GameLift refuses is the last one before the container starts again. */
  lemma RefusedIsLast(builds: Builds, w: World, actions: seq<Action>)
    requires w.container.sdk.Waiting? && w.container.activateFile && w.container.wrapper != Down
    requires forall i | 0 <= i < |actions| :: !actions[i].Halt?
    ensures var after := RunWorld(builds, w, [Tick(false)] + actions);
            && after.container.sdk.Gone? && w.log + [Activated(w.container.sdk.v)] <= after.log
            && forall i | |w.log| < i < |after.log| :: !after.log[i].Activated?
  {
    var next := Next(builds, w, Tick(false));
    assert next.log == w.log + [Activated(w.container.sdk.v)] && next.container.sdk.Gone?;
    assert ([Tick(false)] + actions)[1..] == actions;
    GoneStays(builds, next, actions);
  }

  /** Once the SDK wrapper has exited, nothing is activated before the container starts again. */
  lemma NothingAfterExit(builds: Builds, w: World, actions: seq<Action>)
    requires !w.container.sdk.Absent? && w.container.wrapper != Down
    requires forall i | 0 <= i < |actions| :: !actions[i].Halt?
    ensures var after := RunWorld(builds, w, [SdkExit] + actions);
            after.container.sdk.Gone? && w.log <= after.log && forall i | |w.log| <= i < |after.log| :: !after.log[i].Activated?
  {
    var next := Next(builds, w, SdkExit);
    assert next.log == w.log && next.container.sdk.Gone?;
    assert ([SdkExit] + actions)[1..] == actions;
    GoneStays(builds, next, actions);
  }

  /** A game server that dies, while the wrapper waits for it to settle or serves, ends the wrapper at its next step
      whenever that comes, and the signal is taken back. */
  lemma DeathEnds(builds: Builds, w: World, actions: seq<Action>)
    requires w.container.wrapper.Settling? || w.container.wrapper.Serving?
    requires forall i | 0 <= i < |actions| :: !actions[i].Halt?
    ensures var after := RunWorld(builds, w, [ServerDies] + actions);
            && after.container.wrapper == (if Proceeds(actions) == 0 then w.container.wrapper else Ended)
            && (w.container.wrapper.Serving? && Proceeds(actions) > 0 ==> !after.container.activateFile)
            && w.log <= after.log && forall i | |w.log| <= i < |after.log| :: after.log[i].Activated?
  {
    var next := Next(builds, w, ServerDies);
    assert next.log == w.log && Doomed(next.container, actions);
    assert ([ServerDies] + actions)[1..] == actions;
    DoomedEnds(builds, next, actions);
  }

  /** The server is looked at once: if it dies right after that, the wrapper signals all the same and the session is
      activated on a server that is no more. */
  lemma DeadServerIsActivated(builds: Builds, w: World, v: Version, ok: bool)
    requires w.container.wrapper == Signalling(v) && w.container.sdk == Waiting(v)
    ensures var after := RunWorld(builds, w, [ServerDies, Proceed(ok), Tick(true)]);
            && after.log == w.log + [Activated(v)] && after.container.sdk == Active(v)
            && after.container.wrapper == Serving(v) && !after.container.serverAlive
  {
    hide Step;
    var (died, signalled) := (Next(builds, w, ServerDies), Next(builds, Next(builds, w, ServerDies), Proceed(ok)));
    assert RunWorld(builds, signalled, [Tick(true)]) == Next(builds, signalled, Tick(true)) by {
      assert [Tick(true)][1..] == [];
    }
    assert [Proceed(ok), Tick(true)][1..] == [Tick(true)];
    assert RunWorld(builds, died, [Proceed(ok), Tick(true)]) == RunWorld(builds, signalled, [Tick(true)]);
    assert [ServerDies, Proceed(ok), Tick(true)][1..] == [Proceed(ok), Tick(true)];
  }

  // ---------------------------------------------------------------- what is missing

  /** Where a poll is after `n` steps of the wrapper when what it looks for is not there. */
  function BinaryPoll(v: Version, n: nat): Wrapper {
    if n <= 15 then WaitBinary(v, 2 * n) else if n == 16 then CheckBinary(v) else Ended
  }

  function MarkerPoll(v: Version, n: nat): Wrapper {
    if n <= 15 then WaitMarker(v, 2 * n) else if n == 16 then CheckMarker(v) else Ended
  }

  lemma {:induction false} BinaryPollGoesOn(builds: Builds, w: World, actions: seq<Action>, v: Version, n: nat)
    requires w.container.wrapper == BinaryPoll(v, n) && !w.container.activateFile
    requires Throughout(builds, w, actions, v, NoBinary)
    requires forall i | 0 <= i < |actions| :: !actions[i].Halt?
    ensures var after := RunWorld(builds, w, actions);
            after.log == w.log && after.container.wrapper == BinaryPoll(v, n + Proceeds(actions))
    decreases |actions|
  {
    if actions != [] {
      assert !actions[0].Halt?;
      assert w.log + [] == w.log;
      BinaryPollGoesOn(builds, Next(builds, w, actions[0]), actions[1..], v, if actions[0].Proceed? then n + 1 else n);
    }
  }

  lemma {:induction false} MarkerPollGoesOn(builds: Builds, w: World, actions: seq<Action>, v: Version, n: nat)
    requires w.container.wrapper == MarkerPoll(v, n) && !w.container.activateFile
    requires Throughout(builds, w, actions, v, NoMarker)
    requires forall i | 0 <= i < |actions| :: !actions[i].Halt?
    ensures var after := RunWorld(builds, w, actions);
            after.log == w.log && after.container.wrapper == MarkerPoll(v, n + Proceeds(actions))
    decreases |actions|
  {
    if actions != [] {
      assert !actions[0].Halt?;
      assert w.log + [] == w.log;
      MarkerPollGoesOn(builds, Next(builds, w, actions[0]), actions[1..], v, if actions[0].Proceed? then n + 1 else n);
    }
  }

  /** While the binary is missing, whatever the other processes do: the wrapper waits two seconds at a time,
      thirty in all, then looks once more and gives up; nothing is launched or activated. */
  lemma MissingBinary(builds: Builds, w: World, actions: seq<Action>, v: Version)
    requires w.container.wrapper == WaitBinary(v, 0) && !w.container.activateFile
    requires Throughout(builds, w, actions, v, NoBinary)
    requires forall i | 0 <= i < |actions| :: !actions[i].Halt?
    ensures var after := RunWorld(builds, w, actions);
            after.log == w.log && after.container.wrapper == BinaryPoll(v, Proceeds(actions))
  {
    BinaryPollGoesOn(builds, w, actions, v, 0);
  }

  /** The same holds of a build without its marker, however whole it is. */
  lemma MissingMarker(builds: Builds, w: World, actions: seq<Action>, v: Version)
    requires w.container.wrapper == WaitMarker(v, 0) && !w.container.activateFile
    requires Throughout(builds, w, actions, v, NoMarker)
    requires forall i | 0 <= i < |actions| :: !actions[i].Halt?
    ensures var after := RunWorld(builds, w, actions);
            after.log == w.log && after.container.wrapper == MarkerPoll(v, Proceeds(actions))
  {
    MarkerPollGoesOn(builds, w, actions, v, 0);
  }
}
