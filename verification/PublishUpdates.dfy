/** When an announced build arrives.  The sidecar remembers an update marker's ETag before it lists the
    bucket, so a sync never misses a build announced before it; it is marked exactly when a sync since its
    upload succeeded with a change.  An upload has finished when its upload marker is in the bucket. */
module PublishUpdates {
  import opened Text
  import opened Keys
  import opened Publish
  import opened PublishFiles

  /** Versions whose upload had finished when the marker that the sidecar last acted on was written. */
  predicate Owed(bucket: Bucket, volume: Volume, v: Version) {
    volume.stored.Some? && volume.stored.value in bucket.covered && v in bucket.covered[volume.stored.value]
  }

  predicate AllOwed(builds: Builds, s: State, vs: set<Version>) {
    s.distinct ==> forall v | v in builds && Owed(s.bucket, s.volume, v) :: v in vs
  }

  predicate OwedHere(builds: Builds, s: State, keys: set<Key>, c: Cursor) {
    s.distinct ==>
      forall v | v in builds && Owed(s.bucket, s.volume, v) :: UploadMarker(v) in keys || Ahead(UploadMarker(v), c)
  }

  predicate PromiseInv(builds: Builds, s: State) {
    match s.sidecar
    case Idle => s.settled ==> AllMarked(builds, s.volume) && AllOwed(builds, s, s.volume.complete)
    case Syncing(cursor, todo, _, changed) =>
      && (s.settled && !changed ==> AllMarked(builds, s.volume))
      && OwedHere(builds, s, s.volume.files.Keys + todo, cursor)
    case Marking(dirs) =>
      && (forall v | v in builds && UploadMarker(v) in s.volume.files :: v in s.volume.complete + dirs)
      && OwedHere(builds, s, s.volume.files.Keys, End)
    case _ => s.settled ==> AllMarked(builds, s.volume)
  }

  // ---------------------------------------------------------------- one step

  lemma BucketStepPromise(builds: Builds, s: State, e: Event)
    requires KeptInv(builds, s) && PromiseInv(builds, s)
    requires Enabled(builds, s, e) && !BySidecar(e)
    ensures PromiseInv(builds, BucketStep(s, e))
  {
    var after := BucketStep(s, e);
    forall v | after.distinct && Owed(after.bucket, after.volume, v) ensures s.distinct && Owed(s.bucket, s.volume, v) {}
  }

  lemma PrunePromise(builds: Builds, s: State, v: Version)
    requires KeptInv(builds, s) && PromiseInv(builds, s) && Enabled(builds, s, PruneNext(v))
    ensures PromiseInv(builds, SidecarStep(builds, s, PruneNext(v)))
  {
  }

  /** Where the listings are read past a marker that is in the bucket, it is found. */
  lemma MarkerIsFound(builds: Builds, s: State, e: Event, v: Version)
    requires s.sidecar.Syncing? && Enabled(builds, s, e) && (e.Look? || e.LookEnd?) && HasUploadMarker(s.bucket, v)
    requires UploadMarker(v) in s.volume.files.Keys + s.sidecar.todo || Ahead(UploadMarker(v), s.sidecar.cursor)
    ensures var s' := SidecarStep(builds, s, e);
            && s'.volume == s.volume && s'.sidecar.Syncing?
            && (UploadMarker(v) in s.volume.files.Keys + s'.sidecar.todo || Ahead(UploadMarker(v), s'.sidecar.cursor))
  {
    assert !Excluded(UploadMarker(v));
    assert UploadMarker(v) in Seen(s.bucket, s.volume);
  }

  lemma LookPromise(builds: Builds, s: State, e: Event)
    requires KeptInv(builds, s) && PromiseInv(builds, s) && Enabled(builds, s, e) && (e.Look? || e.LookEnd?)
    ensures PromiseInv(builds, SidecarStep(builds, s, e))
  {
    var s' := SidecarStep(builds, s, e);
    forall v | s.distinct && v in builds && Owed(s.bucket, s.volume, v)
      ensures UploadMarker(v) in s.volume.files.Keys + s'.sidecar.todo || Ahead(UploadMarker(v), s'.sidecar.cursor)
    {
      assert HasUploadMarker(s.bucket, v);
      MarkerIsFound(builds, s, e, v);
    }
  }

  lemma CopyPromise(builds: Builds, s: State, e: Event)
    requires KeptInv(builds, s) && PromiseInv(builds, s)
    requires Enabled(builds, s, e) && (e.Download? || e.Discard?)
    ensures PromiseInv(builds, SidecarStep(builds, s, e))
  {
    var after := SidecarStep(builds, s, e);
    forall v | v in builds && UploadMarker(v) in s.volume.files.Keys + s.sidecar.todo
      ensures UploadMarker(v) in after.volume.files.Keys + after.sidecar.todo
    {
      assert Protected(builds, UploadMarker(v));
    }
  }

  lemma SyncEndPromise(builds: Builds, s: State)
    requires KeptInv(builds, s) && PromiseInv(builds, s) && Enabled(builds, s, SyncEnd)
    ensures PromiseInv(builds, SidecarStep(builds, s, SyncEnd))
  {
    assert s.volume.files.Keys + s.sidecar.todo == s.volume.files.Keys;
    forall v | UploadMarker(v) in s.volume.files ensures v in Present(s.volume) {
      assert UploadMarker(v).version in Directories(s.volume.files);
    }
  }

  lemma SidecarStepPromise(builds: Builds, s: State, e: Event)
    requires KeptInv(builds, s) && PromiseInv(builds, s)
    requires Enabled(builds, s, e) && BySidecar(e)
    ensures PromiseInv(builds, SidecarStep(builds, s, e))
  {
    match e
    case PruneNext(v) => PrunePromise(builds, s, v);
    case Look(_) => LookPromise(builds, s, e);
    case LookEnd => LookPromise(builds, s, e);
    case Download(_) => CopyPromise(builds, s, e);
    case Discard(_) => CopyPromise(builds, s, e);
    case SyncEnd => SyncEndPromise(builds, s);
    case _ =>
  }

  lemma {:induction false} PromiseAlways(builds: Builds, s: State, events: seq<Event>)
    requires KeptInv(builds, s) && PromiseInv(builds, s)
    ensures KeptInv(builds, Run(builds, s, events)) && PromiseInv(builds, Run(builds, s, events))
    decreases |events|
  {
    if events != [] {
      var e := events[0];
      StepKeeps(builds, s, e);
      if Enabled(builds, s, e) {
        if BySidecar(e) {
          SidecarStepPromise(builds, s, e);
        } else {
          BucketStepPromise(builds, s, e);
        }
      }
      PromiseAlways(builds, Step(builds, s, e), events[1..]);
    }
  }

  // ---------------------------------------------------------------- no lost update

  lemma {:induction false} CoveredStays(builds: Builds, s: State, events: seq<Event>, e: Etag)
    requires e in s.bucket.covered && Run(builds, s, events).distinct
    ensures s.distinct
    ensures e in Run(builds, s, events).bucket.covered
    ensures Run(builds, s, events).bucket.covered[e] == s.bucket.covered[e]
    decreases |events|
  {
    if events != [] {
      CoveredStep(builds, s, events[0], e);
      hide Step;
      CoveredStays(builds, Step(builds, s, events[0]), events[1..], e);
    }
  }

  lemma CoveredStep(builds: Builds, s: State, ev: Event, e: Etag)
    requires e in s.bucket.covered
    ensures var s' := Step(builds, s, ev);
            && (s'.distinct ==> s.distinct && s'.bucket.covered[e] == s.bucket.covered[e])
            && e in s'.bucket.covered
  {
    hide Enabled, Missing, Leftover, AllMarked;
  }

  predicate WritesMarker(ev: Event, e: Etag) {
    (ev.PutUpdateMarker? || ev.OtherUpdateMarker?) && ev.e == e
  }

  /** Whenever the sidecar is idle and the last ETag it acted on is `e`, every version whose upload had
      finished when the marker with that ETag was written is marked, and the mark holds, provided no ETag was
      ever reused and no sync failure or restart has left builds stranded. */
  lemma {:induction false} NoLostUpdate(builds: Builds, before: seq<Event>, announce: Event, e: Etag,
                                        later: seq<Event>, v: Version)
    requires v in builds
    requires WritesMarker(announce, e) && Enabled(builds, Run(builds, Initial(), before), announce)
    requires HasUploadMarker(Run(builds, Initial(), before).bucket, v)
    requires var s := Run(builds, Initial(), before + [announce] + later);
             s.distinct && s.settled && s.sidecar.Idle? && s.volume.stored == Some(e)
    ensures v in Run(builds, Initial(), before + [announce] + later).volume.complete
    ensures MarkHolds(builds, before + [announce] + later, v)
  {
    var s0 := Run(builds, Initial(), before);
    var s1 := Step(builds, s0, announce);
    var s := Run(builds, s1, later);
    InitialSafe(builds);
    CoveredWhenWritten(builds, before, announce, e, v);
    hide Run, Step, Enabled, KeptInv, PromiseInv, MarkHolds;
    RunSplit(builds, Initial(), before + [announce], later);
    RunSplit(builds, Initial(), before, [announce]);
    One(builds, s0, announce);
    CoveredStays(builds, s1, later, e);
    PromiseAlways(builds, Initial(), before + [announce] + later);
    OwedIsMarked(builds, s, v);
    MarkedHolds(builds, before + [announce] + later, v);
  }

  lemma CoveredWhenWritten(builds: Builds, before: seq<Event>, announce: Event, e: Etag, v: Version)
    requires v in builds
    requires WritesMarker(announce, e) && Enabled(builds, Run(builds, Initial(), before), announce)
    requires HasUploadMarker(Run(builds, Initial(), before).bucket, v)
    ensures var s1 := Step(builds, Run(builds, Initial(), before), announce);
            e in s1.bucket.covered && v in s1.bucket.covered[e]
  {
    InitialSafe(builds);
    KeptAlways(builds, Initial(), before);
    hide Run;
  }

  lemma OwedIsMarked(builds: Builds, s: State, v: Version)
    requires PromiseInv(builds, s) && s.distinct && s.settled && s.sidecar.Idle?
    requires v in builds && Owed(s.bucket, s.volume, v)
    ensures v in s.volume.complete
  {
  }

  lemma InitialSafe(builds: Builds)
    ensures KeptInv(builds, Initial()) && PromiseInv(builds, Initial())
  {
  }

  /** Every sync succeeds, nothing restarts, and no listing fails except before the first marker was seen. */
  predicate AllSucceed(builds: Builds, s: State, events: seq<Event>)
    decreases |events|
  {
    events == [] ||
    (&& !events[0].SyncFail?
     && !events[0].Restart?
     && (events[0] == List(false) ==> s.volume.stored.None?)
     && AllSucceed(builds, Step(builds, s, events[0]), events[1..]))
  }

  predicate Announces(e: Event) {
    e.PutUpdateMarker? || e.OtherUpdateMarker?
  }

  predicate FreshEtags(events: seq<Event>) {
    forall i, j | 0 <= i < j < |events| && Announces(events[i]) && Announces(events[j]) :: events[i].e != events[j].e
  }

  predicate NotYetUsed(bucket: Bucket, events: seq<Event>) {
    forall i | 0 <= i < |events| && Announces(events[i]) :: events[i].e !in bucket.covered
  }

  /** When all syncs succeed and each marker value is new, the two conditions of `NoLostUpdate` hold. */
  lemma {:induction false} SuccessSettles(builds: Builds, s: State, events: seq<Event>)
    requires s.settled && s.distinct
    requires AllSucceed(builds, s, events)
    requires FreshEtags(events) && NotYetUsed(s.bucket, events)
    ensures Run(builds, s, events).settled && Run(builds, s, events).distinct
    decreases |events|
  {
    if events != [] {
      var after := Step(builds, s, events[0]);
      assert after.bucket.covered.Keys <= s.bucket.covered.Keys +
             (if Announces(events[0]) then {events[0].e} else {});
      forall i | 0 <= i < |events[1..]| && Announces(events[1..][i]) ensures events[1..][i].e !in after.bucket.covered {
        assert events[1..][i] == events[i + 1];
      }
      SuccessSettles(builds, after, events[1..]);
    }
  }

  /** With uploads, successful syncs and new marker values only: whenever the sidecar is idle and the last
      ETag it acted on is `e`, every version whose upload had finished when the marker with that ETag was
      written is marked, and the mark holds. */
  lemma UploadsArrive(builds: Builds, before: seq<Event>, announce: Event, e: Etag, later: seq<Event>, v: Version)
    requires v in builds
    requires AllSucceed(builds, Initial(), before + [announce] + later) && FreshEtags(before + [announce] + later)
    requires WritesMarker(announce, e) && Enabled(builds, Run(builds, Initial(), before), announce)
    requires HasUploadMarker(Run(builds, Initial(), before).bucket, v)
    requires var s := Run(builds, Initial(), before + [announce] + later);
             s.sidecar.Idle? && s.volume.stored == Some(e)
    ensures v in Run(builds, Initial(), before + [announce] + later).volume.complete
    ensures MarkHolds(builds, before + [announce] + later, v)
  {
    SuccessSettles(builds, Initial(), before + [announce] + later);
    hide Run, AllSucceed, FreshEtags, MarkHolds;
    NoLostUpdate(builds, before, announce, e, later, v);
  }

  /** A run is its prefix and one more step. */
  lemma RunLast(builds: Builds, s: State, events: seq<Event>)
    requires events != []
    ensures var n := |events| - 1;
            Run(builds, s, events) == Step(builds, Run(builds, s, events[..n]), events[n])
  {
    var n := |events| - 1;
    assert events == events[..n] + [events[n]];
    RunSplit(builds, s, events[..n], [events[n]]);
    One(builds, Run(builds, s, events[..n]), events[n]);
  }

  // ---------------------------------------------------------------- exactly when a build arrives

  /** The `k`-th event marks `v`: a marking pass comes to its directory and finds the upload marker there. */
  ghost predicate MarkedBy(builds: Builds, s: State, events: seq<Event>, k: int, v: Version) {
    && 0 <= k < |events| && events[k] == MarkNext(v)
    && Enabled(builds, Run(builds, s, events[..k]), events[k])
    && UploadMarker(v) in Run(builds, s, events[..k]).volume.files
  }

  /** Only a marking pass that comes to the version's directory marks it, and it does so if it finds the marker. */
  lemma OnlyMarkNextMarks(builds: Builds, s: State, e: Event, v: Version)
    requires Enabled(builds, s, e)
    ensures e != MarkNext(v) ==> (v in Step(builds, s, e).volume.complete ==> v in s.volume.complete)
    ensures e == MarkNext(v) ==>
              (v in Step(builds, s, e).volume.complete <==> UploadMarker(v) in s.volume.files)
  {
    hide Enabled, NextPlace, NothingAhead, Missing, Leftover;
  }

  lemma MarkedByStep(builds: Builds, s: State, e: Event, v: Version)
    requires KeptInv(builds, s) && v in builds
    ensures v in Step(builds, s, e).volume.complete <==>
            || v in s.volume.complete
            || (e == MarkNext(v) && Enabled(builds, s, e) && UploadMarker(v) in s.volume.files)
  {
    StepKeeps(builds, s, e);
    if Enabled(builds, s, e) {
      OnlyMarkNextMarks(builds, s, e, v);
    }
    hide KeptInv, Step, Enabled;
  }

  ghost predicate SomeMark(builds: Builds, s: State, events: seq<Event>, v: Version) {
    exists k :: MarkedBy(builds, s, events, k, v)
  }

  lemma MarksOfPrefix(builds: Builds, s: State, events: seq<Event>, v: Version)
    requires events != []
    ensures var n := |events| - 1;
            SomeMark(builds, s, events, v) <==> SomeMark(builds, s, events[..n], v) || MarkedBy(builds, s, events, n, v)
  {
    var n := |events| - 1;
    forall k | 0 <= k < n ensures MarkedBy(builds, s, events, k, v) <==> MarkedBy(builds, s, events[..n], k, v) {
      assert events[..n][..k] == events[..k];
    }
    hide Run, Enabled;
  }

  /** In every run, a version that is uploaded once is marked exactly when it was at first, or when some
      marking pass reached it with its upload marker there; it is lost exactly when none did. */
  lemma {:induction false} CompleteExactlyWhenMarked(builds: Builds, s: State, events: seq<Event>, v: Version)
    requires KeptInv(builds, s) && v in builds
    ensures v in Run(builds, s, events).volume.complete <==>
            v in s.volume.complete || SomeMark(builds, s, events, v)
    decreases |events|
  {
    if events != [] {
      hide Step, Enabled, KeptInv, SomeMark;
      var n := |events| - 1;
      CompleteExactlyWhenMarked(builds, s, events[..n], v);
      KeptAlways(builds, s, events[..n]);
      RunLast(builds, s, events);
      MarkedByStep(builds, Run(builds, s, events[..n]), events[n], v);
      MarksOfPrefix(builds, s, events, v);
    } else {
      NoMarkYet(builds, s, v);
    }
  }

  lemma NoMarkYet(builds: Builds, s: State, v: Version)
    ensures !SomeMark(builds, s, [], v)
  {
  }

  /** Between two syncs. */
  predicate AtRest(sidecar: Sidecar) {
    sidecar.Idle? || sidecar.Listing?
  }

  /** The `k`-th event ends a sync that succeeded with a change, and its marking pass. */
  ghost predicate ChangedBy(builds: Builds, s: State, events: seq<Event>, k: int) {
    0 <= k < |events| && events[k] == MarkEnd && Enabled(builds, Run(builds, s, events[..k]), events[k])
  }

  ghost predicate SomeChange(builds: Builds, s: State, events: seq<Event>) {
    exists k :: ChangedBy(builds, s, events, k)
  }

  /** How far version `v` has got, when its upload had finished before the present sync: it is `marked` or
      not when the sync starts, on its way while it copies, and in the marking pass's path after that. */
  predicate OnItsWay(bucket: Bucket, volume: Volume, sidecar: Sidecar, v: Version, marked: bool) {
    HasUploadMarker(bucket, v) &&
    match sidecar
    case Syncing(cursor, todo, _, _) =>
      && (UploadMarker(v) in volume.files.Keys + todo || Ahead(UploadMarker(v), cursor))
      && (v in volume.complete <==> marked)
    case Marking(dirs) =>
      UploadMarker(v) in volume.files && (marked ==> v in volume.complete) && (v in volume.complete || v in dirs)
    case _ => v in volume.complete <==> marked
  }

  lemma CopyOnItsWay(builds: Builds, s: State, e: Event, v: Version, marked: bool)
    requires KeptInv(builds, s) && v in builds && Enabled(builds, s, e) && BySidecar(e)
    requires e.Look? || e.LookEnd? || e.Download? || e.Discard? || e.SyncEnd?
    requires OnItsWay(s.bucket, s.volume, s.sidecar, v, marked)
    ensures var s' := SidecarStep(builds, s, e); OnItsWay(s'.bucket, s'.volume, s'.sidecar, v, marked)
  {
    assert Protected(builds, UploadMarker(v)) && !Excluded(UploadMarker(v));
    if e.Look? || e.LookEnd? {
      MarkerIsFound(builds, s, e, v);
    }
    assert UploadMarker(v) in s.volume.files ==> UploadMarker(v).version in Directories(s.volume.files);
  }

  lemma SidecarOnItsWay(builds: Builds, s: State, e: Event, v: Version, marked: bool)
    requires KeptInv(builds, s) && v in builds && Enabled(builds, s, e) && BySidecar(e) && !e.Restart?
    requires OnItsWay(s.bucket, s.volume, s.sidecar, v, marked)
    ensures var s' := SidecarStep(builds, s, e);
            OnItsWay(s'.bucket, s'.volume, s'.sidecar, v, marked || e.MarkEnd?)
  {
    if e.Look? || e.LookEnd? || e.Download? || e.Discard? || e.SyncEnd? {
      CopyOnItsWay(builds, s, e, v, marked);
    } else {
      assert Protected(builds, UploadMarker(v));
      SidecarStepKeeps(builds, s, e);
    }
  }

  lemma StepOnItsWay(builds: Builds, s: State, e: Event, v: Version, marked: bool)
    requires KeptInv(builds, s) && v in builds && !e.Restart?
    requires OnItsWay(s.bucket, s.volume, s.sidecar, v, marked)
    ensures var s' := Step(builds, s, e);
            OnItsWay(s'.bucket, s'.volume, s'.sidecar, v, marked || (e == MarkEnd && Enabled(builds, s, e)))
  {
    if Enabled(builds, s, e) {
      if BySidecar(e) {
        SidecarOnItsWay(builds, s, e, v, marked);
      } else {
        BucketStepGrows(builds, s, e);
        assert Protected(builds, UploadMarker(v));
      }
    }
  }

  lemma {:induction false} RunOnItsWay(builds: Builds, s: State, events: seq<Event>, v: Version)
    requires KeptInv(builds, s) && v in builds
    requires AtRest(s.sidecar) && HasUploadMarker(s.bucket, v) && forall i | 0 <= i < |events| :: !events[i].Restart?
    ensures var s' := Run(builds, s, events);
            OnItsWay(s'.bucket, s'.volume, s'.sidecar, v, v in s.volume.complete || SomeChange(builds, s, events))
    decreases |events|
  {
    hide Step, Enabled, KeptInv, OnItsWay, SomeChange;
    if events == [] {
      NoChangeYet(builds, s);
      AtRestOnItsWay(s, v);
    } else {
      var n := |events| - 1;
      RunOnItsWay(builds, s, events[..n], v);
      KeptAlways(builds, s, events[..n]);
      RunLast(builds, s, events);
      OnItsWayNext(builds, s, events, v);
    }
  }

  lemma AtRestOnItsWay(s: State, v: Version)
    requires AtRest(s.sidecar) && HasUploadMarker(s.bucket, v)
    ensures OnItsWay(s.bucket, s.volume, s.sidecar, v, v in s.volume.complete)
  {
  }

  lemma OnItsWayNext(builds: Builds, s: State, events: seq<Event>, v: Version)
    requires events != [] && !events[|events| - 1].Restart?
    requires var t := Run(builds, s, events[..|events| - 1]);
             && KeptInv(builds, t) && v in builds
             && OnItsWay(t.bucket, t.volume, t.sidecar, v, v in s.volume.complete || SomeChange(builds, s, events[..|events| - 1]))
    ensures var s' := Step(builds, Run(builds, s, events[..|events| - 1]), events[|events| - 1]);
            OnItsWay(s'.bucket, s'.volume, s'.sidecar, v, v in s.volume.complete || SomeChange(builds, s, events))
  {
    hide Run, Step, Enabled, KeptInv, OnItsWay, SomeChange;
    var n := |events| - 1;
    ChangesOfPrefix(builds, s, events);
    StepOnItsWay(builds, Run(builds, s, events[..n]), events[n], v, v in s.volume.complete || SomeChange(builds, s, events[..n]));
  }

  lemma ChangesOfPrefix(builds: Builds, s: State, events: seq<Event>)
    requires events != []
    ensures var n := |events| - 1;
            SomeChange(builds, s, events) <==>
            SomeChange(builds, s, events[..n]) || (events[n] == MarkEnd && Enabled(builds, Run(builds, s, events[..n]), events[n]))
  {
    var n := |events| - 1;
    forall k | 0 <= k < n ensures ChangedBy(builds, s, events, k) <==> ChangedBy(builds, s, events[..n], k) {
      assert events[..n][..k] == events[..k];
    }
    hide Run, Enabled;
    assert ChangedBy(builds, s, events, n) <==> events[n] == MarkEnd && Enabled(builds, Run(builds, s, events[..n]), events[n]);
  }

  lemma NoChangeYet(builds: Builds, s: State)
    ensures !SomeChange(builds, s, [])
  {
  }

  /** From any moment between two syncs at which the upload of `v` has finished, and without a restart: when
      the sidecar is next idle, or idle again much later, `v` is marked exactly when it was already or some
      sync since has succeeded with a change.  An announced build is lost exactly when every sync since its
      upload has failed or found nothing to do. */
  lemma ArrivesExactlyWhen(builds: Builds, before: seq<Event>, events: seq<Event>, v: Version)
    requires v in builds
    requires var s := Run(builds, Initial(), before); AtRest(s.sidecar) && HasUploadMarker(s.bucket, v)
    requires forall i | 0 <= i < |events| :: !events[i].Restart?
    requires Run(builds, Run(builds, Initial(), before), events).sidecar.Idle?
    ensures var s := Run(builds, Initial(), before);
            v in Run(builds, s, events).volume.complete <==>
            v in s.volume.complete || SomeChange(builds, s, events)
  {
    InitialSafe(builds);
    hide Run, KeptInv, SomeChange;
    KeptAlways(builds, Initial(), before);
    RunOnItsWay(builds, Run(builds, Initial(), before), events, v);
  }

  /** In particular for what an update marker announced: after the poll that acts on the marker's ETag, and
      without a restart, a version that the marker covered is marked exactly when it was already or some sync
      from then on has succeeded with a change. */
  lemma OwedArrivesExactlyWhen(builds: Builds, before: seq<Event>, e: Etag, later: seq<Event>, v: Version)
    requires v in builds
    requires var t := Run(builds, Initial(), before);
             && t.sidecar.Idle? && NewEtag(t.bucket, t.volume) == Some(e)
             && e in t.bucket.covered && v in t.bucket.covered[e]
    requires forall i | 0 <= i < |later| :: !later[i].Restart?
    requires Run(builds, Run(builds, Initial(), before + [Poll]), later).sidecar.Idle?
    ensures var s := Run(builds, Initial(), before + [Poll]);
            && s.volume.stored == Some(e)
            && (v in Run(builds, s, later).volume.complete <==>
                v in s.volume.complete || SomeChange(builds, s, later))
  {
    PollActs(builds, before, e, v);
    hide Run, SomeChange;
    ArrivesExactlyWhen(builds, before + [Poll], later, v);
  }

  lemma PollActsNow(builds: Builds, t: State, e: Etag, v: Version)
    requires KeptInv(builds, t) && v in builds && t.sidecar.Idle? && NewEtag(t.bucket, t.volume) == Some(e)
    requires e in t.bucket.covered && v in t.bucket.covered[e]
    ensures var s := Step(builds, t, Poll);
            s.sidecar.Listing? && s.volume.stored == Some(e) && HasUploadMarker(s.bucket, v)
  {
  }

  lemma PollActs(builds: Builds, before: seq<Event>, e: Etag, v: Version)
    requires v in builds
    requires var t := Run(builds, Initial(), before);
             && t.sidecar.Idle? && NewEtag(t.bucket, t.volume) == Some(e)
             && e in t.bucket.covered && v in t.bucket.covered[e]
    ensures var s := Run(builds, Initial(), before + [Poll]);
            s.sidecar.Listing? && s.volume.stored == Some(e) && HasUploadMarker(s.bucket, v)
  {
    InitialSafe(builds);
    hide Run, KeptInv, NewEtag, Step;
    KeptAlways(builds, Initial(), before);
    RunSplit(builds, Initial(), before, [Poll]);
    One(builds, Run(builds, Initial(), before), Poll);
    PollActsNow(builds, Run(builds, Initial(), before), e, v);
  }

  /** One sync: it starts with the listing and ends with the first event that makes the sidecar idle. */
  ghost predicate OneSync(builds: Builds, s: State, events: seq<Event>) {
    && s.sidecar.Listing? && events != [] && (forall i | 0 <= i < |events| :: !events[i].Restart?)
    && (forall k | 0 <= k < |events| :: !Run(builds, s, events[..k]).sidecar.Idle?)
    && Run(builds, s, events).sidecar.Idle?
  }

  lemma ChangeEndsSync(builds: Builds, s: State, events: seq<Event>, k: int)
    requires ChangedBy(builds, s, events, k)
    ensures Run(builds, s, events[..k + 1]).sidecar.Idle?
  {
    RunLast(builds, s, events[..k + 1]);
    assert events[..k + 1][..k] == events[..k];
  }

  // ---------------------------------------------------------------- what counts as a change

  /** The event removes a directory, copies a file or deletes one. */
  predicate ChangesVolume(builds: Builds, s: State, e: Event) {
    Enabled(builds, s, e) && (e.PruneNext? || e.Download? || e.Discard?)
  }

  ghost predicate ChangesAt(builds: Builds, s: State, events: seq<Event>, k: int) {
    0 <= k < |events| && ChangesVolume(builds, Run(builds, s, events[..k]), events[k])
  }

  ghost predicate Changes(builds: Builds, s: State, events: seq<Event>) {
    exists k :: ChangesAt(builds, s, events, k)
  }

  /** What the sidecar knows of changes since the listing; what a pruning pass is going to remove is counted before
      it does. */
  predicate FlagIs(sidecar: Sidecar, changed: bool) {
    match sidecar
    case Idle => true
    case Listing => !changed
    case Pruning(gone, flag) => flag <==> changed || gone != {}
    case Syncing(_, _, _, flag) => flag <==> changed
    case Marking(_) => changed
  }

  predicate Fails(e: Event) {
    e == List(false) || e == SyncFail
  }

  lemma FlagStep(builds: Builds, s: State, e: Event, changed: bool)
    requires !s.sidecar.Idle? && !e.Restart? && FlagIs(s.sidecar, changed)
    ensures FlagIs(Step(builds, s, e).sidecar, changed || ChangesVolume(builds, s, e))
    ensures Step(builds, s, e).sidecar.Idle? ==> (e == MarkEnd <==> changed && !Fails(e)) && !ChangesVolume(builds, s, e)
  {
    hide RemoveDirectory, DeleteFile, Missing, Leftover, NextPlace, NothingAhead, MarkOne;
  }

  lemma ChangesLast(builds: Builds, s: State, events: seq<Event>)
    requires events != []
    ensures var n := |events| - 1;
            Changes(builds, s, events) <==>
            Changes(builds, s, events[..n]) || ChangesVolume(builds, Run(builds, s, events[..n]), events[n])
  {
    hide Run, ChangesVolume;
    var n := |events| - 1;
    forall k | 0 <= k < n ensures ChangesAt(builds, s, events, k) <==> ChangesAt(builds, s, events[..n], k) {
      assert events[..n][..k] == events[..k];
    }
    assert ChangesAt(builds, s, events, n) <==> ChangesVolume(builds, Run(builds, s, events[..n]), events[n]);
  }

  lemma {:induction false} FlagAlways(builds: Builds, s: State, events: seq<Event>)
    requires s.sidecar.Listing? && forall i | 0 <= i < |events| :: !events[i].Restart?
    requires forall k | 0 <= k < |events| :: !Run(builds, s, events[..k]).sidecar.Idle?
    ensures FlagIs(Run(builds, s, events).sidecar, Changes(builds, s, events))
    decreases |events|
  {
    if events != [] {
      var n := |events| - 1;
      forall k | 0 <= k < n ensures !Run(builds, s, events[..n][..k]).sidecar.Idle? {
        assert events[..n][..k] == events[..k];
      }
      FlagAlways(builds, s, events[..n]);
      RunLast(builds, s, events);
      ChangesLast(builds, s, events);
      hide Run, Step, FlagIs, ChangesVolume, Changes;
      FlagStep(builds, Run(builds, s, events[..n]), events[n], Changes(builds, s, events[..n]));
    }
  }

  /** A sync ends with a marking pass exactly when it does not fail and removes, copies or deletes something. */
  lemma SyncMarksIff(builds: Builds, s: State, sync: seq<Event>)
    requires OneSync(builds, s, sync)
    ensures var last := sync[|sync| - 1]; last == MarkEnd <==> !Fails(last) && Changes(builds, s, sync)
  {
    var n := |sync| - 1;
    forall k | 0 <= k < n ensures !Run(builds, s, sync[..n][..k]).sidecar.Idle? {
      assert sync[..n][..k] == sync[..k];
    }
    FlagAlways(builds, s, sync[..n]);
    RunLast(builds, s, sync);
    ChangesLast(builds, s, sync);
    hide Run, Step, FlagIs, ChangesVolume, Changes;
    FlagStep(builds, Run(builds, s, sync[..n]), sync[n], Changes(builds, s, sync[..n]));
  }

  /** After one sync a version whose upload had finished when it started is marked exactly when it was
      before, or listing and sync succeeded and the sync removed, copied or deleted something. */
  lemma SyncMarksExactlyWhen(builds: Builds, before: seq<Event>, sync: seq<Event>, v: Version)
    requires v in builds
    requires HasUploadMarker(Run(builds, Initial(), before).bucket, v)
    requires OneSync(builds, Run(builds, Initial(), before), sync)
    ensures var s := Run(builds, Initial(), before);
            v in Run(builds, s, sync).volume.complete <==>
            v in s.volume.complete || (!Fails(sync[|sync| - 1]) && Changes(builds, s, sync))
  {
    var s := Run(builds, Initial(), before);
    var n := |sync| - 1;
    ArrivesExactlyWhen(builds, before, sync, v);
    SyncMarksIff(builds, s, sync);
    hide Changes;
    forall k | ChangedBy(builds, s, sync, k) ensures k == n {
      ChangeEndsSync(builds, s, sync, k);
    }
    RunLast(builds, s, sync);
    assert sync[n] == MarkEnd ==> ChangedBy(builds, s, sync, n);
  }
}
