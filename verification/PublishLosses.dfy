/** How an announced build is lost: a sync that fails once its ETag is stored, a restart between copying and
    marking, and two update markers with the same text each strand it.  Each has a run from the start. */
module PublishLosses {
  import opened Text
  import opened Keys
  import opened Publish
  import opened PublishUpdates

  // ---------------------------------------------------------------- stranded builds

  /** Neither a marker write nor a restart. */
  predicate Quiet(e: Event) {
    !Announces(e) && !e.Restart?
  }

  /** A build that is not marked when the sidecar is idle and up to date with the update marker stays
      unmarked until somebody writes the marker again or the sidecar restarts, however often it polls. */
  lemma {:induction false} StrandedStays(builds: Builds, s: State, events: seq<Event>, v: Version)
    requires s.sidecar.Idle? && s.volume.stored == s.bucket.etag && v !in s.volume.complete
    requires forall i | 0 <= i < |events| :: Quiet(events[i])
    ensures v !in Run(builds, s, events).volume.complete
    decreases |events|
  {
    if events != [] {
      assert Quiet(events[0]);
      StrandedStays(builds, Step(builds, s, events[0]), events[1..], v);
    }
  }

  /** A listing or a sync that fails once the ETag is stored strands every build it has not marked. */
  lemma FailureStrands(builds: Builds, s: State, fail: Event, later: seq<Event>, v: Version)
    requires (s.sidecar.Listing? && fail == List(false)) || (s.sidecar.Syncing? && fail == SyncFail)
    requires s.volume.stored == s.bucket.etag && v !in s.volume.complete
    requires forall i | 0 <= i < |later| :: Quiet(later[i])
    ensures v !in Run(builds, Step(builds, s, fail), later).volume.complete
  {
    hide Run, AllMarked;
    StrandedStays(builds, Step(builds, s, fail), later, v);
  }

  /** Two uploads that end in the same second write the same marker text.  Once the sidecar has acted on the
      first, the second is never noticed. */
  lemma SameSecondStrands(builds: Builds, s: State, announce: Event, e: Etag, later: seq<Event>, v: Version)
    requires s.sidecar.Idle? && s.volume.stored == Some(e) && v !in s.volume.complete
    requires WritesMarker(announce, e) && Enabled(builds, s, announce)
    requires forall i | 0 <= i < |later| :: Quiet(later[i])
    ensures v !in Run(builds, Step(builds, s, announce), later).volume.complete
  {
    hide Run, AllMarked;
    StrandedStays(builds, Step(builds, s, announce), later, v);
  }

  /** The volume holds exactly what the bucket holds. */
  predicate InSync(bucket: Bucket, volume: Volume) {
    && Missing(bucket, volume) == {} && Leftover(bucket, volume) == {}
    && bucket.objects != map[] && Present(volume) <= Directories(bucket.objects)
  }

  predicate Looks(events: seq<Event>) {
    forall i | 0 <= i < |events| :: events[i].Look? || events[i].LookEnd?
  }

  lemma RestartLists(builds: Builds, s: State)
    requires InSync(s.bucket, s.volume)
    ensures var again := Run(builds, s, [Restart, List(true), PruneEnd]);
            again.sidecar == Syncing(Start, {}, {}, false) && again.volume == s.volume && again.bucket == s.bucket
  {
    Three(builds, s, Restart, List(true), PruneEnd);
    assert Present(s.volume) - Directories(s.bucket.objects) == {};
  }

  /** However the listings are read, there is nothing to copy or delete. */
  lemma {:induction false} FindsNothing(builds: Builds, s: State, looks: seq<Event>)
    requires Missing(s.bucket, s.volume) == {} && Leftover(s.bucket, s.volume) == {}
    requires s.sidecar.Syncing? && s.sidecar == Syncing(s.sidecar.cursor, {}, {}, false) && Looks(looks)
    ensures var after := Run(builds, s, looks);
            && after.bucket == s.bucket && after.volume == s.volume
            && after.sidecar.Syncing? && after.sidecar == Syncing(after.sidecar.cursor, {}, {}, false)
    decreases |looks|
  {
    if looks != [] {
      hide Missing, Leftover, NextPlace, NothingAhead;
      assert looks[0].Look? || looks[0].LookEnd?;
      FindsNothing(builds, Step(builds, s, looks[0]), looks[1..]);
    }
  }

  lemma EndsIdle(builds: Builds, s: State)
    requires s.sidecar == Syncing(End, {}, {}, false)
    ensures Step(builds, s, SyncEnd) == s.(sidecar := Idle)
  {
  }

  /** After a restart between copying and marking, the first sync, however it reads the listings, finds nothing
      to copy, skips the marking, and the build stays unmarked although it is whole. */
  lemma RestartStrands(builds: Builds, s: State, looks: seq<Event>, later: seq<Event>, v: Version)
    requires s.sidecar.Marking? && v !in s.volume.complete
    requires s.volume.stored == s.bucket.etag && InSync(s.bucket, s.volume)
    requires Looks(looks) && NothingToDo(Run(builds, s, [Restart, List(true), PruneEnd] + looks).sidecar)
    requires forall i | 0 <= i < |later| :: Quiet(later[i])
    ensures var again := Run(builds, s, [Restart, List(true), PruneEnd] + looks + [SyncEnd]);
            && again.volume == s.volume && again.sidecar.Idle?
            && v !in Run(builds, again, later).volume.complete
  {
    RestartLists(builds, s);
    hide Run, Looks;
    RunSplit(builds, s, [Restart, List(true), PruneEnd] + looks, [SyncEnd]);
    RunSplit(builds, s, [Restart, List(true), PruneEnd], looks);
    FindsNothing(builds, Run(builds, s, [Restart, List(true), PruneEnd]), looks);
    var t := Run(builds, s, [Restart, List(true), PruneEnd] + looks);
    One(builds, t, SyncEnd);
    EndsIdle(builds, t);
    hide Step;
    StrandedStays(builds, Run(builds, s, [Restart, List(true), PruneEnd] + looks + [SyncEnd]), later, v);
  }

  // ---------------------------------------------------------------- runs that lose an update

  /** A build of one file, which a sync does not leave alone. */
  predicate OneFile(builds: Builds, v: Version, f: Name) {
    v in builds && builds[v] == {f} && f != UPLOAD_COMPLETE && !Excluded(Build(v, f))
  }

  function Uploading(v: Version, f: Name, e: Etag): seq<Event> {
    [PutFile(v, f), PutUploadMarker(v), PutUpdateMarker(v, e)]
  }

  /** An uploader finishes after the sidecar's first look at an empty bucket. */
  function UploadAfterStart(v: Version, f: Name, e: Etag): seq<Event> {
    [List(false)] + Uploading(v, f, e)
  }

  function Announced(v: Version, f: Name, e: Etag): Bucket {
    Bucket(map[Build(v, f) := 0, UploadMarker(v) := 1, BUILDS_UPDATED := 2], 3, Some(e), {v}, map[e := {v}])
  }

  lemma AfterUpload(builds: Builds, v: Version, f: Name, e: Etag)
    requires OneFile(builds, v, f)
    ensures Run(builds, Initial(), UploadAfterStart(v, f, e)) ==
            State(Announced(v, f, e), Volume(map[], {}, None, {}), Idle, true, true)
  {
    RunSplit(builds, Initial(), [List(false)], Uploading(v, f, e));
    One(builds, Initial(), List(false));
    var s0 := Step(builds, Initial(), List(false));
    Three(builds, s0, PutFile(v, f), PutUploadMarker(v), PutUpdateMarker(v, e));
    var s1 := Step(builds, s0, PutFile(v, f));
    assert s1.bucket.objects == map[Build(v, f) := 0];
    var s2 := Step(builds, s1, PutUploadMarker(v));
    assert s2.bucket.objects == map[Build(v, f) := 0, UploadMarker(v) := 1];
    OnlyUploaded(s2.bucket, v);
  }

  lemma OnlyUploaded(bucket: Bucket, v: Version)
    requires forall k | k in bucket.objects && k.Build? :: k.version == v
    requires HasUploadMarker(bucket, v)
    ensures Uploaded(bucket) == {v}
  {
    assert UploadMarker(v).version in Uploaded(bucket);
  }

  /** The condition on failures is needed: all markers are distinct, the sidecar is idle and up to date with
      the update marker, but the poll's listing failed and the build is unmarked. */
  lemma {:induction false} FailureLosesUpdate(builds: Builds, v: Version, f: Name, e: Etag)
    requires OneFile(builds, v, f)
    ensures var s := Run(builds, Initial(), UploadAfterStart(v, f, e) + [Poll, List(false), Poll]);
            && s.distinct && s.sidecar.Idle? && s.volume.stored == s.bucket.etag == Some(e)
            && Owed(s.bucket, s.volume, v) && v !in s.volume.complete
  {
    RunSplit(builds, Initial(), UploadAfterStart(v, f, e), [Poll, List(false), Poll]);
    AfterUpload(builds, v, f, e);
    Three(builds, Run(builds, Initial(), UploadAfterStart(v, f, e)), Poll, List(false), Poll);
  }

  lemma PollListPrune(builds: Builds, v: Version, f: Name, e: Etag)
    ensures Run(builds, State(Announced(v, f, e), Volume(map[], {}, None, {}), Idle, true, true), [Poll, List(true), PruneEnd]) ==
            State(Announced(v, f, e), Volume(map[], {}, Some(e), {}), Syncing(Start, {}, {}, false), true, true)
  {
    Three(builds, State(Announced(v, f, e), Volume(map[], {}, None, {}), Idle, true, true), Poll, List(true), PruneEnd);
    assert UploadMarker(v) in Announced(v, f, e).objects;
    assert Present(Volume(map[], {}, Some(e), {})) == {};
  }

  lemma AllFound(builds: Builds, v: Version, f: Name, e: Etag) returns (looks: seq<Event>)
    requires OneFile(builds, v, f)
    ensures Looks(looks)
    ensures Run(builds, State(Announced(v, f, e), Volume(map[], {}, Some(e), {}), Syncing(Start, {}, {}, false), true, true),
                looks) ==
            State(Announced(v, f, e), Volume(map[], {}, Some(e), {}),
                  Syncing(End, {Build(v, f), UploadMarker(v), BUILDS_UPDATED}, {}, false), true, true)
  {
    var s := State(Announced(v, f, e), Volume(map[], {}, Some(e), {}), Syncing(Start, {}, {}, false), true, true);
    var all := {Build(v, f), UploadMarker(v), BUILDS_UPDATED};
    assert !Excluded(UploadMarker(v)) && !Excluded(BUILDS_UPDATED);
    assert Missing(s.bucket, s.volume) == all && Leftover(s.bucket, s.volume) == {};
    looks := ReadOn(builds, s);
    hide Run, Missing, Leftover;
    var after := Run(builds, s, looks);
    assert after.sidecar.todo == all && after.sidecar.doomed == {};
  }

  lemma CopyFirst(builds: Builds, v: Version, f: Name, e: Etag)
    requires OneFile(builds, v, f)
    ensures var all := {Build(v, f), UploadMarker(v), BUILDS_UPDATED};
            Run(builds, State(Announced(v, f, e), Volume(map[], {}, Some(e), {}), Syncing(End, all, {}, false), true, true),
                [Download(Build(v, f))]) ==
            State(Announced(v, f, e), Volume(map[Build(v, f) := 0], {}, Some(e), {}),
                  Syncing(End, {UploadMarker(v), BUILDS_UPDATED}, {}, true), true, true)
  {
    var all := {Build(v, f), UploadMarker(v), BUILDS_UPDATED};
    var s := State(Announced(v, f, e), Volume(map[], {}, Some(e), {}), Syncing(End, all, {}, false), true, true);
    One(builds, s, Download(Build(v, f)));
    assert all - {Build(v, f)} == {UploadMarker(v), BUILDS_UPDATED};
  }

  lemma CopyRest(builds: Builds, v: Version, f: Name, e: Etag)
    requires OneFile(builds, v, f)
    ensures var s := Run(builds, State(Announced(v, f, e), Volume(map[Build(v, f) := 0], {}, Some(e), {}),
                                       Syncing(End, {UploadMarker(v), BUILDS_UPDATED}, {}, true), true, true),
                         [Download(UploadMarker(v)), Download(BUILDS_UPDATED), SyncEnd]);
            s == State(Announced(v, f, e), Volume(Announced(v, f, e).objects, {}, Some(e), {}), Marking({v}), true, true)
  {
    var u := UploadMarker(v);
    var s := State(Announced(v, f, e), Volume(map[Build(v, f) := 0], {}, Some(e), {}),
                   Syncing(End, {u, BUILDS_UPDATED}, {}, true), true, true);
    Three(builds, s, Download(u), Download(BUILDS_UPDATED), SyncEnd);
    hide Run, OneFile;
    OneDirectory(Announced(v, f, e).objects, v, f);
    var s1 := Step(builds, s, Download(u));
    assert {u, BUILDS_UPDATED} - {u} == {BUILDS_UPDATED};
    assert s1.sidecar == Syncing(End, {BUILDS_UPDATED}, {}, true);
    var s2 := Step(builds, s1, Download(BUILDS_UPDATED));
    assert {BUILDS_UPDATED} - {BUILDS_UPDATED} == {};
    assert s2.volume.files == Announced(v, f, e).objects;
    assert Present(s2.volume) == {v};
  }

  lemma OneDirectory(files: map<Key, Tag>, v: Version, f: Name)
    requires Build(v, f) in files && forall k | k in files && k.Build? :: k.version == v
    ensures Directories(files) == {v}
  {
    assert Build(v, f).version in Directories(files);
  }

  /** So is the condition on restarts: such a run ends, with the build whole and unmarked, in the situation of
      `RestartStrands`. */
  lemma {:induction false} RestartLosesUpdate(builds: Builds, v: Version, f: Name, e: Etag) returns (looks: seq<Event>)
    requires OneFile(builds, v, f)
    ensures Looks(looks)
    ensures var s := Run(builds, Initial(),
                         UploadAfterStart(v, f, e) + [Poll, List(true), PruneEnd] + looks + [Download(Build(v, f))] +
                         [Download(UploadMarker(v)), Download(BUILDS_UPDATED), SyncEnd]);
            && s.sidecar.Marking? && s.distinct && s.volume.stored == s.bucket.etag == Some(e)
            && InSync(s.bucket, s.volume) && Owed(s.bucket, s.volume, v) && v !in s.volume.complete
  {
    looks := AllFound(builds, v, f, e);
    var a, b, c := UploadAfterStart(v, f, e), [Poll, List(true), PruneEnd], [Download(Build(v, f))];
    RunSplit(builds, Initial(), a + b + looks + c, [Download(UploadMarker(v)), Download(BUILDS_UPDATED), SyncEnd]);
    RunSplit(builds, Initial(), a + b + looks, c);
    RunSplit(builds, Initial(), a + b, looks);
    RunSplit(builds, Initial(), a, b);
    AfterUpload(builds, v, f, e);
    PollListPrune(builds, v, f, e);
    CopyFirst(builds, v, f, e);
    CopyRest(builds, v, f, e);
    hide Run;
    OneDirectory(Announced(v, f, e).objects, v, f);
  }

  // ---------------------------------------------------------------- two markers with the same text

  /** Another script writes the update marker, and the sidecar acts on it. */
  function ActOnMarker(e: Etag): seq<Event> {
    [List(false), OtherUpdateMarker(e), Poll] + [List(true), PruneEnd] + [Look(BUILDS_UPDATED), LookEnd] +
    [Download(BUILDS_UPDATED), SyncEnd, MarkEnd]
  }

  function OnlyMarker(e: Etag): Bucket {
    Bucket(map[BUILDS_UPDATED := 0], 1, Some(e), {}, map[e := {}])
  }

  lemma AfterActOnMarker(builds: Builds, e: Etag)
    ensures Run(builds, Initial(), ActOnMarker(e)) ==
            State(OnlyMarker(e), Volume(map[BUILDS_UPDATED := 0], {}, Some(e), {}), Idle, true, true)
  {
    var a, b, c := [List(false), OtherUpdateMarker(e), Poll], [List(true), PruneEnd], [Look(BUILDS_UPDATED), LookEnd];
    RunSplit(builds, Initial(), a + b + c, [Download(BUILDS_UPDATED), SyncEnd, MarkEnd]);
    RunSplit(builds, Initial(), a + b, c);
    RunSplit(builds, Initial(), a, b);
    Three(builds, Initial(), List(false), OtherUpdateMarker(e), Poll);
    assert Uploaded(Initial().bucket) == {};
    assert Step(builds, Step(builds, Initial(), List(false)), OtherUpdateMarker(e)).bucket == OnlyMarker(e);
    var s3 := Run(builds, Initial(), a);
    assert s3 == State(OnlyMarker(e), Volume(map[], {}, Some(e), {}), Listing, true, true);
    ListOnlyMarker(builds, e);
    SeeOnlyMarker(builds, e);
    CopyOnlyMarker(builds, e);
  }

  lemma ListOnlyMarker(builds: Builds, e: Etag)
    ensures Run(builds, State(OnlyMarker(e), Volume(map[], {}, Some(e), {}), Listing, true, true), [List(true), PruneEnd]) ==
            State(OnlyMarker(e), Volume(map[], {}, Some(e), {}), Syncing(Start, {}, {}, false), true, true)
  {
    var s := State(OnlyMarker(e), Volume(map[], {}, Some(e), {}), Listing, true, true);
    Two(builds, s, List(true), PruneEnd);
    assert BUILDS_UPDATED in OnlyMarker(e).objects;
    assert Present(s.volume) == {};
  }

  lemma SeeOnlyMarker(builds: Builds, e: Etag)
    ensures Run(builds, State(OnlyMarker(e), Volume(map[], {}, Some(e), {}), Syncing(Start, {}, {}, false), true, true),
                [Look(BUILDS_UPDATED), LookEnd]) ==
            State(OnlyMarker(e), Volume(map[], {}, Some(e), {}), Syncing(End, {BUILDS_UPDATED}, {}, false), true, true)
  {
    assert !Excluded(BUILDS_UPDATED);
    FindsTheOnly(builds, State(OnlyMarker(e), Volume(map[], {}, Some(e), {}), Syncing(Start, {}, {}, false), true, true),
                 BUILDS_UPDATED);
  }

  lemma CopyOnlyMarker(builds: Builds, e: Etag)
    ensures Run(builds, State(OnlyMarker(e), Volume(map[], {}, Some(e), {}), Syncing(End, {BUILDS_UPDATED}, {}, false), true, true),
                [Download(BUILDS_UPDATED), SyncEnd, MarkEnd]) ==
            State(OnlyMarker(e), Volume(map[BUILDS_UPDATED := 0], {}, Some(e), {}), Idle, true, true)
  {
    var s := State(OnlyMarker(e), Volume(map[], {}, Some(e), {}), Syncing(End, {BUILDS_UPDATED}, {}, false), true, true);
    Three(builds, s, Download(BUILDS_UPDATED), SyncEnd, MarkEnd);
    assert {BUILDS_UPDATED} - {BUILDS_UPDATED} == {};
    assert Present(Volume(map[BUILDS_UPDATED := 0], {}, Some(e), {})) == {};
  }

  /** And the condition on ETags: nothing failed and nothing restarted, the sidecar is idle and up to date with
      the update marker, but that was written a second time with the text that it had. */
  lemma {:induction false} SameSecondLosesUpdate(builds: Builds, v: Version, f: Name, e: Etag)
    requires OneFile(builds, v, f)
    ensures var s := Run(builds, Initial(), ActOnMarker(e) + Uploading(v, f, e) + [Poll]);
            && s.settled && s.sidecar.Idle? && s.volume.stored == s.bucket.etag == Some(e)
            && Owed(s.bucket, s.volume, v) && v !in s.volume.complete
  {
    RunSplit(builds, Initial(), ActOnMarker(e) + Uploading(v, f, e), [Poll]);
    RunSplit(builds, Initial(), ActOnMarker(e), Uploading(v, f, e));
    AfterActOnMarker(builds, e);
    var s := Run(builds, Initial(), ActOnMarker(e));
    UploadWhileIdle(builds, s, v, f, e);
    hide Run, ActOnMarker, Uploading;
    One(builds, Run(builds, Initial(), ActOnMarker(e) + Uploading(v, f, e)), Poll);
  }

  lemma UploadWhileIdle(builds: Builds, s: State, v: Version, f: Name, e: Etag)
    requires OneFile(builds, v, f) && s.bucket == OnlyMarker(e)
    ensures var after := Run(builds, s, Uploading(v, f, e));
            && after.volume == s.volume && after.sidecar == s.sidecar && after.settled == s.settled
            && after.bucket.etag == Some(e) && e in after.bucket.covered && v in after.bucket.covered[e]
  {
    Three(builds, s, PutFile(v, f), PutUploadMarker(v), PutUpdateMarker(v, e));
    hide Run;
    var s1 := Step(builds, s, PutFile(v, f));
    assert s1.bucket.objects == map[BUILDS_UPDATED := 0, Build(v, f) := 1];
    var s2 := Step(builds, s1, PutUploadMarker(v));
    assert s2.bucket.objects == map[BUILDS_UPDATED := 0, Build(v, f) := 1, UploadMarker(v) := 2];
    OnlyUploaded(s2.bucket, v);
  }
}
