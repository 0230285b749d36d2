/** The multi-build solution's publish and sync protocol as a state machine.  Uploaders and the sync sidecar
    share nothing but files: objects in a bucket on one side, a volume mounted by the game server containers
    on the other.  Every step of every script is one transition, any process may stop between two steps, and
    transitions interleave in any order. */
module Publish {
  import opened Text
  import opened Keys

  const UPLOAD_COMPLETE := ".upload_complete"
  const DOWNLOAD_COMPLETE := ".download_complete"
  const BUILDS_UPDATED := Root(".builds_updated")

  function UploadMarker(v: Version): Key {
    Build(v, UPLOAD_COMPLETE)
  }

  /** What `aws s3 sync` is told to leave alone, both when it copies and when it deletes. */
  predicate Excluded(k: Key) {
    match k
    case Root(file) => file == ".last-sync" || file == ".last_marker_etag"
    case Build(_, name) => name == DOWNLOAD_COMPLETE || EndsWith(name, "/" + DOWNLOAD_COMPLETE)
  }

  predicate EndsWith(s: string, suffix: string) {
    |suffix| <= |s| && s[|s| - |suffix|..] == suffix
  }

  /** Said of paths: a sync leaves alone two files at the top and every `.download_complete` below it. */
  lemma ExcludedIff(k: Key)
    ensures Excluded(k) <==>
            KeyText(k) == ".last-sync" || KeyText(k) == ".last_marker_etag" || EndsWith(KeyText(k), "/" + DOWNLOAD_COMPLETE)
  {
    assert '/' !in DOWNLOAD_COMPLETE && '/' !in ".last-sync" && '/' !in ".last_marker_etag";
    SlashIffBuild(k);
    hide DOWNLOAD_COMPLETE, EndsWith;
    if k.Root? {
      EndsInSlashed(KeyText(k), DOWNLOAD_COMPLETE);
    } else {
      PathEnds(k.version, k.name, DOWNLOAD_COMPLETE);
    }
  }

  lemma EndsInSlashed(s: string, last: string)
    ensures EndsWith(s, "/" + last) ==> '/' in s
  {
    if EndsWith(s, "/" + last) {
      assert s[|s| - |last| - 1] == ("/" + last)[0];
    }
  }

  lemma EndsInRight(a: string, b: string, tail: string)
    requires |tail| <= |b|
    ensures EndsWith(a + b, tail) <==> EndsWith(b, tail)
  {
    assert (a + b)[|a + b| - |tail|..] == b[|b| - |tail|..];
  }

  /** A path of a version's directory and a name ends in a slash and `last` when the name is that or ends so. */
  lemma PathEnds(v: Version, name: Name, last: string)
    requires '/' !in last
    ensures EndsWith(v + "/" + name, "/" + last) <==> name == last || EndsWith(name, "/" + last)
  {
    assert v + "/" + name == v + ("/" + name);
    if |last| < |name| {
      EndsInRight(v + "/", name, "/" + last);
    } else if |last| == |name| {
      EndsInRight(v, "/" + name, "/" + last);
      SameTail(name, last);
    } else if EndsWith(v + "/" + name, "/" + last) {
      SlashInside(v, name, last);
    }
  }

  lemma SameTail(name: string, last: string)
    requires |last| == |name|
    ensures EndsWith("/" + name, "/" + last) <==> name == last
  {
    assert ("/" + name)[0..] == "/" + name;
    assert ("/" + name)[1..] == name && ("/" + last)[1..] == last;
  }

  lemma SlashInside(v: Version, name: Name, last: string)
    requires |last| > |name| && EndsWith(v + "/" + name, "/" + last)
    ensures '/' in last
  {
    var (path, tail) := (v + "/" + name, "/" + last);
    assert path[|v|] == '/';
    assert tail[|last| - |name|] == path[|v|] && last[|last| - |name| - 1] == tail[|last| - |name|];
  }

  /** The versions that are uploaded once and never overwritten or deleted, each with its files.  Other
      versions, and other objects at the top level, may be written and removed by anyone at any time. */
  type Builds = map<Version, set<Name>>

  // ---------------------------------------------------------------- the state

  /** Identifies one write of an object: two files are the same for `aws s3 sync` when this is the same. */
  type Tag = nat

  /** The hash of the update marker's text, by which the sidecar notices a change. */
  type Etag = nat

  /** `finished` holds the versions whose uploader has written its upload marker.  `covered` is a history: for each
      ETag the update marker ever had, the versions whose upload marker was in the bucket when the update marker
      was last written with that ETag. */
  datatype Bucket = Bucket(
    objects: map<Key, Tag>,
    writes: Tag,
    etag: Option<Etag>,
    finished: set<Version>,
    covered: map<Etag, set<Version>>)

  /** The shared volume: the files copied from the bucket, the versions that hold `.download_complete`, the
      contents of `.last_marker_etag`, and the directories from which a sync deleted files, which stay even when
      nothing is left in them. */
  datatype Volume = Volume(files: map<Key, Tag>, complete: set<Version>, stored: Option<Etag>, emptied: set<Version>)

  /** Where the sidecar is.  It starts with a sync, so it starts in `Listing`.  While it syncs, it reads the
      listings of bucket and volume key by key in their order, each at its own moment, and copies and deletes
      what it found to differ. */
  datatype Sidecar =
    | Idle
    | Listing
    | Pruning(gone: set<Version>, changed: bool)
    | Syncing(cursor: Cursor, todo: set<Key>, doomed: set<Key>, changed: bool)
    | Marking(dirs: set<Version>)

  /** `distinct` and `settled` are histories: no ETag was ever reused, and nothing that can strand a build
      has happened since the last time the sidecar marked builds. */
  datatype State = State(
    bucket: Bucket,
    volume: Volume,
    sidecar: Sidecar,
    distinct: bool,
    settled: bool)

  function Initial(): State {
    State(Bucket(map[], 0, None, {}, map[]), Volume(map[], {}, None, {}), Listing, true, true)
  }

  // ---------------------------------------------------------------- uploaders

  predicate HasUploadMarker(bucket: Bucket, v: Version) {
    UploadMarker(v) in bucket.objects
  }

  predicate AllUploaded(builds: Builds, bucket: Bucket, v: Version)
    requires v in builds
  {
    forall f | f in builds[v] :: Build(v, f) in bucket.objects
  }

  function Write(bucket: Bucket, k: Key): Bucket {
    bucket.(objects := bucket.objects[k := bucket.writes], writes := bucket.writes + 1)
  }

  function Remove(bucket: Bucket, k: Key): Bucket {
    bucket.(objects := bucket.objects - {k})
  }

  /** The uploader writes its upload marker, over a shipped file of that name if there is one. */
  function Finish(bucket: Bucket, v: Version): Bucket {
    Write(bucket, UploadMarker(v)).(finished := bucket.finished + {v})
  }

  function Uploaded(bucket: Bucket): set<Version> {
    set k | k in bucket.objects && k.Build? && k.name == UPLOAD_COMPLETE :: k.version
  }

  /** Writing the update marker. */
  function Announce(bucket: Bucket, e: Etag): Bucket {
    Write(bucket, BUILDS_UPDATED).(etag := Some(e), covered := bucket.covered[e := Uploaded(bucket)])
  }

  // ---------------------------------------------------------------- the sidecar

  function Directories(files: map<Key, Tag>): set<Version> {
    set k | k in files && k.Build? :: k.version
  }

  /** The build directories on the volume. */
  function Present(volume: Volume): set<Version> {
    Directories(volume.files) + volume.complete + volume.emptied
  }

  /** `marker_has_changed`: the ETag to remember and sync for, if there is a new one. */
  function NewEtag(bucket: Bucket, volume: Volume): Option<Etag> {
    if bucket.etag.None? || bucket.etag == volume.stored then None else bucket.etag
  }

  /** `rm -rf` of one directory. */
  function RemoveDirectory(volume: Volume, v: Version): Volume {
    volume.(
      files := map k | k in volume.files && !(k.Build? && k.version == v) :: volume.files[k],
      complete := volume.complete - {v},
      emptied := volume.emptied - {v})
  }

  /** `aws s3 sync --delete` deletes a file and leaves its directory. */
  function DeleteFile(volume: Volume, k: Key): Volume {
    volume.(
      files := volume.files - {k},
      emptied := if k.Build? then volume.emptied + {k.version} else volume.emptied)
  }

  /** What a sync sees, there or here. */
  function Seen(bucket: Bucket, volume: Volume): set<Key> {
    bucket.objects.Keys + volume.files.Keys
  }

  function Missing(bucket: Bucket, volume: Volume): set<Key> {
    set k | k in bucket.objects && !Excluded(k) &&
            (k !in volume.files || volume.files[k] != bucket.objects[k])
  }

  function Leftover(bucket: Bucket, volume: Volume): set<Key> {
    volume.files.Keys - bucket.objects.Keys
  }

  /** One directory of the marking loop in `set_permissions`. */
  function MarkOne(volume: Volume, v: Version): Volume {
    volume.(complete :=
      if UploadMarker(v) in volume.files then volume.complete + {v} else volume.complete - {v})
  }

  /** Every build that has arrived with its upload marker is marked as downloaded. */
  predicate AllMarked(builds: Builds, volume: Volume) {
    forall v | v in builds && UploadMarker(v) in volume.files :: v in volume.complete
  }

  // ---------------------------------------------------------------- steps

  datatype Event =
    // the uploader of a version
    | PutFile(v: Version, f: Name)
    | PutUploadMarker(v: Version)
    | PutUpdateMarker(v: Version, e: Etag)
    // anyone else with access to the bucket
    | OtherPut(k: Key)
    | OtherDelete(k: Key)
    | OtherUpdateMarker(e: Etag)
    // the sidecar
    | Poll
    | List(ok: bool)
    | PruneNext(v: Version)
    | PruneEnd
    | Look(k: Key)
    | LookEnd
    | Download(k: Key)
    | Discard(k: Key)
    | SyncEnd
    | SyncFail
    | MarkNext(v: Version)
    | MarkEnd
    | Restart

  predicate Foreign(builds: Builds, k: Key) {
    if k.Root? then k != BUILDS_UPDATED else k.version !in builds
  }

  predicate Enabled(builds: Builds, s: State, e: Event) {
    match e
    case PutFile(v, f) => v in builds && f in builds[v] && Build(v, f) !in s.bucket.objects
    case PutUploadMarker(v) => v in builds && AllUploaded(builds, s.bucket, v) && v !in s.bucket.finished
    case PutUpdateMarker(v, _) => v in s.bucket.finished
    case OtherPut(k) => Foreign(builds, k)
    case OtherDelete(k) => Foreign(builds, k)
    case OtherUpdateMarker(_) => true
    case Poll => s.sidecar.Idle?
    case List(ok) => s.sidecar.Listing? && (ok ==> s.bucket.objects != map[])
    case PruneNext(v) => s.sidecar.Pruning? && v in s.sidecar.gone
    case PruneEnd => s.sidecar.Pruning? && s.sidecar.gone == {}
    case Look(k) => s.sidecar.Syncing? && NextPlace(Seen(s.bucket, s.volume), s.sidecar.cursor, k)
    case LookEnd => s.sidecar.Syncing? && NothingAhead(Seen(s.bucket, s.volume), s.sidecar.cursor)
    case Download(k) => s.sidecar.Syncing? && k in s.sidecar.todo && k in s.bucket.objects
    case Discard(k) => s.sidecar.Syncing? && k in s.sidecar.doomed
    case SyncEnd => s.sidecar.Syncing? && s.sidecar.cursor.End? && s.sidecar.todo == {} && s.sidecar.doomed == {}
    case SyncFail => s.sidecar.Syncing?
    case MarkNext(v) => s.sidecar.Marking? && v in s.sidecar.dirs
    case MarkEnd => s.sidecar.Marking? && s.sidecar.dirs == {}
    case Restart => true
  }

  function UpdateMarker(s: State, e: Etag): State {
    s.(bucket := Announce(s.bucket, e), distinct := s.distinct && e !in s.bucket.covered)
  }

  function BucketStep(s: State, e: Event): State {
    match e
    case PutFile(v, f) => s.(bucket := Write(s.bucket, Build(v, f)))
    case PutUploadMarker(v) => s.(bucket := Finish(s.bucket, v))
    case PutUpdateMarker(_, etag) => UpdateMarker(s, etag)
    case OtherPut(k) => s.(bucket := Write(s.bucket, k))
    case OtherDelete(k) => s.(bucket := Remove(s.bucket, k))
    case OtherUpdateMarker(etag) => UpdateMarker(s, etag)
    case _ => s
  }

  function SidecarStep(builds: Builds, s: State, e: Event): State
    requires Enabled(builds, s, e)
  {
    match e
    case Poll =>
      // the new ETag is on the volume before anything is listed
      var etag := NewEtag(s.bucket, s.volume);
      if etag.None? then s else s.(volume := s.volume.(stored := etag), sidecar := Listing)
    case List(ok) =>
      if ok then
        var gone := Present(s.volume) - Directories(s.bucket.objects);
        s.(sidecar := Pruning(gone, gone != {}))
      else s.(sidecar := Idle, settled := s.settled && s.volume.stored.None?)
    case PruneNext(v) =>
      s.(volume := RemoveDirectory(s.volume, v), sidecar := Pruning(s.sidecar.gone - {v}, s.sidecar.changed))
    case PruneEnd => s.(sidecar := Syncing(Start, {}, {}, s.sidecar.changed))
    case Look(k) =>
      s.(sidecar := s.sidecar.(
           cursor := Past(k),
           todo := s.sidecar.todo + {k} * Missing(s.bucket, s.volume),
           doomed := s.sidecar.doomed + {k} * Leftover(s.bucket, s.volume)))
    case LookEnd => s.(sidecar := s.sidecar.(cursor := End))
    case Download(k) =>
      s.(volume := s.volume.(files := s.volume.files[k := s.bucket.objects[k]]),
         sidecar := s.sidecar.(todo := s.sidecar.todo - {k}, changed := true))
    case Discard(k) =>
      s.(volume := DeleteFile(s.volume, k),
         sidecar := s.sidecar.(doomed := s.sidecar.doomed - {k}, changed := true))
    case SyncEnd =>
      // no change at all: permissions, and with them the markers, are skipped
      s.(sidecar := if s.sidecar.changed then Marking(Present(s.volume)) else Idle)
    case SyncFail =>
      s.(sidecar := Idle, settled := s.settled && s.volume.stored.None? && AllMarked(builds, s.volume))
    case MarkNext(v) =>
      s.(volume := MarkOne(s.volume, v), sidecar := Marking(s.sidecar.dirs - {v}))
    case MarkEnd => s.(sidecar := Idle, settled := true)
    case Restart => s.(sidecar := Listing, settled := s.settled && AllMarked(builds, s.volume))
    case _ => s
  }

  predicate BySidecar(e: Event) {
    e.Poll? || e.List? || e.PruneNext? || e.PruneEnd? || e.Look? || e.LookEnd? || e.Download? || e.Discard? ||
    e.SyncEnd? || e.SyncFail? || e.MarkNext? || e.MarkEnd? || e.Restart?
  }

  /** An event that is not enabled changes nothing. */
  function Step(builds: Builds, s: State, e: Event): State {
    if !Enabled(builds, s, e) then s
    else if BySidecar(e) then SidecarStep(builds, s, e)
    else BucketStep(s, e)
  }

  function Run(builds: Builds, s: State, events: seq<Event>): State
    decreases |events|
  {
    if events == [] then s else Run(builds, Step(builds, s, events[0]), events[1..])
  }

  // ---------------------------------------------------------------- what is kept

  predicate Protected(builds: Builds, k: Key) {
    k.Build? && k.version in builds
  }

  /** Finished and covered versions have their upload marker in the bucket. */
  predicate BucketInv(builds: Builds, bucket: Bucket) {
    && (forall v | v in bucket.finished :: v in builds && HasUploadMarker(bucket, v))
    && (forall e, v | e in bucket.covered && v in bucket.covered[e] && v in builds :: HasUploadMarker(bucket, v))
    && (bucket.etag.Some? ==> bucket.etag.value in bucket.covered)
  }

  /** What is here of protected versions is in the bucket, and marked ones have their upload marker here. */
  predicate VolumeInv(builds: Builds, bucket: Bucket, volume: Volume) {
    && (forall k | k in volume.files && Protected(builds, k) :: k in bucket.objects)
    && (forall k | k in volume.files :: !Excluded(k))
    && (forall v | v in builds && v in volume.complete :: UploadMarker(v) in volume.files)
    && (volume.stored.Some? ==> volume.stored.value in bucket.covered)
  }

  /** Nothing of a protected version is going to be removed, and what is going to be copied is in the bucket. */
  predicate SidecarInv(builds: Builds, bucket: Bucket, volume: Volume, sidecar: Sidecar) {
    match sidecar
    case Pruning(gone, _) => forall k | k in volume.files && Protected(builds, k) :: k.version !in gone
    case Syncing(_, todo, doomed, _) =>
      && (forall k | k in doomed :: !Protected(builds, k))
      && (forall k | k in todo :: !Excluded(k) && (Protected(builds, k) ==> k in bucket.objects))
    case _ => true
  }

  predicate KeptInv(builds: Builds, s: State) {
    && BucketInv(builds, s.bucket)
    && VolumeInv(builds, s.bucket, s.volume)
    && SidecarInv(builds, s.bucket, s.volume, s.sidecar)
  }

  lemma InitialKept(builds: Builds)
    ensures KeptInv(builds, Initial())
  {
  }

  /** What no bucket step undoes: protected objects stay, and so does the history of ETags. */
  predicate Grows(builds: Builds, a: Bucket, b: Bucket) {
    && (forall k | k in a.objects && Protected(builds, k) :: k in b.objects)
    && (forall e | e in a.covered :: e in b.covered)
  }

  lemma BucketStepGrows(builds: Builds, s: State, e: Event)
    requires BucketInv(builds, s.bucket) && Enabled(builds, s, e) && !BySidecar(e)
    ensures BucketInv(builds, BucketStep(s, e).bucket) && Grows(builds, s.bucket, BucketStep(s, e).bucket)
  {
    hide AllUploaded;
    if e.PutUpdateMarker? || e.OtherUpdateMarker? {
      forall v | v in Uploaded(s.bucket) ensures HasUploadMarker(s.bucket, v) {}
      hide Uploaded;
    }
  }

  /** An uploader that announces its version has uploaded it: the announcement covers it. */
  lemma AnnouncementCoversIt(builds: Builds, s: State, v: Version, e: Etag)
    requires KeptInv(builds, s) && Enabled(builds, s, PutUpdateMarker(v, e))
    ensures var s' := Step(builds, s, PutUpdateMarker(v, e));
            && s'.bucket.etag == Some(e) && e in s'.bucket.covered && v in s'.bucket.covered[e]
  {
    assert UploadMarker(v).version in Uploaded(s.bucket);
  }

  lemma PruneKeeps(builds: Builds, s: State, v: Version)
    requires KeptInv(builds, s) && Enabled(builds, s, PruneNext(v))
    ensures KeptInv(builds, SidecarStep(builds, s, PruneNext(v)))
    ensures var after := SidecarStep(builds, s, PruneNext(v)).volume;
            && (forall k | k in s.volume.files && Protected(builds, k) :: k in after.files)
            && (forall u | u in builds && u in s.volume.complete :: u in after.complete)
  {
    var after := RemoveDirectory(s.volume, v);
    forall k | k in s.volume.files && Protected(builds, k) ensures k in after.files {}
    forall u | u in builds && u in s.volume.complete ensures u in after.complete && UploadMarker(u) in after.files {
      assert Protected(builds, UploadMarker(u));
    }
  }

  lemma ListKeeps(builds: Builds, s: State, ok: bool)
    requires KeptInv(builds, s) && Enabled(builds, s, List(ok))
    ensures KeptInv(builds, SidecarStep(builds, s, List(ok)))
    ensures SidecarStep(builds, s, List(ok)).volume == s.volume
  {
    forall k | k in s.volume.files && Protected(builds, k) ensures k.version in Directories(s.bucket.objects) {
      assert k in s.bucket.objects;
    }
  }

  lemma CopyKeeps(builds: Builds, s: State, e: Event)
    requires KeptInv(builds, s) && Enabled(builds, s, e) && Copies(e)
    ensures KeptInv(builds, SidecarStep(builds, s, e))
    ensures forall k | k in s.volume.files && Protected(builds, k) :: k in SidecarStep(builds, s, e).volume.files
    ensures SidecarStep(builds, s, e).volume.complete == s.volume.complete
  {
    hide Ahead, NextPlace, NothingAhead;
    forall v | v in builds && v in s.volume.complete ensures UploadMarker(v) in SidecarStep(builds, s, e).volume.files {
      assert Protected(builds, UploadMarker(v));
    }
  }

  lemma MarkKeeps(builds: Builds, s: State, e: Event)
    requires KeptInv(builds, s) && Enabled(builds, s, e) && BySidecar(e)
    requires !e.PruneNext? && !e.List? && !Copies(e)
    ensures KeptInv(builds, SidecarStep(builds, s, e))
    ensures SidecarStep(builds, s, e).volume.files == s.volume.files
    ensures forall v | v in builds && v in s.volume.complete :: v in SidecarStep(builds, s, e).volume.complete
  {
    hide Missing, Leftover, AllMarked, NextPlace, NothingAhead, Directories;
  }

  lemma SidecarStepKeeps(builds: Builds, s: State, e: Event)
    requires KeptInv(builds, s) && Enabled(builds, s, e) && BySidecar(e)
    ensures KeptInv(builds, SidecarStep(builds, s, e))
    ensures forall k | k in s.volume.files && Protected(builds, k) :: k in SidecarStep(builds, s, e).volume.files
    ensures forall v | v in builds && v in s.volume.complete :: v in SidecarStep(builds, s, e).volume.complete
  {
    hide KeptInv;
    if e.PruneNext? {
      PruneKeeps(builds, s, e.v);
    } else if e.List? {
      ListKeeps(builds, s, e.ok);
    } else if Copies(e) {
      CopyKeeps(builds, s, e);
    } else {
      MarkKeeps(builds, s, e);
    }
  }

  /** Whatever is shipped under whatever names: every step of uploaders and sidecar keeps this, and never removes
      a file of a version that is uploaded once, nor its mark. */
  lemma StepKeeps(builds: Builds, s: State, e: Event)
    requires KeptInv(builds, s)
    ensures KeptInv(builds, Step(builds, s, e))
    ensures forall k | k in s.volume.files && Protected(builds, k) :: k in Step(builds, s, e).volume.files
    ensures forall v | v in builds && v in s.volume.complete :: v in Step(builds, s, e).volume.complete
  {
    if Enabled(builds, s, e) {
      if BySidecar(e) {
        hide KeptInv;
        SidecarStepKeeps(builds, s, e);
      } else {
        hide AllUploaded;
        BucketStepGrows(builds, s, e);
      }
    }
  }

  lemma {:induction false} KeptAlways(builds: Builds, s: State, events: seq<Event>)
    requires KeptInv(builds, s)
    ensures KeptInv(builds, Run(builds, s, events))
    ensures forall v | v in builds && v in s.volume.complete :: v in Run(builds, s, events).volume.complete
    decreases |events|
  {
    if events != [] {
      StepKeeps(builds, s, events[0]);
      hide KeptInv, Step;
      KeptAlways(builds, Step(builds, s, events[0]), events[1..]);
    }
  }

  // ---------------------------------------------------------------- what a sync and a marking pass do

  function Removals(order: seq<Version>): (events: seq<Event>)
    ensures |events| == |order|
  {
    seq(|order|, i requires 0 <= i < |order| => PruneNext(order[i]))
  }

  /** A pass of removals, in any order, leaves exactly the directories that it was not to remove, with their
      files. */
  lemma {:induction false} PruningLeavesTheRest(builds: Builds, s: State, order: seq<Version>)
    requires s.sidecar.Pruning? && (forall v :: v in s.sidecar.gone <==> v in order)
    requires forall i, j | 0 <= i < j < |order| :: order[i] != order[j]
    ensures var after := Run(builds, s, Removals(order));
            && after.sidecar == Pruning({}, s.sidecar.changed)
            && after.volume.complete == s.volume.complete - s.sidecar.gone
            && after.volume.emptied == s.volume.emptied - s.sidecar.gone
            && (forall k :: k in after.volume.files <==>
                            k in s.volume.files && !(k.Build? && k.version in s.sidecar.gone))
            && (forall k | k in after.volume.files :: after.volume.files[k] == s.volume.files[k])
    decreases |order|
  {
    if order == [] {
      assert s.sidecar.gone == {};
    } else {
      var v := order[0];
      var next := Step(builds, s, PruneNext(v));
      assert next.sidecar == Pruning(s.sidecar.gone - {v}, s.sidecar.changed);
      assert order == [v] + order[1..];
      PruningLeavesTheRest(builds, next, order[1..]);
      assert Removals(order)[1..] == Removals(order[1..]);
    }
  }

  /** What is to be removed after a listing is every directory that it does not show, so that exactly the
      listed ones remain. */
  lemma PruneLeavesListed(builds: Builds, s: State, order: seq<Version>)
    requires s.sidecar.Listing? && s.bucket.objects != map[]
    requires forall v :: v in Present(s.volume) - Directories(s.bucket.objects) <==> v in order
    requires forall i, j | 0 <= i < j < |order| :: order[i] != order[j]
    ensures var after := Run(builds, Step(builds, s, List(true)), Removals(order));
            && after.sidecar.Pruning? && after.sidecar.gone == {}
            && (after.sidecar.changed <==> !(Present(s.volume) <= Directories(s.bucket.objects)))
            && Present(after.volume) == Present(s.volume) * Directories(s.bucket.objects)
  {
    var listed := Directories(s.bucket.objects);
    var s1 := Step(builds, s, List(true));
    assert s1 == s.(sidecar := Pruning(Present(s.volume) - listed, Present(s.volume) - listed != {}));
    PruningLeavesTheRest(builds, s1, order);
    LeftDirectories(s.volume, Run(builds, s1, Removals(order)).volume, Present(s.volume) - listed);
  }

  lemma LeftDirectories(volume: Volume, after: Volume, gone: set<Version>)
    requires after.complete == volume.complete - gone && after.emptied == volume.emptied - gone
    requires forall k :: k in after.files <==> k in volume.files && !(k.Build? && k.version in gone)
    ensures Present(after) == Present(volume) - gone
  {
    forall v ensures v in Directories(after.files) <==> v in Directories(volume.files) && v !in gone {
      if v in Directories(volume.files) && v !in gone {
        var k :| k in volume.files && k.Build? && k.version == v;
        assert k in after.files;
      }
    }
  }

  /** What a sync does between its start and its end. */
  predicate Copies(e: Event) {
    e.Look? || e.LookEnd? || e.Download? || e.Discard?
  }

  /** What is left to do is the difference that is left, as far as the listings have been read. */
  ghost predicate InStep(bucket: Bucket, volume: Volume, sidecar: Sidecar) {
    && sidecar.Syncing?
    && (forall k :: k in sidecar.todo <==> k in Missing(bucket, volume) && !Ahead(k, sidecar.cursor))
    && (forall k :: k in sidecar.doomed <==> k in Leftover(bucket, volume) && !Ahead(k, sidecar.cursor))
  }

  lemma CopyInStep(builds: Builds, s: State, e: Event)
    requires InStep(s.bucket, s.volume, s.sidecar) && Copies(e)
    ensures var s' := Step(builds, s, e); s'.bucket == s.bucket && InStep(s.bucket, s'.volume, s'.sidecar)
  {
    if Enabled(builds, s, e) {
      if e.Look? {
        LookInStep(builds, s, e.k);
      } else if e.LookEnd? {
        SeenDifferences(s);
      } else {
        hide Ahead, NextPlace, NothingAhead;
      }
    }
  }

  lemma LookInStep(builds: Builds, s: State, k: Key)
    requires InStep(s.bucket, s.volume, s.sidecar) && Enabled(builds, s, Look(k))
    ensures InStep(s.bucket, s.volume, SidecarStep(builds, s, Look(k)).sidecar)
  {
    LookPasses(Seen(s.bucket, s.volume), s.sidecar.cursor, k);
    SeenDifferences(s);
    hide Ahead, NextPlace, Missing, Leftover;
  }

  lemma {:induction false} DifferenceShrinks(builds: Builds, s: State, copies: seq<Event>)
    requires forall i | 0 <= i < |copies| :: Copies(copies[i])
    requires InStep(s.bucket, s.volume, s.sidecar)
    ensures var after := Run(builds, s, copies);
            after.bucket == s.bucket && InStep(s.bucket, after.volume, after.sidecar)
    decreases |copies|
  {
    if copies != [] {
      hide InStep, Step;
      assert Copies(copies[0]);
      CopyInStep(builds, s, copies[0]);
      DifferenceShrinks(builds, Step(builds, s, copies[0]), copies[1..]);
    }
  }

  /** The volume holds exactly the bucket's objects, except those a sync leaves alone. */
  predicate Mirrors(bucket: Bucket, volume: Volume) {
    && (forall k | k in volume.files && !Excluded(k) :: k in bucket.objects && volume.files[k] == bucket.objects[k])
    && (forall k | k in bucket.objects && !Excluded(k) :: k in volume.files)
  }

  predicate NothingToDo(sidecar: Sidecar) {
    sidecar.Syncing? && sidecar.cursor.End? && sidecar.todo == {} && sidecar.doomed == {}
  }

  lemma NothingLeft(bucket: Bucket, volume: Volume, sidecar: Sidecar)
    requires InStep(bucket, volume, sidecar) && NothingToDo(sidecar)
    ensures Mirrors(bucket, volume)
  {
    forall k | k in bucket.objects && !Excluded(k)
      ensures k in volume.files && volume.files[k] == bucket.objects[k]
    {
      assert k !in Missing(bucket, volume);
    }
    forall k | k in volume.files ensures k in bucket.objects {
      assert k !in Leftover(bucket, volume);
    }
  }

  /** If the bucket stays as it is, a sync that succeeds leaves the volume a mirror of it. */
  lemma SyncMirrors(builds: Builds, s: State, copies: seq<Event>)
    requires s.sidecar.Syncing? && s.sidecar == Syncing(Start, {}, {}, s.sidecar.changed)
    requires forall i | 0 <= i < |copies| :: Copies(copies[i])
    requires Enabled(builds, Run(builds, s, copies), SyncEnd)
    ensures Mirrors(s.bucket, Run(builds, s, copies).volume)
  {
    assert NothingToDo(Run(builds, s, copies).sidecar);
    hide Step, Run, Missing, Leftover, Mirrors;
    DifferenceShrinks(builds, s, copies);
    NothingLeft(s.bucket, Run(builds, s, copies).volume, Run(builds, s, copies).sidecar);
  }

  /** An empty bucket is taken for a failure: from between two syncs on, the sidecar then neither copies nor removes
      anything, however often it polls, lists or restarts. */
  lemma {:induction false} EmptyBucketChangesNothing(builds: Builds, s: State, events: seq<Event>)
    requires (s.sidecar.Idle? || s.sidecar.Listing?) && s.bucket.objects == map[]
    requires forall i | 0 <= i < |events| :: BySidecar(events[i])
    ensures var s' := Run(builds, s, events);
            && (s'.sidecar.Idle? || s'.sidecar.Listing?) && s'.bucket == s.bucket
            && s'.volume == s.volume.(stored := s'.volume.stored)
    decreases |events|
  {
    if events != [] {
      assert BySidecar(events[0]);
      EmptyBucketChangesNothing(builds, Step(builds, s, events[0]), events[1..]);
    }
  }

  /** The listings were read on from `s` to their end: what was found there is what differs. */
  ghost predicate ReadFrom(s: State, after: State)
    requires s.sidecar.Syncing?
  {
    && after.sidecar.Syncing? && after == s.(sidecar := after.sidecar)
    && after.sidecar.cursor == End && after.sidecar.changed == s.sidecar.changed
    && (forall k :: k in after.sidecar.todo <==>
                    k in s.sidecar.todo || (k in Missing(s.bucket, s.volume) && Ahead(k, s.sidecar.cursor)))
    && (forall k :: k in after.sidecar.doomed <==>
                    k in s.sidecar.doomed || (k in Leftover(s.bucket, s.volume) && Ahead(k, s.sidecar.cursor)))
  }

  /** The reading of the listings can always go on to its end; if the bucket stays as it is, what is found is
      exactly what differs from there on. */
  lemma {:induction false} ReadOn(builds: Builds, s: State) returns (looks: seq<Event>)
    requires s.sidecar.Syncing?
    ensures forall i | 0 <= i < |looks| :: looks[i].Look? || looks[i].LookEnd?
    ensures ReadFrom(s, Run(builds, s, looks))
    decreases |StillAhead(s)|
  {
    if StillAhead(s) == {} {
      looks := [LookEnd];
      ReadEnd(builds, s);
    } else {
      var k := FirstOf(StillAhead(s));
      LookNext(builds, s, k);
      var next := Step(builds, s, Look(k));
      hide Step, Missing, Leftover, ReadFrom, StillAhead;
      var rest := ReadOn(builds, next);
      looks := [Look(k)] + rest;
      assert looks[1..] == rest && Run(builds, s, looks) == Run(builds, next, rest);
      ReadFromNext(s, k, next, Run(builds, next, rest));
    }
  }

  lemma ReadEnd(builds: Builds, s: State)
    requires s.sidecar.Syncing? && StillAhead(s) == {}
    ensures ReadFrom(s, Run(builds, s, [LookEnd]))
  {
    SeenDifferences(s);
    hide Missing, Leftover, Ahead;
    forall k | k in Seen(s.bucket, s.volume) ensures !Ahead(k, s.sidecar.cursor) {
      assert k !in StillAhead(s);
    }
    One(builds, s, LookEnd);
  }

  lemma ReadFromNext(s: State, k: Key, next: State, after: State)
    requires s.sidecar.Syncing? && Ahead(k, s.sidecar.cursor)
    requires forall j | j in Seen(s.bucket, s.volume) :: Ahead(j, Past(k)) <==> Ahead(j, s.sidecar.cursor) && j != k
    requires next == s.(sidecar := s.sidecar.(
                          cursor := Past(k),
                          todo := s.sidecar.todo + {k} * Missing(s.bucket, s.volume),
                          doomed := s.sidecar.doomed + {k} * Leftover(s.bucket, s.volume)))
    requires ReadFrom(next, after)
    ensures ReadFrom(s, after)
  {
    SeenDifferences(s);
    hide Missing, Leftover, Ahead;
  }

  lemma SeenDifferences(s: State)
    ensures Missing(s.bucket, s.volume) <= Seen(s.bucket, s.volume)
    ensures Leftover(s.bucket, s.volume) <= Seen(s.bucket, s.volume)
  {
  }

  lemma LookNext(builds: Builds, s: State, k: Key)
    requires s.sidecar.Syncing? && k in StillAhead(s) && forall j | j in StillAhead(s) :: j == k || Before(k, j)
    ensures Step(builds, s, Look(k)) ==
            s.(sidecar := s.sidecar.(
                 cursor := Past(k),
                 todo := s.sidecar.todo + {k} * Missing(s.bucket, s.volume),
                 doomed := s.sidecar.doomed + {k} * Leftover(s.bucket, s.volume)))
    ensures StillAhead(Step(builds, s, Look(k))) == StillAhead(s) - {k}
    ensures Ahead(k, s.sidecar.cursor)
    ensures forall j | j in Seen(s.bucket, s.volume) :: Ahead(j, Past(k)) <==> Ahead(j, s.sidecar.cursor) && j != k
  {
    hide Missing, Leftover;
    forall j | j in Seen(s.bucket, s.volume) && Ahead(j, s.sidecar.cursor) ensures j == k || Before(k, j) {
      assert j in StillAhead(s);
    }
    assert Enabled(builds, s, Look(k));
    LookPasses(Seen(s.bucket, s.volume), s.sidecar.cursor, k);
  }

  function StillAhead(s: State): set<Key>
    requires s.sidecar.Syncing?
  {
    set k | k in Seen(s.bucket, s.volume) && Ahead(k, s.sidecar.cursor)
  }

  lemma One(builds: Builds, s: State, a: Event)
    ensures Run(builds, s, [a]) == Step(builds, s, a)
  {
    assert Run(builds, s, [a]) == Run(builds, Step(builds, s, a), [a][1..]);
  }

  function Marks(order: seq<Version>): (events: seq<Event>)
    ensures |events| == |order|
  {
    seq(|order|, i requires 0 <= i < |order| => MarkNext(order[i]))
  }

  /** A marking pass over all directories, in any order, leaves marked exactly those that hold the upload
      marker. */
  lemma {:induction false} MarkingMarksExactly(builds: Builds, s: State, order: seq<Version>)
    requires s.sidecar.Marking? && (forall v :: v in s.sidecar.dirs <==> v in order)
    requires forall i, j | 0 <= i < j < |order| :: order[i] != order[j]
    requires forall v | v in s.volume.complete && v !in s.sidecar.dirs :: UploadMarker(v) in s.volume.files
    ensures var after := Run(builds, s, Marks(order));
            && after.sidecar == Marking({}) && after.volume.files == s.volume.files
            && forall v :: v in after.volume.complete <==>
                           (v in s.volume.complete || v in s.sidecar.dirs) && UploadMarker(v) in s.volume.files
    decreases |order|
  {
    if order == [] {
      assert s.sidecar.dirs == {};
    } else {
      var v := order[0];
      var next := Step(builds, s, MarkNext(v));
      assert next.sidecar == Marking(s.sidecar.dirs - {v});
      assert order == [v] + order[1..];
      MarkingMarksExactly(builds, next, order[1..]);
      assert Marks(order)[1..] == Marks(order[1..]);
    }
  }

  /** When there is one object and no file, a sync finds that object. */
  lemma FindsTheOnly(builds: Builds, s: State, k: Key)
    requires s.sidecar == Syncing(Start, {}, {}, false) && !Excluded(k)
    requires s.bucket.objects.Keys == {k} && s.volume.files == map[]
    ensures Run(builds, s, [Look(k), LookEnd]) == s.(sidecar := Syncing(End, {k}, {}, false))
  {
    Two(builds, s, Look(k), LookEnd);
    BeforeTotal(k, k);
    hide Run, Before;
    assert Seen(s.bucket, s.volume) == {k};
    assert Missing(s.bucket, s.volume) == {k} && Leftover(s.bucket, s.volume) == {};
    hide Missing, Leftover, Seen;
    var none: set<Key> := {};
    assert none + {k} * {k} == {k} && none + {k} * none == none;
    assert Step(builds, s, Look(k)) == s.(sidecar := Syncing(Past(k), {k}, {}, false));
  }

  lemma RunSplit(builds: Builds, s: State, a: seq<Event>, b: seq<Event>)
    ensures Run(builds, s, a + b) == Run(builds, Run(builds, s, a), b)
    decreases |a|
  {
    if a == [] {
      assert a + b == b;
    } else {
      assert (a + b)[0] == a[0] && (a + b)[1..] == a[1..] + b;
      RunSplit(builds, Step(builds, s, a[0]), a[1..], b);
    }
  }

  lemma Two(builds: Builds, s: State, a: Event, b: Event)
    ensures Run(builds, s, [a, b]) == Step(builds, Step(builds, s, a), b)
  {
    RunSplit(builds, s, [a], [b]);
    assert [a] + [b] == [a, b];
    One(builds, s, a);
    One(builds, Step(builds, s, a), b);
  }

  lemma Three(builds: Builds, s: State, a: Event, b: Event, c: Event)
    ensures Run(builds, s, [a, b, c]) == Step(builds, Step(builds, Step(builds, s, a), b), c)
  {
    assert [a, b, c][1..] == [b, c];
    Two(builds, Step(builds, s, a), b, c);
  }
}
