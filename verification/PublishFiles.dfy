/** What the download marker vouches for, file by file.  A file that its build's upload marker precedes in the
    listings is on the volume whenever its version is marked; so is any file that no reading of the listings
    has missed. */
module PublishFiles {
  import opened Keys
  import opened Publish

  /** A file of a version that is uploaded once and that a sync copies. */
  predicate Ships(builds: Builds, v: Version, f: Name) {
    v in builds && f in builds[v] && !Excluded(Build(v, f))
  }

  predicate ShipsMarker(builds: Builds, v: Version) {
    v in builds && UPLOAD_COMPLETE in builds[v]
  }

  /** The upload marker's name comes before the file's.  Names like ".env" come before it. */
  predicate AfterMarker(f: Name) {
    TextLess(UPLOAD_COMPLETE, f)
  }

  /** The uploaded file is on the volume, equal to the bucket's only object of that name. */
  predicate FileHere(s: State, v: Version, f: Name) {
    && Build(v, f) in s.volume.files && Build(v, f) in s.bucket.objects
    && s.volume.files[Build(v, f)] == s.bucket.objects[Build(v, f)]
  }

  /** All files of the version that a sync copies are. */
  predicate WholeOnVolume(builds: Builds, s: State, v: Version)
    requires v in builds
  {
    forall f | f in builds[v] && !Excluded(Build(v, f)) :: FileHere(s, v, f)
  }

  // ---------------------------------------------------------------- one file

  /** The file is found, or the reading of the listings has still to come to it. */
  predicate FoundOrAhead(s: State, k: Key)
    requires s.sidecar.Syncing?
  {
    k in s.volume.files.Keys + s.sidecar.todo || Ahead(k, s.sidecar.cursor)
  }

  /** The upload marker never counts without the file: it is on its way only when the file is, or when the
      listings have still to be read where the file stands. */
  predicate FileInv(s: State, v: Version, f: Name) {
    && (HasUploadMarker(s.bucket, v) ==> v in s.bucket.finished && Build(v, f) in s.bucket.objects)
    && (Build(v, f) in s.volume.files ==> FileHere(s, v, f))
    && (v in s.volume.complete ==> Build(v, f) in s.volume.files)
    && match s.sidecar
       case Syncing(_, todo, _, _) =>
         UploadMarker(v) in s.volume.files.Keys + todo ==> FoundOrAhead(s, Build(v, f))
       case Marking(_) => UploadMarker(v) in s.volume.files ==> Build(v, f) in s.volume.files
       case _ => true
  }

  /** While the listings are read, the file has not appeared behind. */
  predicate NotMissed(s: State, v: Version, f: Name) {
    s.sidecar.Syncing? && !s.sidecar.cursor.End? && Build(v, f) in s.bucket.objects ==> FoundOrAhead(s, Build(v, f))
  }

  lemma BucketStepKeepsFile(builds: Builds, s: State, e: Event, v: Version, f: Name)
    requires Ships(builds, v, f) && !ShipsMarker(builds, v)
    requires KeptInv(builds, s) && FileInv(s, v, f) && Enabled(builds, s, e) && !BySidecar(e)
    ensures FileInv(BucketStep(s, e), v, f)
  {
    if e == PutUploadMarker(v) {
      assert Build(v, f) in s.bucket.objects;
    } else {
      hide AllUploaded;
    }
  }

  /** Where the listings are read past a marker that is there, the file is there too, and either still ahead or
      found before. */
  lemma LookKeepsFile(builds: Builds, s: State, k: Key, v: Version, f: Name)
    requires Ships(builds, v, f) && KeptInv(builds, s) && FileInv(s, v, f) && Enabled(builds, s, Look(k))
    requires AfterMarker(f) || NotMissed(s, v, f)
    ensures FileInv(SidecarStep(builds, s, Look(k)), v, f)
  {
    var s' := SidecarStep(builds, s, Look(k));
    if UploadMarker(v) in s'.volume.files.Keys + s'.sidecar.todo {
      assert Protected(builds, UploadMarker(v));
      assert HasUploadMarker(s.bucket, v);
      assert Build(v, f) in Seen(s.bucket, s.volume);
      if k == UploadMarker(v) && AfterMarker(f) {
        BeforeInDirectory(v, UPLOAD_COMPLETE, f);
      }
    }
  }

  lemma LookEndKeepsFile(builds: Builds, s: State, v: Version, f: Name)
    requires Ships(builds, v, f) && KeptInv(builds, s) && FileInv(s, v, f) && Enabled(builds, s, LookEnd)
    ensures FileInv(SidecarStep(builds, s, LookEnd), v, f)
  {
    if UploadMarker(v) in s.volume.files.Keys + s.sidecar.todo {
      assert Protected(builds, UploadMarker(v));
      assert Build(v, f) in Seen(s.bucket, s.volume);
    }
  }

  lemma SidecarStepKeepsFile(builds: Builds, s: State, e: Event, v: Version, f: Name)
    requires Ships(builds, v, f) && KeptInv(builds, s) && FileInv(s, v, f) && Enabled(builds, s, e) && BySidecar(e)
    requires AfterMarker(f) || NotMissed(s, v, f)
    ensures FileInv(SidecarStep(builds, s, e), v, f)
  {
    assert Protected(builds, UploadMarker(v)) && Protected(builds, Build(v, f));
    match e {
      case Look(k) => LookKeepsFile(builds, s, k, v, f);
      case LookEnd => LookEndKeepsFile(builds, s, v, f);
      case _ => hide NextPlace, NothingAhead, Missing, Leftover, AllMarked;
    }
  }

  /** Every step keeps it for a file that comes after the marker, and for one that no reading has missed, unless
      the build ships the marker's own name. */
  lemma StepKeepsFile(builds: Builds, s: State, e: Event, v: Version, f: Name)
    requires Ships(builds, v, f) && !ShipsMarker(builds, v)
    requires KeptInv(builds, s) && FileInv(s, v, f)
    requires AfterMarker(f) || NotMissed(s, v, f)
    ensures FileInv(Step(builds, s, e), v, f)
  {
    hide KeptInv, FileInv, NotMissed;
    if Enabled(builds, s, e) {
      if BySidecar(e) {
        SidecarStepKeepsFile(builds, s, e, v, f);
      } else {
        BucketStepKeepsFile(builds, s, e, v, f);
      }
    }
  }

  lemma {:induction false} FileAlways(builds: Builds, s: State, events: seq<Event>, v: Version, f: Name)
    requires Ships(builds, v, f) && !ShipsMarker(builds, v) && AfterMarker(f)
    requires KeptInv(builds, s) && FileInv(s, v, f)
    ensures FileInv(Run(builds, s, events), v, f)
    decreases |events|
  {
    if events != [] {
      StepKeepsFile(builds, s, events[0], v, f);
      StepKeeps(builds, s, events[0]);
      hide KeptInv, FileInv, Step;
      FileAlways(builds, Step(builds, s, events[0]), events[1..], v, f);
    }
  }

  lemma InitialFile(builds: Builds, v: Version, f: Name)
    ensures FileInv(Initial(), v, f) && NotMissed(Initial(), v, f)
  {
  }

  /** Over every interleaving, with failed and partial syncs and restarts, with listings that are read while
      uploads go on, and whatever else is shipped: when a version that is uploaded once holds
      `.download_complete`, each of its files that comes after the marker is there, and stays there. */
  lemma CompleteFile(builds: Builds, before: seq<Event>, later: seq<Event>, v: Version, f: Name)
    requires Ships(builds, v, f) && !ShipsMarker(builds, v) && AfterMarker(f)
    requires v in Run(builds, Initial(), before).volume.complete
    ensures var s := Run(builds, Run(builds, Initial(), before), later);
            v in s.volume.complete && HasUploadMarker(s.bucket, v) && FileHere(s, v, f)
  {
    InitialFile(builds, v, f);
    InitialKept(builds);
    KeptAlways(builds, Initial(), before);
    KeptAlways(builds, Run(builds, Initial(), before), later);
    FileAlways(builds, Initial(), before, v, f);
    FileAlways(builds, Run(builds, Initial(), before), later, v, f);
    hide Run;
    HereWhenComplete(builds, Run(builds, Run(builds, Initial(), before), later), v, f);
  }

  lemma HereWhenComplete(builds: Builds, s: State, v: Version, f: Name)
    requires v in builds && KeptInv(builds, s) && FileInv(s, v, f) && v in s.volume.complete
    ensures HasUploadMarker(s.bucket, v) && FileHere(s, v, f)
  {
    assert Protected(builds, UploadMarker(v));
  }

  // ---------------------------------------------------------------- whole builds

  /** The upload marker's name comes before those of all files of the version that a sync copies. */
  predicate Plain(builds: Builds, v: Version) {
    v in builds && forall f | f in builds[v] && !Excluded(Build(v, f)) :: AfterMarker(f)
  }

  lemma PlainShipsNoMarker(builds: Builds, v: Version)
    requires Plain(builds, v)
    ensures !ShipsMarker(builds, v)
  {
    TextIrreflexive(UPLOAD_COMPLETE);
    assert !Excluded(UploadMarker(v));
  }

  /** So a plain version that is marked is there whole, and stays there. */
  lemma CompleteBuild(builds: Builds, before: seq<Event>, later: seq<Event>, v: Version)
    requires Plain(builds, v)
    requires v in Run(builds, Initial(), before).volume.complete
    ensures var s := Run(builds, Run(builds, Initial(), before), later);
            v in s.volume.complete && HasUploadMarker(s.bucket, v) && WholeOnVolume(builds, s, v)
  {
    PlainShipsNoMarker(builds, v);
    InitialKept(builds);
    KeptAlways(builds, Initial(), before);
    KeptAlways(builds, Run(builds, Initial(), before), later);
    var s := Run(builds, Run(builds, Initial(), before), later);
    assert HasUploadMarker(s.bucket, v) by { MarkedHasMarker(builds, s, v); }
    hide Run;
    forall f | f in builds[v] && !Excluded(Build(v, f)) ensures FileHere(s, v, f) {
      CompleteFile(builds, before, later, v, f);
    }
  }

  lemma MarkedHasMarker(builds: Builds, s: State, v: Version)
    requires KeptInv(builds, s) && v in builds && v in s.volume.complete
    ensures HasUploadMarker(s.bucket, v)
  {
    assert Protected(builds, UploadMarker(v));
  }

  // ---------------------------------------------------------------- listings that nothing is added to behind

  /** The event uploads a file of the version behind the place that a reading of the listings has come to. */
  predicate AddsBehind(s: State, e: Event, v: Version) {
    e.PutFile? && e.v == v && s.sidecar.Syncing? && !s.sidecar.cursor.End? && !Ahead(Build(v, e.f), s.sidecar.cursor)
  }

  predicate NeverAddsBehind(builds: Builds, s: State, events: seq<Event>, v: Version)
    decreases |events|
  {
    events == [] || (!AddsBehind(s, events[0], v) && NeverAddsBehind(builds, Step(builds, s, events[0]), events[1..], v))
  }

  lemma NotMissedKept(builds: Builds, s: State, e: Event, v: Version, f: Name)
    requires Ships(builds, v, f) && !ShipsMarker(builds, v)
    requires KeptInv(builds, s) && NotMissed(s, v, f) && !AddsBehind(s, e, v)
    ensures NotMissed(Step(builds, s, e), v, f)
  {
    if Enabled(builds, s, e) {
      if e.Look? {
        assert Build(v, f) in s.bucket.objects ==> Build(v, f) in Seen(s.bucket, s.volume);
      } else {
        hide Ahead, NextPlace, NothingAhead, AllUploaded, Missing, Leftover, AllMarked;
        assert Protected(builds, Build(v, f));
      }
    }
  }

  lemma {:induction false} FileWhenNeverBehind(builds: Builds, s: State, events: seq<Event>, v: Version, f: Name)
    requires Ships(builds, v, f) && !ShipsMarker(builds, v) && NeverAddsBehind(builds, s, events, v)
    requires KeptInv(builds, s) && FileInv(s, v, f) && NotMissed(s, v, f)
    ensures FileInv(Run(builds, s, events), v, f)
    decreases |events|
  {
    if events != [] {
      StepKeepsFile(builds, s, events[0], v, f);
      StepKeeps(builds, s, events[0]);
      NotMissedKept(builds, s, events[0], v, f);
      hide KeptInv, FileInv, NotMissed, AddsBehind, Step;
      FileWhenNeverBehind(builds, Step(builds, s, events[0]), events[1..], v, f);
    }
  }

  /** Names do not matter in a run in which no file of the version is added behind such a place, as when every
      listing takes one page. */
  predicate Orderly(builds: Builds, events: seq<Event>, v: Version) {
    || Plain(builds, v)
    || (v in builds && !ShipsMarker(builds, v) && NeverAddsBehind(builds, Initial(), events, v))
  }

  /** In such a run, and for a plain version in every run, what is marked is whole. */
  lemma WholeWhenOrderly(builds: Builds, events: seq<Event>, v: Version)
    requires Orderly(builds, events, v) && v in Run(builds, Initial(), events).volume.complete
    ensures WholeOnVolume(builds, Run(builds, Initial(), events), v)
  {
    if Plain(builds, v) {
      CompleteBuild(builds, events, [], v);
    } else {
      InitialKept(builds);
      KeptAlways(builds, Initial(), events);
      hide Run, KeptInv;
      forall f | f in builds[v] && !Excluded(Build(v, f)) ensures FileHere(Run(builds, Initial(), events), v, f) {
        InitialFile(builds, v, f);
        FileWhenNeverBehind(builds, Initial(), events, v, f);
        HereWhenComplete(builds, Run(builds, Initial(), events), v, f);
      }
    }
  }

  /** What a mark is good for after a run: the whole build, if it is plain or the run adds nothing behind; in any
      case each of its files that comes after the marker, if it does not ship that name. */
  ghost predicate MarkHolds(builds: Builds, events: seq<Event>, v: Version)
    requires v in builds
  {
    var s := Run(builds, Initial(), events);
    && (Orderly(builds, events, v) ==> WholeOnVolume(builds, s, v))
    && (forall f | Ships(builds, v, f) && !ShipsMarker(builds, v) && AfterMarker(f) :: FileHere(s, v, f))
  }

  lemma MarkedHolds(builds: Builds, events: seq<Event>, v: Version)
    requires v in builds && v in Run(builds, Initial(), events).volume.complete
    ensures MarkHolds(builds, events, v)
  {
    if Orderly(builds, events, v) {
      WholeWhenOrderly(builds, events, v);
    }
    forall f | Ships(builds, v, f) && !ShipsMarker(builds, v) && AfterMarker(f)
      ensures FileHere(Run(builds, Initial(), events), v, f)
    {
      CompleteFile(builds, events, [], v, f);
    }
  }
}
