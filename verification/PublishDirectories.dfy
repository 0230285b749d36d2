/** Which build directories are on the volume: those into which a file was copied since they were last removed.  A
    sync that deletes files, or a mark that is taken back, leaves the directory. */
module PublishDirectories {
  import opened Text
  import opened Keys
  import opened Publish
  import opened PublishUpdates

  /** A marked directory is one that a file was copied into. */
  ghost predicate MarkedExist(volume: Volume) {
    volume.complete <= Directories(volume.files) + volume.emptied
  }

  /** The event copies a file into the directory of `v`. */
  predicate Fills(builds: Builds, s: State, e: Event, v: Version) {
    Enabled(builds, s, e) && e.Download? && e.k.Build? && e.k.version == v
  }

  predicate Removes(builds: Builds, s: State, e: Event, v: Version) {
    Enabled(builds, s, e) && e == PruneNext(v)
  }

  lemma FillStep(volume: Volume, k: Key, tag: Tag, v: Version)
    requires MarkedExist(volume)
    ensures var after := volume.(files := volume.files[k := tag]);
            MarkedExist(after) && (v in Present(after) <==> v in Present(volume) || (k.Build? && k.version == v))
  {
    var after := volume.files[k := tag];
    assert forall q | q in volume.files :: q in after;
    if v in Directories(volume.files) {
      var q :| q in volume.files && q.Build? && q.version == v;
      assert q in after;
    }
    if k.Build? && k.version == v {
      assert k in after;
    }
    forall u | u in Directories(volume.files) ensures u in Directories(after) {
      var q :| q in volume.files && q.Build? && q.version == u;
      assert q in after;
    }
  }

  lemma DeleteStep(volume: Volume, k: Key, v: Version)
    requires MarkedExist(volume) && k in volume.files
    ensures MarkedExist(DeleteFile(volume, k)) && (v in Present(DeleteFile(volume, k)) <==> v in Present(volume))
  {
    var after := DeleteFile(volume, k);
    forall u | u in Directories(volume.files) ensures u in Directories(after.files) + after.emptied {
      var q :| q in volume.files && q.Build? && q.version == u;
      assert q != k ==> q in after.files;
    }
    assert Directories(after.files) <= Directories(volume.files);
    assert k.Build? ==> k.version in Directories(volume.files);
  }

  lemma RemoveStep(volume: Volume, gone: Version, v: Version)
    requires MarkedExist(volume)
    ensures MarkedExist(RemoveDirectory(volume, gone))
    ensures v in Present(RemoveDirectory(volume, gone)) <==> v in Present(volume) && v != gone
  {
    var after := RemoveDirectory(volume, gone);
    forall u | u != gone ensures u in Directories(volume.files) <==> u in Directories(after.files) {
      if u in Directories(volume.files) {
        var q :| q in volume.files && q.Build? && q.version == u;
        assert q in after.files;
      }
    }
    assert gone !in Directories(after.files);
  }

  lemma MarkStep(volume: Volume, marked: Version, v: Version)
    requires MarkedExist(volume)
    ensures MarkedExist(MarkOne(volume, marked)) && (v in Present(MarkOne(volume, marked)) <==> v in Present(volume))
  {
    assert UploadMarker(marked) in volume.files ==> UploadMarker(marked).version in Directories(volume.files);
  }

  // ---------------------------------------------------------------- runs

  /** What a sync is going to delete is on the volume. */
  ghost predicate DirectoriesInv(s: State) {
    MarkedExist(s.volume) && (s.sidecar.Syncing? ==> s.sidecar.doomed <= s.volume.files.Keys)
  }

  lemma StepDirectories(builds: Builds, s: State, e: Event, v: Version)
    requires DirectoriesInv(s)
    ensures DirectoriesInv(Step(builds, s, e))
    ensures v in Present(Step(builds, s, e).volume) <==>
            Fills(builds, s, e, v) || (v in Present(s.volume) && !Removes(builds, s, e, v))
  {
    if Enabled(builds, s, e) {
      hide MarkedExist, Present, NextPlace, NothingAhead, MarkOne, RemoveDirectory, Directories;
      match e {
        case Download(k) => FillStep(s.volume, k, s.bucket.objects[k], v);
        case Discard(k) => DeleteStep(s.volume, k, v);
        case PruneNext(u) => RemoveStep(s.volume, u, v);
        case MarkNext(u) => MarkStep(s.volume, u, v);
        case Poll => SameDirectories(s.volume, NewEtag(s.bucket, s.volume), v);
        case _ =>
      }
    }
  }

  lemma SameDirectories(volume: Volume, etag: Option<Etag>, v: Version)
    ensures var after := volume.(stored := etag);
            && (MarkedExist(after) <==> MarkedExist(volume))
            && (v in Present(after) <==> v in Present(volume))
  {
  }

  /** The `k`-th event copied a file into the directory, and none removed it later. */
  ghost predicate FilledAt(builds: Builds, events: seq<Event>, k: int, v: Version) {
    && 0 <= k < |events| && Fills(builds, Run(builds, Initial(), events[..k]), events[k], v)
    && forall j | k < j < |events| :: !Removes(builds, Run(builds, Initial(), events[..j]), events[j], v)
  }

  ghost predicate Filled(builds: Builds, events: seq<Event>, v: Version) {
    exists k :: FilledAt(builds, events, k, v)
  }

  lemma FilledLast(builds: Builds, events: seq<Event>, v: Version)
    requires events != []
    ensures var n := |events| - 1;
            var s := Run(builds, Initial(), events[..n]);
            Filled(builds, events, v) <==>
            Fills(builds, s, events[n], v) || (Filled(builds, events[..n], v) && !Removes(builds, s, events[n], v))
  {
    hide Run, Fills, Removes;
    var n := |events| - 1;
    var s := Run(builds, Initial(), events[..n]);
    assert forall k | 0 <= k <= n :: events[..n][..k] == events[..k];
    forall k | 0 <= k < n
      ensures FilledAt(builds, events, k, v) <==> FilledAt(builds, events[..n], k, v) && !Removes(builds, s, events[n], v)
    {
      assert events[..n][..k] == events[..k];
      assert forall j | k < j < n :: events[..n][j] == events[j] && events[..n][..j] == events[..j];
    }
    assert FilledAt(builds, events, n, v) <==> Fills(builds, s, events[n], v);
  }

  /** After every run a build's directory is on the volume exactly when a file was copied into it since it was last
      removed, whatever was deleted from it or marked in the meantime. */
  lemma {:induction false} DirectoryThereIff(builds: Builds, events: seq<Event>, v: Version)
    ensures DirectoriesInv(Run(builds, Initial(), events))
    ensures v in Present(Run(builds, Initial(), events).volume) <==> Filled(builds, events, v)
    decreases |events|
  {
    if events != [] {
      var n := |events| - 1;
      DirectoryThereIff(builds, events[..n], v);
      RunLast(builds, Initial(), events);
      FilledLast(builds, events, v);
      hide Run, Step, Filled, Fills, Removes, DirectoriesInv, Present;
      StepDirectories(builds, Run(builds, Initial(), events[..n]), events[n], v);
    }
  }
}
