/** Which names are safe to ship.  The upload marker vouches for the files of its build exactly when its name
    comes before theirs: a listing is read in the order of the names while the upload goes on. */
module PublishNames {
  import opened Text
  import opened Keys
  import opened Publish
  import opened PublishFiles

  /** A file that a build ships under the download marker's name never reaches the volume, so "every
      uploaded file" holds exactly for the builds that ship none. */
  lemma ShippedDownloadMarkerIsSkipped(builds: Builds, events: seq<Event>, v: Version, f: Name)
    requires Orderly(builds, events, v) && f in builds[v]
    ensures var s := Run(builds, Initial(), events);
            v in s.volume.complete ==> (Build(v, f) in s.volume.files <==> !Excluded(Build(v, f)))
  {
    InitialKept(builds);
    KeptAlways(builds, Initial(), events);
    if v in Run(builds, Initial(), events).volume.complete {
      WholeWhenOrderly(builds, events, v);
    }
  }

  // ---------------------------------------------------------------- what can always go on

  /** The uploader of a version can upload what is missing of it. */
  lemma {:induction false} PutRest(builds: Builds, s: State, v: Version) returns (puts: seq<Event>)
    requires v in builds
    ensures var after := Run(builds, s, puts);
            && AllUploaded(builds, after.bucket, v) && s.bucket.objects.Keys <= after.bucket.objects.Keys
            && after == s.(bucket := after.bucket) && after.bucket.finished == s.bucket.finished
            && after.bucket.writes >= s.bucket.writes
    decreases |NotUploaded(builds, s, v)|
  {
    if NotUploaded(builds, s, v) == {} {
      puts := [];
      forall f | f in builds[v] ensures Build(v, f) in s.bucket.objects {
        assert f !in NotUploaded(builds, s, v);
      }
    } else {
      var f :| f in NotUploaded(builds, s, v);
      var next := Step(builds, s, PutFile(v, f));
      assert NotUploaded(builds, next, v) == NotUploaded(builds, s, v) - {f};
      var rest := PutRest(builds, next, v);
      puts := [PutFile(v, f)] + rest;
      assert puts[1..] == rest;
    }
  }

  function NotUploaded(builds: Builds, s: State, v: Version): set<Name>
    requires v in builds
  {
    set f | f in builds[v] && Build(v, f) !in s.bucket.objects
  }

  /** A sync that has read the listings to their end can copy everything it found. */
  lemma {:induction false} DownloadAll(builds: Builds, s: State) returns (copies: seq<Event>)
    requires s.sidecar.Syncing? && s.sidecar.todo <= s.bucket.objects.Keys
    ensures Downloaded(s, Run(builds, s, copies), s.sidecar.todo)
    decreases |s.sidecar.todo|
  {
    if s.sidecar.todo == {} {
      copies := [];
    } else {
      var k :| k in s.sidecar.todo;
      var next := Step(builds, s, Download(k));
      DownloadOne(builds, s, k);
      hide Step, Downloaded;
      var rest := DownloadAll(builds, next);
      copies := [Download(k)] + rest;
      assert copies[1..] == rest;
      DownloadedMore(s, next, Run(builds, next, rest), k);
    }
  }

  /** These keys were downloaded, and nothing else has changed. */
  ghost predicate Downloaded(s: State, after: State, keys: set<Key>)
    requires s.sidecar.Syncing?
  {
    && after.sidecar.Syncing? && after == s.(volume := after.volume, sidecar := after.sidecar)
    && after.sidecar == s.sidecar.(todo := s.sidecar.todo - keys, changed := s.sidecar.changed || keys != {})
    && after.volume == s.volume.(files := after.volume.files)
    && after.volume.files.Keys == s.volume.files.Keys + keys
  }

  lemma DownloadOne(builds: Builds, s: State, k: Key)
    requires s.sidecar.Syncing? && k in s.sidecar.todo && k in s.bucket.objects
    ensures Downloaded(s, Step(builds, s, Download(k)), {k})
  {
  }

  lemma DownloadedMore(s: State, next: State, after: State, k: Key)
    requires s.sidecar.Syncing? && next.sidecar.Syncing? && k in s.sidecar.todo
    requires Downloaded(s, next, {k}) && Downloaded(next, after, next.sidecar.todo)
    ensures Downloaded(s, after, s.sidecar.todo)
  {
    assert s.sidecar.todo == {k} + next.sidecar.todo;
  }

  // ---------------------------------------------------------------- a build that ships the marker's name

  /** A build directory that was itself synced holds an upload marker.  The upload may copy that file before
      the others, a sync in between marks the build, and the server is launched on a part of it. */
  function EarlyMarker(v: Version): seq<Event> {
    [PutFile(v, UPLOAD_COMPLETE), List(true), PruneEnd] + [Look(UploadMarker(v)), LookEnd] +
    [Download(UploadMarker(v)), SyncEnd, MarkNext(v)]
  }

  function OnlyMarkerUploaded(v: Version): Bucket {
    Bucket(map[UploadMarker(v) := 0], 1, None, {}, map[])
  }

  lemma EarlyMarkerListed(builds: Builds, v: Version)
    requires v in builds && UPLOAD_COMPLETE in builds[v]
    ensures Run(builds, Initial(), [PutFile(v, UPLOAD_COMPLETE), List(true), PruneEnd]) ==
            State(OnlyMarkerUploaded(v), Volume(map[], {}, None, {}), Syncing(Start, {}, {}, false), true, true)
  {
    var u := UploadMarker(v);
    Three(builds, Initial(), PutFile(v, UPLOAD_COMPLETE), List(true), PruneEnd);
    var s1 := Step(builds, Initial(), PutFile(v, UPLOAD_COMPLETE));
    assert s1.bucket == OnlyMarkerUploaded(v);
    assert u in s1.bucket.objects;
    assert Present(Volume(map[], {}, None, {})) == {};
  }

  lemma EarlyMarkerSeen(builds: Builds, v: Version)
    ensures Run(builds, State(OnlyMarkerUploaded(v), Volume(map[], {}, None, {}), Syncing(Start, {}, {}, false), true, true),
                [Look(UploadMarker(v)), LookEnd]) ==
            State(OnlyMarkerUploaded(v), Volume(map[], {}, None, {}), Syncing(End, {UploadMarker(v)}, {}, false), true, true)
  {
    var u := UploadMarker(v);
    assert !Excluded(u);
    FindsTheOnly(builds, State(OnlyMarkerUploaded(v), Volume(map[], {}, None, {}), Syncing(Start, {}, {}, false), true, true), u);
  }

  lemma EarlyMarkerCopied(builds: Builds, v: Version)
    ensures var s := Run(builds, State(OnlyMarkerUploaded(v), Volume(map[], {}, None, {}),
                                       Syncing(End, {UploadMarker(v)}, {}, false), true, true),
                         [Download(UploadMarker(v)), SyncEnd, MarkNext(v)]);
            s == State(OnlyMarkerUploaded(v), Volume(map[UploadMarker(v) := 0], {v}, None, {}), Marking({}), true, true)
  {
    var u := UploadMarker(v);
    var s := State(OnlyMarkerUploaded(v), Volume(map[], {}, None, {}), Syncing(End, {u}, {}, false), true, true);
    Three(builds, s, Download(u), SyncEnd, MarkNext(v));
    var copied: map<Key, Tag> := map[u := 0];
    assert u in copied && Directories(copied) == {v};
    assert s.volume.files[u := 0] == copied;
    assert {u} - {u} == {};
    assert Present(Volume(copied, {}, None, {})) == {v};
    assert {v} - {v} == {} && {} + {v} == {v};
  }

  lemma {:induction false} EarlyMarkerMarksPart(builds: Builds, v: Version)
    requires v in builds && UPLOAD_COMPLETE in builds[v]
    ensures Run(builds, Initial(), EarlyMarker(v)) ==
            State(OnlyMarkerUploaded(v), Volume(map[UploadMarker(v) := 0], {v}, None, {}), Marking({}), true, true)
  {
    var a, b, c := [PutFile(v, UPLOAD_COMPLETE), List(true), PruneEnd], [Look(UploadMarker(v)), LookEnd],
                   [Download(UploadMarker(v)), SyncEnd, MarkNext(v)];
    RunSplit(builds, Initial(), a + b, c);
    RunSplit(builds, Initial(), a, b);
    EarlyMarkerListed(builds, v);
    EarlyMarkerSeen(builds, v);
    EarlyMarkerCopied(builds, v);
  }

  /** Even if there is nothing else to miss, the uploader then writes its own marker over the shipped file, and
      what the volume holds under that name is not what the bucket holds. */
  lemma {:induction false} ShippedMarkerIsOverwritten(builds: Builds, v: Version) returns (events: seq<Event>)
    requires v in builds && UPLOAD_COMPLETE in builds[v]
    ensures var s := Run(builds, Initial(), events);
            v in s.volume.complete && !FileHere(s, v, UPLOAD_COMPLETE)
  {
    EarlyMarkerMarksPart(builds, v);
    var s := Run(builds, Initial(), EarlyMarker(v));
    var puts := PutRest(builds, s, v);
    var t := Run(builds, s, puts);
    events := EarlyMarker(v) + puts + [PutUploadMarker(v)];
    hide EarlyMarker;
    RunSplit(builds, Initial(), EarlyMarker(v) + puts, [PutUploadMarker(v)]);
    RunSplit(builds, Initial(), EarlyMarker(v), puts);
    One(builds, t, PutUploadMarker(v));
    hide Run;
    var end := Step(builds, t, PutUploadMarker(v));
    assert end.bucket.objects[UploadMarker(v)] == t.bucket.writes >= 1;
    assert end.volume.files[UploadMarker(v)] == 0;
  }

  // ---------------------------------------------------------------- a file before the marker

  const ELSEWHERE: Key := Root("x")

  /** A listing is read past the place of a file before anything is uploaded. */
  function ReadPast(v: Version, f: Name): seq<Event> {
    [OtherPut(ELSEWHERE), List(true), OtherDelete(ELSEWHERE)] + [PruneEnd, Look(Build(v, f))]
  }

  lemma NothingToSee(builds: Builds, s: State, k: Key)
    requires s.sidecar == Syncing(Start, {}, {}, false) && s.bucket.objects == map[] && s.volume.files == map[]
    ensures Step(builds, s, Look(k)) == s.(sidecar := Syncing(Past(k), {}, {}, false))
  {
    assert Seen(s.bucket, s.volume) == {};
    var none: set<Key> := {};
    assert Missing(s.bucket, s.volume) == none && Leftover(s.bucket, s.volume) == none;
    assert none + {k} * none == none;
  }

  lemma PlaceIsPassed(builds: Builds, v: Version, f: Name)
    ensures Run(builds, Initial(), ReadPast(v, f)) ==
            State(Bucket(map[], 1, None, {}, map[]), Volume(map[], {}, None, {}), Syncing(Past(Build(v, f)), {}, {}, false), true, true)
  {
    var a, b := [OtherPut(ELSEWHERE), List(true), OtherDelete(ELSEWHERE)], [PruneEnd, Look(Build(v, f))];
    RunSplit(builds, Initial(), a, b);
    ElsewhereListed(builds);
    var s3 := Run(builds, Initial(), a);
    hide Run, Initial;
    Two(builds, s3, PruneEnd, Look(Build(v, f)));
    NothingToSee(builds, Step(builds, s3, PruneEnd), Build(v, f));
  }

  lemma ElsewhereListed(builds: Builds)
    ensures Run(builds, Initial(), [OtherPut(ELSEWHERE), List(true), OtherDelete(ELSEWHERE)]) ==
            State(Bucket(map[], 1, None, {}, map[]), Volume(map[], {}, None, {}), Pruning({}, false), true, true)
  {
    Three(builds, Initial(), OtherPut(ELSEWHERE), List(true), OtherDelete(ELSEWHERE));
    var s1 := Step(builds, Initial(), OtherPut(ELSEWHERE));
    assert ELSEWHERE in s1.bucket.objects && s1.bucket.objects - {ELSEWHERE} == map[];
    assert Present(Volume(map[], {}, None, {})) == {};
  }

  /** From there the whole build is uploaded, and the sync goes on to its end and marks it. */
  lemma {:induction false} FileIsMissed(builds: Builds, v: Version, f: Name) returns (events: seq<Event>)
    requires v in builds && f in builds[v] && TextLess(f, UPLOAD_COMPLETE)
    ensures var s := Run(builds, Initial(), events);
            && v in s.volume.complete && Build(v, f) !in s.volume.files
            && AllUploaded(builds, s.bucket, v) && v in s.bucket.finished
  {
    PlaceIsPassed(builds, v, f);
    hide ReadPast;
    var s := Run(builds, Initial(), ReadPast(v, f));
    var puts := PutRest(builds, s, v);
    var t := Step(builds, Run(builds, s, puts), PutUploadMarker(v));
    UploadedMeanwhile(builds, s, Run(builds, s, puts), v);
    var looks := ReadOn(builds, t);
    PlaceIsMissed(t, Run(builds, t, looks), v, f);
    var copies := DownloadAll(builds, Run(builds, t, looks));
    var last := [SyncEnd, MarkNext(v)];
    MarkedNext(builds, Run(builds, Run(builds, t, looks), copies), v);
    events := ReadPast(v, f) + puts + [PutUploadMarker(v)] + looks + copies + last;
    hide Run, Step;
    FiveParts(builds, ReadPast(v, f), puts, PutUploadMarker(v), looks, copies, last);
  }

  lemma UploadedMeanwhile(builds: Builds, s: State, t: State, v: Version)
    requires v in builds && AllUploaded(builds, t.bucket, v) && v !in t.bucket.finished
    ensures var t' := Step(builds, t, PutUploadMarker(v));
            && t' == t.(bucket := t'.bucket) && AllUploaded(builds, t'.bucket, v)
            && HasUploadMarker(t'.bucket, v) && v in t'.bucket.finished
  {
  }

  /** The marker is found, the file is not. */
  lemma PlaceIsMissed(s: State, after: State, v: Version, f: Name)
    requires s.sidecar == Syncing(Past(Build(v, f)), {}, {}, false) && s.volume == Volume(map[], {}, None, {})
    requires HasUploadMarker(s.bucket, v) && TextLess(f, UPLOAD_COMPLETE) && ReadFrom(s, after)
    ensures UploadMarker(v) in after.sidecar.todo && Build(v, f) !in after.sidecar.todo
    ensures after.sidecar.todo <= after.bucket.objects.Keys && after.sidecar.doomed == {}
  {
    BeforeInDirectory(v, f, UPLOAD_COMPLETE);
    BeforeTotal(Build(v, f), Build(v, f));
    assert !Excluded(UploadMarker(v));
    assert UploadMarker(v) in Missing(s.bucket, s.volume);
    forall k | k in after.sidecar.todo ensures k in after.bucket.objects {
      assert k in Missing(s.bucket, s.volume);
    }
    forall k ensures k !in after.sidecar.doomed {
      assert k !in Leftover(s.bucket, s.volume);
    }
  }

  lemma MarkedNext(builds: Builds, s: State, v: Version)
    requires s.sidecar == Syncing(End, {}, {}, true) && UploadMarker(v) in s.volume.files
    ensures var after := Run(builds, s, [SyncEnd, MarkNext(v)]);
            v in after.volume.complete && after.volume.files == s.volume.files && after.bucket == s.bucket
  {
    Two(builds, s, SyncEnd, MarkNext(v));
    assert UploadMarker(v).version in Directories(s.volume.files);
  }

  lemma FiveParts(builds: Builds, a: seq<Event>, b: seq<Event>, e: Event, c: seq<Event>, d: seq<Event>, last: seq<Event>)
    ensures Run(builds, Initial(), a + b + [e] + c + d + last) ==
            Run(builds, Run(builds, Run(builds, Step(builds, Run(builds, Run(builds, Initial(), a), b), e), c), d), last)
  {
    RunSplit(builds, Initial(), a + b + [e] + c + d, last);
    RunSplit(builds, Initial(), a + b + [e] + c, d);
    RunSplit(builds, Initial(), a + b + [e], c);
    RunSplit(builds, Initial(), a + b, [e]);
    RunSplit(builds, Initial(), a, b);
    One(builds, Run(builds, Initial(), a + b), e);
  }

  // ---------------------------------------------------------------- exactly

  ghost predicate HereInEveryRun(builds: Builds, v: Version, f: Name) {
    forall events: seq<Event> | v in Run(builds, Initial(), events).volume.complete ::
      FileHere(Run(builds, Initial(), events), v, f)
  }

  lemma {:induction false} MissedInSomeRun(builds: Builds, v: Version, f: Name) returns (events: seq<Event>)
    requires Ships(builds, v, f) && (ShipsMarker(builds, v) || !AfterMarker(f))
    ensures var s := Run(builds, Initial(), events); v in s.volume.complete && !FileHere(s, v, f)
  {
    if !ShipsMarker(builds, v) {
      TextTotal(f, UPLOAD_COMPLETE);
      events := FileIsMissed(builds, v, f);
    } else if f == UPLOAD_COMPLETE {
      events := ShippedMarkerIsOverwritten(builds, v);
    } else {
      EarlyMarkerMarksPart(builds, v);
      events := EarlyMarker(v);
    }
  }

  /** Whatever else is shipped: a file is there in every run that marks its version exactly when the upload
      marker's name comes before it, and its build does not ship that name. */
  lemma {:induction false} FileExactlyWhen(builds: Builds, v: Version, f: Name)
    requires Ships(builds, v, f)
    ensures HereInEveryRun(builds, v, f) <==> !ShipsMarker(builds, v) && AfterMarker(f)
  {
    if !ShipsMarker(builds, v) && AfterMarker(f) {
      forall events: seq<Event> | v in Run(builds, Initial(), events).volume.complete
        ensures FileHere(Run(builds, Initial(), events), v, f)
      {
        CompleteFile(builds, events, [], v, f);
      }
    } else {
      var events := MissedInSomeRun(builds, v, f);
    }
  }

  ghost predicate WholeInEveryRun(builds: Builds, v: Version)
    requires v in builds
  {
    forall events: seq<Event> | v in Run(builds, Initial(), events).volume.complete ::
      WholeOnVolume(builds, Run(builds, Initial(), events), v)
  }

  /** A version is whole in every run that marks it exactly when the upload marker's name comes before those of
      all its files that a sync copies. */
  lemma {:induction false} WholeExactlyWhenPlain(builds: Builds, v: Version)
    requires v in builds
    ensures WholeInEveryRun(builds, v) <==> Plain(builds, v)
  {
    if Plain(builds, v) {
      forall events: seq<Event> | v in Run(builds, Initial(), events).volume.complete
        ensures WholeOnVolume(builds, Run(builds, Initial(), events), v)
      {
        CompleteBuild(builds, events, [], v);
      }
    } else {
      var f :| f in builds[v] && !Excluded(Build(v, f)) && !AfterMarker(f);
      var events := MissedInSomeRun(builds, v, f);
      assert !WholeOnVolume(builds, Run(builds, Initial(), events), v);
    }
  }

  /** An environment file is such a file. */
  lemma DotEnvIsMissed(builds: Builds, v: Version) returns (events: seq<Event>)
    requires v in builds && ".env" in builds[v]
    ensures var s := Run(builds, Initial(), events);
            && v in s.volume.complete && Build(v, ".env") !in s.volume.files
            && AllUploaded(builds, s.bucket, v) && v in s.bucket.finished
  {
    assert ".env"[1..] == "env" && UPLOAD_COMPLETE[1..] == "upload_complete";
    events := FileIsMissed(builds, v, ".env");
  }
}
