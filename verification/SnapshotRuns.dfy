/** The stored project when clears fail, and the cache when probes meet the functions that change
    the store: exactly when what is reported stays right, and runs in which it does not. */
module SnapshotRuns {
  import opened Options
  import opened SnapshotStore

  // ---- What a build can do with what it finds ---------------------------------------------------

  /** What is reported is stored whole: archive and metadata of one upload that was built. */
  predicate WholeAt(s: State) {
    Read(s.files).Some? ==>
      s.files[PromotedBlob] == Whole(Read(s.files).value) && Read(s.files).value in s.built
  }

  /** Metadata that parses is about an upload that was built. */
  predicate MetaBuilt(s: State) {
    PromotedMeta in s.files && s.files[PromotedMeta].Whole? ==> s.files[PromotedMeta].upload in s.built
  }

  predicate BothStaged(f: Files) { StagedBlob in f && StagedMeta in f }

  /** The archive waiting to be promoted goes with the metadata that will be beside it: first the
      promoted, then the staged. */
  predicate Matching(f: Files)
    requires StagedBlob in f && StagedMeta in f
  {
    && (PromotedMeta in f && f[PromotedMeta].Whole? ==> f[StagedBlob] == f[PromotedMeta])
    && (f[StagedMeta].Whole? ==> f[StagedBlob] == f[StagedMeta])
  }

  /** A build may start: promote() would find nothing to promote, or an archive and metadata that
      match and are of this upload or one built before. */
  predicate Safe(s: State) {
    BothStaged(s.files) ==>
      && Matching(s.files)
      && (s.files[StagedMeta].Whole? ==> s.files[StagedMeta].upload in s.built + {s.upload})
  }

  /** What the place says about the files while a build that started safely goes on. */
  predicate Progress(s: State) {
    match s.place
    case Building => Safe(s)
    case Checking => Safe(s) && s.upload in s.built
    case ReplacingBlob => BothStaged(s.files) && Safe(s) && s.upload in s.built
    case ReplacingMeta =>
      StagedMeta in s.files && (s.files[StagedMeta].Whole? ==>
        PromotedBlob in s.files && s.files[PromotedBlob] == s.files[StagedMeta] &&
        s.files[StagedMeta].upload in s.built)
    case _ => true
  }

  predicate SafeInv(s: State) { WholeAt(s) && MetaBuilt(s) && Progress(s) }

  lemma StepStaysSafe(s: State, a: Action)
    requires SafeInv(s) && Enabled(s, a) && (a.StartBuild? ==> Safe(s))
    ensures SafeInv(Next(s, a))
  {
  }

  /** Every build of the run starts safely. */
  ghost predicate SafeRun(s: State, run: seq<Action>)
    decreases run
  {
    run != [] && Enabled(s, run[0]) ==> (run[0].StartBuild? ==> Safe(s)) && SafeRun(Next(s, run[0]), run[1..])
  }

  lemma {:induction false} SafeInvHolds(s: State, run: seq<Action>, t: State)
    requires SafeInv(s) && Reaches(s, run, t) && SafeRun(s, run)
    ensures SafeInv(t)
    decreases run
  {
    if run != [] {
      StepStaysSafe(s, run[0]);
      SafeInvHolds(Next(s, run[0]), run[1..], t);
    }
  }

  /** Clears may fail: as long as every build starts safely, a project that is reported is stored
      whole at every point of the run, crashes included. */
  lemma SafeBuildsStoreWholeProjects(run: seq<Action>, t: State)
    requires Reaches(Start(), run, t) && SafeRun(Start(), run)
    ensures WholeAt(t)
  {
    SafeInvHolds(Start(), run, t);
  }

  /** Clears that succeed make every build safe. */
  lemma {:induction false} ClearsMakeBuildsSafe(s: State, run: seq<Action>)
    requires Inv(s) && ClearFails !in run
    ensures SafeRun(s, run)
    decreases run
  {
    if run != [] && Enabled(s, run[0]) {
      StepKeepsInv(s, run[0]);
      ClearsMakeBuildsSafe(Next(s, run[0]), run[1..]);
    }
  }

  predicate OneBuild(run: seq<Action>) {
    forall a :: a in run ==> !a.StartBuild?
  }

  lemma {:induction false} OneBuildIsSafe(s: State, run: seq<Action>)
    requires OneBuild(run)
    ensures SafeRun(s, run)
    decreases run
  {
    if run != [] && Enabled(s, run[0]) {
      assert run[0] in run;
      OneBuildIsSafe(Next(s, run[0]), run[1..]);
    }
  }

  /** Whatever happens from here until another build starts, what is reported is whole. */
  ghost predicate StaysWhole(s: State) {
    forall run, t :: OneBuild(run) && Reaches(s, run, t) ==> WholeAt(t)
  }

  /** A build that starts otherwise, succeeds and is cut off at the worst moment. */
  lemma UnsafeBuildMixes(s: State) returns (run: seq<Action>, t: State)
    requires s.place == SnapshotStore.Building && !Safe(s) && MetaBuilt(s)
    ensures Reaches(s, run, t) && OneBuild(run) && !WholeAt(t)
  {
    var s1 := Next(s, EndBuild(true));
    var s2 := Next(s1, Check);
    var s3 := Next(s2, Replace(true));
    if WholeAt(s3) {
      t := Next(s3, Replace(true));
      OneMore(s3, Replace(true), [], t);
      run := [Replace(true)] + [];
    } else {
      run, t := [], s3;
    }
    OneMore(s2, Replace(true), run, t);
    run := [Replace(true)] + run;
    OneMore(s1, Check, run, t);
    run := [Check] + run;
    OneMore(s, EndBuild(true), run, t);
    run := [EndBuild(true)] + run;
  }

  /** A build that is about to start leaves the store whole whatever becomes of it exactly when it
      starts safely. */
  lemma BuildStaysWholeExactlyWhen(s: State, run: seq<Action>)
    requires Reaches(Start(), run, s) && SafeRun(Start(), run) && Enabled(s, StartBuild)
    ensures StaysWhole(Next(s, StartBuild)) <==> Safe(s)
  {
    SafeInvHolds(Start(), run, s);
    var b := Next(s, StartBuild);
    if Safe(s) {
      forall later, t | OneBuild(later) && Reaches(b, later, t) ensures WholeAt(t) {
        OneBuildIsSafe(b, later);
        SafeInvHolds(b, later, t);
      }
    } else {
      var later, t := UnsafeBuildMixes(b);
    }
  }

  // ---- The cache --------------------------------------------------------------------------------

  /** What a reader would find after each of the two replacements. */
  function BlobReplaced(f: Files): Files { Move(f, StagedBlob, PromotedBlob) }

  function MetaReplaced(f: Files): Files { Move(f, StagedMeta, PromotedMeta) }

  predicate PromotionShows(f: Files) {
    Read(BlobReplaced(f)) != Read(f) || Read(MetaReplaced(BlobReplaced(f))) != Read(f)
  }

  /** The function under way may still change what a reader finds, without forgetting the cache
      again: a clear with something to remove, a promote with something to show. */
  predicate MayChange(s: State) {
    match s.place
    case Clearing(_) => Read(s.files).Some?
    case StageClearing => Read(s.files).Some?
    case Unstaging => Read(s.files).Some?
    case Checking => BothStaged(s.files) && PromotionShows(s.files)
    case ReplacingBlob => PromotionShows(s.files)
    case ReplacingMeta => Read(MetaReplaced(s.files)) != Read(s.files)
    case _ => false
  }

  /** What is advertised is what a reader finds. */
  predicate FreshAt(s: State) {
    s.cache.Some? ==> s.cache.value == Read(s.files)
  }

  predicate Settled(s: State) {
    s.cache.Some? ==> s.cache.value == Read(s.files) && !MayChange(s)
  }

  /** A probe may fill the cache: what it read still holds and will not change under it. */
  predicate MayFill(s: State) {
    s.probe.Some? ==> s.probe.value == Read(s.files) && !MayChange(s)
  }

  lemma StepStaysSettled(s: State, a: Action)
    requires Settled(s) && Enabled(s, a) && (a.ProbeStore? ==> MayFill(s))
    ensures Settled(Next(s, a))
  {
  }

  ghost predicate FillsRightly(s: State, run: seq<Action>)
    decreases run
  {
    run != [] && Enabled(s, run[0]) ==>
      (run[0].ProbeStore? ==> MayFill(s)) && FillsRightly(Next(s, run[0]), run[1..])
  }

  /** Probes may read at any time: as long as each fills the cache only when it may, what is
      advertised is what a fresh read would give. */
  lemma {:induction false} AdvertisedIsFresh(s: State, run: seq<Action>, t: State)
    requires Settled(s) && Reaches(s, run, t) && FillsRightly(s, run)
    ensures FreshAt(t)
    decreases run
  {
    if run != [] {
      StepStaysSettled(s, run[0]);
      AdvertisedIsFresh(Next(s, run[0]), run[1..], t);
    }
  }

  predicate NoFill(run: seq<Action>) { ProbeStore !in run }

  lemma {:induction false} NoFillIsRight(s: State, run: seq<Action>)
    requires NoFill(run)
    ensures FillsRightly(s, run)
    decreases run
  {
    if run != [] && Enabled(s, run[0]) {
      NoFillIsRight(Next(s, run[0]), run[1..]);
    }
  }

  /** Whatever happens until the cache is filled again, what is advertised is fresh. */
  ghost predicate StaysFresh(s: State) {
    forall run, t :: NoFill(run) && Reaches(s, run, t) ==> FreshAt(t)
  }

  lemma ClearingGoesStale(s: State) returns (run: seq<Action>, t: State)
    requires InClear(s.place) && FreshAt(s) && s.cache.Some? && MayChange(s)
    ensures Reaches(s, run, t) && NoFill(run) && !FreshAt(t)
  {
    t := Next(s, Remove(PromotedMeta));
    OneMore(s, Remove(PromotedMeta), [], t);
    run := [Remove(PromotedMeta)] + [];
  }

  lemma PromotingGoesStale(s: State) returns (run: seq<Action>, t: State)
    requires !InClear(s.place) && FreshAt(s) && s.cache.Some? && MayChange(s) && !s.place.Checking?
    ensures Reaches(s, run, t) && NoFill(run) && !FreshAt(t)
  {
    var s1 := Next(s, Replace(true));
    if s.place.ReplacingBlob? && FreshAt(s1) {
      t := Next(s1, Replace(true));
      OneMore(s1, Replace(true), [], t);
      run := [Replace(true)] + [];
    } else {
      run, t := [], s1;
    }
    OneMore(s, Replace(true), run, t);
    run := [Replace(true)] + run;
  }

  lemma UnsettledGoesStale(s: State) returns (run: seq<Action>, t: State)
    requires s.cache.Some? && !Settled(s)
    ensures Reaches(s, run, t) && NoFill(run) && !FreshAt(t)
  {
    if !FreshAt(s) {
      run, t := [], s;
    } else if InClear(s.place) {
      run, t := ClearingGoesStale(s);
    } else if s.place.Checking? {
      var s1 := Next(s, Check);
      run, t := PromotingGoesStale(s1);
      OneMore(s, Check, run, t);
      run := [Check] + run;
    } else {
      run, t := PromotingGoesStale(s);
    }
  }

  /** Filling the cache leaves what is advertised fresh, until it is filled again, exactly when what
      the probe read still holds and the function under way will not change it. */
  lemma FillStaysFreshExactlyWhen(s: State)
    requires Enabled(s, ProbeStore)
    ensures StaysFresh(Next(s, ProbeStore)) <==> MayFill(s)
  {
    var filled := Next(s, ProbeStore);
    if MayFill(s) {
      forall run, t | NoFill(run) && Reaches(filled, run, t) ensures FreshAt(t) {
        NoFillIsRight(filled, run);
        AdvertisedIsFresh(filled, run, t);
      }
    } else {
      var run, t := UnsettledGoesStale(filled);
    }
  }

  // ---- Runs in which less holds -------------------------------------------------------------------

  lemma Stages(s: State) returns (run: seq<Action>, t: State)
    requires s.place.WritingBlob? && s.files == map[]
    ensures Reaches(s, run, t)
    ensures t == s.(place := SnapshotStore.Building, files := t.files)
    ensures t.files == map[StagedBlob := Whole(s.upload), StagedMeta := Whole(s.upload)]
  {
    var s1 := Next(s, Write(true));
    var s2 := Next(s1, Write(true));
    t := Next(s2, StartBuild);
    OneMore(s2, StartBuild, [], t);
    OneMore(s1, Write(true), [StartBuild] + [], t);
    run := [Write(true)] + ([Write(true)] + ([StartBuild] + []));
    OneMore(s, Write(true), run[1..], t);
  }

  /** An upload whose clears succeed, up to its build. */
  lemma Uploads(s: State) returns (run: seq<Action>, t: State)
    requires s.place.Idle? && s.files == map[] && s.probe.None?
    ensures Reaches(s, run, t)
    ensures t == s.(place := SnapshotStore.Building, cache := None, upload := s.upload + 1, files := t.files)
    ensures t.files == map[StagedBlob := Whole(t.upload), StagedMeta := Whole(t.upload)]
  {
    var s1 := Next(s, BeginUpload(true));
    var s2 := Next(s1, ClearDone);
    var s3 := Next(s2, Stage);
    var s4 := Next(s3, ClearDone);
    var late;
    late, t := Stages(s4);
    OneMore(s3, ClearDone, late, t);
    OneMore(s2, Stage, [ClearDone] + late, t);
    OneMore(s1, ClearDone, [Stage] + ([ClearDone] + late), t);
    run := [BeginUpload(true)] + ([ClearDone] + ([Stage] + ([ClearDone] + late)));
    OneMore(s, BeginUpload(true), run[1..], t);
  }

  /** The build succeeds and the archive is in place. */
  lemma PromotesBlob(s: State) returns (run: seq<Action>, t: State)
    requires s.place == SnapshotStore.Building && s.probe.None?
    requires s.files == map[StagedBlob := Whole(s.upload), StagedMeta := Whole(s.upload)]
    ensures Reaches(s, run, t)
    ensures t == s.(place := ReplacingMeta, cache := None, built := s.built + {s.upload}, files := t.files)
    ensures t.files == map[PromotedBlob := Whole(s.upload), StagedMeta := Whole(s.upload)]
  {
    var s1 := Next(s, EndBuild(true));
    var s2 := Next(s1, Check);
    t := Next(s2, Replace(true));
    OneMore(s2, Replace(true), [], t);
    OneMore(s1, Check, [Replace(true)] + [], t);
    run := [EndBuild(true)] + ([Check] + ([Replace(true)] + []));
    OneMore(s, EndBuild(true), run[1..], t);
  }

  /** The first upload of a device, up to the middle of its promote. */
  lemma FirstUpload() returns (run: seq<Action>, t: State)
    ensures Reaches(Start(), run, t)
    ensures t.place == ReplacingMeta && t.upload == 1 && t.cache.None? && t.probe.None?
    ensures t.files == map[PromotedBlob := Whole(1), StagedMeta := Whole(1)]
  {
    var up, s1 := Uploads(Start());
    var on;
    on, t := PromotesBlob(s1);
    Join(Start(), up, s1, on, t);
    run := up + on;
  }

  /** A probe during that promote: the read finds nothing yet, and the store comes after the end.
      The project is there and stays unadvertised. */
  lemma ProbeDuringPromoteIsStale() returns (run: seq<Action>, t: State)
    ensures Reaches(Start(), run, t) && t.place.Idle?
    ensures t.cache == Some(None) && Read(t.files) == Some(1)
  {
    var up, s := FirstUpload();
    var s1 := Next(s, ProbeRead);
    var s2 := Next(s1, Replace(true));
    t := Next(s2, ProbeStore);
    OneMore(s2, ProbeStore, [], t);
    OneMore(s1, Replace(true), [ProbeStore] + [], t);
    var on := [ProbeRead] + ([Replace(true)] + ([ProbeStore] + []));
    OneMore(s, ProbeRead, on[1..], t);
    Join(Start(), up, s, on, t);
    run := up + on;
  }

  lemma BuiltOverOld(s: State, earlier: nat) returns (run: seq<Action>, t: State)
    requires s.place == SnapshotStore.Building && PromotedMeta in s.files && s.files[PromotedMeta] == Whole(earlier)
    requires StagedBlob in s.files && StagedMeta in s.files && s.files[StagedBlob] == Whole(s.upload)
    ensures Reaches(s, run, t) && t.place.Idle?
    ensures Read(t.files) == Some(earlier) && t.files[PromotedBlob] == Whole(s.upload)
  {
    var s1 := Next(s, EndBuild(true));
    var s2 := Next(s1, Check);
    var s3 := Next(s2, Replace(true));
    t := Next(s3, Crash);
    OneMore(s3, Crash, [], t);
    run := [Crash] + [];
    OneMore(s2, Replace(true), run, t);
    run := [Replace(true)] + run;
    OneMore(s1, Check, run, t);
    run := [Check] + run;
    OneMore(s, EndBuild(true), run, t);
    run := [EndBuild(true)] + run;
  }

  lemma StagedOverOld(s: State, earlier: nat) returns (run: seq<Action>, t: State)
    requires s.place == WritingBlob && s.files == map[PromotedBlob := Whole(earlier), PromotedMeta := Whole(earlier)]
    ensures Reaches(s, run, t) && t.place.Idle?
    ensures Read(t.files) == Some(earlier) && t.files[PromotedBlob] == Whole(s.upload)
  {
    var s1 := Next(s, Write(true));
    var s2 := Next(s1, Write(true));
    var s3 := Next(s2, StartBuild);
    assert StagedBlob in s3.files && StagedMeta in s3.files && s3.files[StagedBlob] == Whole(s.upload);
    run, t := BuiltOverOld(s3, earlier);
    OneMore(s2, StartBuild, run, t);
    run := [StartBuild] + run;
    OneMore(s1, Write(true), run, t);
    run := [Write(true)] + run;
    OneMore(s, Write(true), run, t);
    run := [Write(true)] + run;
  }

  lemma UploadsOverOld(s: State) returns (run: seq<Action>, t: State)
    requires s.place.Idle? && s.files == map[PromotedBlob := Whole(s.upload), PromotedMeta := Whole(s.upload)]
    ensures Reaches(s, run, t) && t.place.Idle?
    ensures Read(t.files) == Some(s.upload) && t.files[PromotedBlob] == Whole(s.upload + 1)
  {
    var s1 := Next(s, BeginUpload(true));
    var s2 := Next(s1, ClearFails);
    var s3 := Next(s2, Stage);
    var s4 := Next(s3, ClearFails);
    var late;
    late, t := StagedOverOld(s4, s.upload);
    OneMore(s3, ClearFails, late, t);
    OneMore(s2, Stage, [ClearFails] + late, t);
    OneMore(s1, ClearFails, [Stage] + ([ClearFails] + late), t);
    run := [BeginUpload(true)] + ([ClearFails] + ([Stage] + ([ClearFails] + late)));
    OneMore(s, BeginUpload(true), run[1..], t);
  }

  /** A second upload whose clears fail and a crash between the two replacements: the metadata of
      the first beside the archive of the second. */
  lemma FailedClearMixesUploads() returns (run: seq<Action>, t: State)
    ensures Reaches(Start(), run, t) && t.place.Idle?
    ensures Read(t.files) == Some(1) && t.files[PromotedBlob] == Whole(2)
  {
    var up, s := FirstUpload();
    var s1 := Next(s, Replace(true));
    var on;
    on, t := UploadsOverOld(s1);
    OneMore(s, Replace(true), on, t);
    Join(Start(), up, s, [Replace(true)] + on, t);
    run := up + ([Replace(true)] + on);
  }
}
