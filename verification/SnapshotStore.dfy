/** The stored project: an archive and its metadata, staged with an upload and promoted when the
    build succeeds, as four files changed one operation at a time, with a crash possible between
    any two; and the cache of what discovery advertises. */
module SnapshotStore {
  import opened Options

  datatype Name = PromotedBlob | PromotedMeta | StagedBlob | StagedMeta

  /** What a file holds: everything written for an upload, or part of it. */
  datatype Content = Whole(upload: nat) | Torn(upload: nat)

  type Files = map<Name, Content>

  /** Where the web server is between an upload's arrival and the end of its build. */
  datatype Place =
    | Idle
    | Clearing(wants: bool)
    | Ready(wants: bool)
    | StageClearing
    | WritingBlob
    | WritingMeta
    | Unstaging
    | Building
    | Checking
    | ReplacingBlob
    | ReplacingMeta
    | DroppingBlob
    | DroppingMeta

  /** upload: the number of the latest upload; built: those whose build succeeded; cache: what
      is advertised, once computed; probe: what a probe has read and not yet cached. */
  datatype State = State(
    files: Files,
    place: Place,
    upload: nat,
    built: set<nat>,
    cache: Option<Option<nat>>,
    probe: Option<Option<nat>>)

  datatype Action =
    | BeginUpload(wants: bool)
    | Remove(name: Name)
    | ClearDone
    | ClearFails
    | Stage
    | Abort
    | PartWrite
    | Write(ok: bool)
    | StartBuild
    | EndBuild(ok: bool)
    | Check
    | Replace(ok: bool)
    | Drop(ok: bool)
    | Crash
    | ProbeRead
    | ProbeStore

  /** The metadata, when it parses and the archive is there: the upload it is about. */
  function Read(f: Files): Option<nat> {
    if PromotedMeta in f && f[PromotedMeta].Whole? && PromotedBlob in f then Some(f[PromotedMeta].upload) else None
  }

  predicate InClear(p: Place) { p.Clearing? || p.StageClearing? || p.Unstaging? }

  predicate Enabled(s: State, a: Action) {
    match a
    case BeginUpload(_) => s.place.Idle?
    case Remove(_) => InClear(s.place)
    case ClearDone => InClear(s.place) && s.files == map[]
    case ClearFails => InClear(s.place)
    case Stage => s.place == Ready(true)
    case Abort => s.place.Ready?
    case PartWrite => s.place.WritingBlob? || s.place.WritingMeta?
    case Write(_) => s.place.WritingBlob? || s.place.WritingMeta?
    case StartBuild => s.place.Ready?
    case EndBuild(_) => s.place.Building?
    case Check => s.place.Checking?
    case Replace(_) => s.place.ReplacingBlob? || s.place.ReplacingMeta?
    case Drop(_) => s.place.DroppingBlob? || s.place.DroppingMeta?
    case Crash => true
    case ProbeRead => s.probe.None? && s.cache.None?
    case ProbeStore => s.probe.Some?
  }

  function Writing(p: Place): Name { if p.WritingBlob? then StagedBlob else StagedMeta }

  /** Every mutating function forgets the cache before it does anything. */
  function Enter(s: State, p: Place): State { s.(place := p, cache := None) }

  function AfterClear(p: Place): Place
    requires InClear(p)
  {
    match p
    case Clearing(wants) => Ready(wants)
    case StageClearing => WritingBlob
    case Unstaging => Ready(false)
  }

  function Move(f: Files, source: Name, target: Name): Files {
    if source in f then (f - {source})[target := f[source]] else f
  }

  function Next(s: State, a: Action): State
    requires Enabled(s, a)
  {
    match a
    case BeginUpload(wants) => Enter(s, Clearing(wants)).(upload := s.upload + 1)
    case Remove(n) => s.(files := s.files - {n})
    case ClearDone => s.(place := AfterClear(s.place))
    case ClearFails => s.(place := AfterClear(s.place))
    case Stage => Enter(s, StageClearing)
    case Abort => s.(place := Idle)
    case PartWrite => s.(files := s.files[Writing(s.place) := Torn(s.upload)])
    case Write(ok) =>
      if ok then s.(files := s.files[Writing(s.place) := Whole(s.upload)],
                    place := if s.place.WritingBlob? then WritingMeta else Ready(false))
      else Enter(s, Unstaging)
    case StartBuild => s.(place := Building)
    case EndBuild(ok) =>
      if ok then Enter(s, Checking).(built := s.built + {s.upload}) else Enter(s, DroppingBlob)
    case Check => s.(place := if StagedBlob in s.files && StagedMeta in s.files then ReplacingBlob else Idle)
    case Replace(ok) =>
      if !ok then Enter(s, DroppingBlob)
      else if s.place.ReplacingBlob? then s.(files := Move(s.files, StagedBlob, PromotedBlob), place := ReplacingMeta)
      else s.(files := Move(s.files, StagedMeta, PromotedMeta), place := Idle)
    case Drop(ok) =>
      if s.place.DroppingBlob?
      then s.(files := if ok then s.files - {StagedBlob} else s.files, place := DroppingMeta)
      else s.(files := if ok then s.files - {StagedMeta} else s.files, place := Idle)
    case Crash => s.(place := Idle, cache := None, probe := None)
    case ProbeRead => s.(probe := Some(Read(s.files)))
    case ProbeStore => s.(cache := s.probe, probe := None)
  }

  ghost predicate Reaches(s: State, run: seq<Action>, t: State)
    decreases run
  {
    if run == [] then s == t
    else Enabled(s, run[0]) && Reaches(Next(s, run[0]), run[1..], t)
  }

  function Start(): State { State(map[], Idle, 0, {}, None, None) }

  /** An upload that is turned away after its clear builds nothing. */
  lemma AbortEndsTheUpload(s: State)
    requires Enabled(s, Abort)
    ensures Next(s, Abort).place.Idle? && Next(s, Abort).(place := s.place) == s
  {
  }

  /** A crash may come at any time and keeps the files alone. */
  lemma CrashKeepsTheFiles(s: State)
    ensures Enabled(s, Crash) && Next(s, Crash).files == s.files && Next(s, Crash).place.Idle?
    ensures Next(s, Crash).cache.None? && Next(s, Crash).probe.None?
  {
  }

  // ---- The archive and the metadata belong together ---------------------------------------------

  /** Both promoted files there: whole, of one upload, whose build succeeded. */
  predicate Paired(s: State) {
    PromotedBlob in s.files && PromotedMeta in s.files ==>
      s.files[PromotedMeta].Whole? && s.files[PromotedBlob] == s.files[PromotedMeta] &&
      s.files[PromotedMeta].upload in s.built
  }

  predicate Staged(s: State) {
    && PromotedBlob !in s.files && PromotedMeta !in s.files
    && (StagedBlob in s.files ==> s.files[StagedBlob] == Whole(s.upload))
    && (StagedMeta in s.files ==> s.files[StagedMeta] == Whole(s.upload))
  }

  /** What the place says about the files. */
  predicate Placed(s: State) {
    match s.place
    case Ready(_) => Staged(s)
    case WritingBlob => PromotedBlob !in s.files && PromotedMeta !in s.files && StagedMeta !in s.files
    case WritingMeta =>
      PromotedBlob !in s.files && PromotedMeta !in s.files && StagedBlob in s.files &&
      s.files[StagedBlob] == Whole(s.upload)
    case Building => Staged(s)
    case Checking => Staged(s) && s.upload in s.built
    case ReplacingBlob => Staged(s) && s.upload in s.built && StagedBlob in s.files && StagedMeta in s.files
    case ReplacingMeta =>
      PromotedMeta !in s.files && s.upload in s.built && StagedMeta in s.files && PromotedBlob in s.files &&
      s.files[StagedMeta] == Whole(s.upload) && s.files[PromotedBlob] == Whole(s.upload)
    case _ => true
  }

  predicate Inv(s: State) { Paired(s) && Placed(s) }

  lemma StepKeepsInv(s: State, a: Action)
    requires Inv(s) && Enabled(s, a) && a != ClearFails
    ensures Inv(Next(s, a))
  {
  }

  lemma {:induction false} InvHolds(s: State, run: seq<Action>, t: State)
    requires Inv(s) && Reaches(s, run, t) && ClearFails !in run
    ensures Inv(t)
    decreases run
  {
    if run != [] {
      StepKeepsInv(s, run[0]);
      InvHolds(Next(s, run[0]), run[1..], t);
    }
  }

  /** At every point of every run in which clears succeed, crashes between any two file operations
      included: a project that is reported is stored whole, archive and metadata of one upload,
      and that upload's build succeeded. */
  lemma StoredProjectIsWhole(run: seq<Action>, t: State)
    requires Reaches(Start(), run, t) && ClearFails !in run && Read(t.files).Some?
    ensures var k := Read(t.files).value;
            t.files[PromotedBlob] == Whole(k) && t.files[PromotedMeta] == Whole(k) && k in t.built
  {
    InvHolds(Start(), run, t);
  }

  // ---- The cache -----------------------------------------------------------------------------------

  /** Inside one of the functions that change the store. */
  predicate Mutating(p: Place) { !p.Idle? && !p.Ready? && !p.Building? }

  /** Probes read outside the mutating functions, and nothing happens between a probe's read and
      its store but a crash. */
  predicate Quiet(s: State, a: Action) {
    && (a.ProbeRead? ==> !Mutating(s.place))
    && (s.probe.Some? ==> a.ProbeStore? || a.Crash?)
  }

  ghost predicate QuietRun(s: State, run: seq<Action>)
    decreases run
  {
    run != [] && Enabled(s, run[0]) ==> Quiet(s, run[0]) && QuietRun(Next(s, run[0]), run[1..])
  }

  predicate Fresh(s: State) {
    && (s.cache.Some? ==> s.cache.value == Read(s.files))
    && (s.probe.Some? ==> s.probe.value == Read(s.files) && !Mutating(s.place))
    && (Mutating(s.place) ==> s.cache.None?)
  }

  lemma StepStaysFresh(s: State, a: Action)
    requires Fresh(s) && Enabled(s, a) && Quiet(s, a)
    ensures Fresh(Next(s, a))
  {
  }

  /** When probes keep out of the mutating functions, what is advertised is what a fresh read would
      give. */
  lemma {:induction false} CacheIsFresh(s: State, run: seq<Action>, t: State)
    requires Fresh(s) && Reaches(s, run, t) && QuietRun(s, run)
    ensures t.cache.Some? ==> t.cache.value == Read(t.files)
    decreases run
  {
    if run != [] {
      StepStaysFresh(s, run[0]);
      CacheIsFresh(Next(s, run[0]), run[1..], t);
    }
  }

  // ---- Longer runs ------------------------------------------------------------

  lemma OneMore(s: State, a: Action, run: seq<Action>, t: State)
    requires Enabled(s, a) && Reaches(Next(s, a), run, t)
    ensures Reaches(s, [a] + run, t)
  {
    assert ([a] + run)[1..] == run;
  }

  lemma {:induction false} Join(s: State, first: seq<Action>, t: State, second: seq<Action>, u: State)
    requires Reaches(s, first, t) && Reaches(t, second, u)
    ensures Reaches(s, first + second, u)
    decreases first
  {
    if first == [] {
      assert first + second == second;
    } else {
      Join(Next(s, first[0]), first[1..], t, second, u);
      assert (first + second)[1..] == first[1..] + second;
    }
  }

  // ---- The module's functions ---------------------------------------------------------------------------

  lemma {:induction false} Extend(s: State, run: seq<Action>, t: State, a: Action)
    requires Reaches(s, run, t) && Enabled(t, a)
    ensures Reaches(s, run + [a], Next(t, a))
    decreases run
  {
    if run == [] {
      assert [a][1..] == [];
    } else {
      Extend(Next(s, run[0]), run[1..], t, a);
      assert (run + [a])[1..] == run[1..] + [a];
    }
  }

  lemma ProbeFills(s: State)
    requires s.cache.None? && s.probe.None?
    ensures Reaches(s, [ProbeRead, ProbeStore], s.(cache := Some(Read(s.files))))
  {
    Extend(s, [], s, ProbeRead);
    Extend(s, [] + [ProbeRead], Next(s, ProbeRead), ProbeStore);
    assert [] + [ProbeRead] + [ProbeStore] == [ProbeRead, ProbeStore];
  }

  /** What each file operation after the clear comes to, and the build. */
  datatype Fate = Fate(blobWritten: bool, metaWritten: bool, builds: bool,
                       blobReplaced: bool, metaReplaced: bool, blobDropped: bool, metaDropped: bool)

  /** The store and its cache. Each function's effects are, one by one, steps of the machine above,
      so a crash between any two of them is one of its crashes. */
  class Store {
    var files: Files
    var cache: Option<Option<nat>>

    constructor ()
      ensures files == map[] && cache.None?
    {
      files, cache := map[], None;
    }

    ghost function View(place: Place, upload: nat, built: set<nat>): State
      reads this
    {
      State(files, place, upload, built, cache, None)
    }

    /** The four files go in any order; place says who clears. */
    method Clear(order: seq<Name>, ghost place: Place, ghost upload: nat, ghost built: set<nat>)
      returns (ghost run: seq<Action>)
      requires InClear(place) && forall n: Name :: n in order
      modifies this
      ensures files == map[] && cache.None?
      ensures Reaches(old(View(place, upload, built)).(cache := None), run, View(AfterClear(place), upload, built))
      ensures ClearFails !in run
    {
      cache := None;
      run := [];
      ghost var start := View(place, upload, built);
      for i := 0 to |order|
        invariant cache.None? && Reaches(start, run, View(place, upload, built)) && ClearFails !in run
        invariant forall k :: 0 <= k < i ==> order[k] !in files
      {
        Extend(start, run, View(place, upload, built), Remove(order[i]));
        run := run + [Remove(order[i])];
        files := files - {order[i]};
      }
      assert files == map[] by {
        forall n: Name ensures n !in files {
          assert n in order;
          var k :| 0 <= k < |order| && order[k] == n;
        }
      }
      Extend(start, run, View(place, upload, built), ClearDone);
      run := run + [ClearDone];
    }

    /** Replaces whatever is stored by a snapshot awaiting its build; a write that fails leaves
        nothing behind. */
    method Stage(order: seq<Name>, blobWritten: bool, metaWritten: bool, upload: nat, ghost built: set<nat>)
      returns (ok: bool, ghost run: seq<Action>)
      requires forall n: Name :: n in order
      modifies this
      ensures ok <==> blobWritten && metaWritten
      ensures files == if ok then map[StagedBlob := Whole(upload), StagedMeta := Whole(upload)] else map[]
      ensures Reaches(old(View(Ready(true), upload, built)), run, View(Ready(false), upload, built))
    {
      ghost var start := View(Ready(true), upload, built);
      ghost var step := Action.Stage;
      Extend(start, [], start, step);
      ghost var more := Clear(order, StageClearing, upload, built);
      Join(start, [] + [step], Next(start, step), more, View(WritingBlob, upload, built));
      run := [] + [step] + more;
      ok := blobWritten;
      more := WriteFile(StagedBlob, blobWritten, WritingBlob, upload, built);
      Join(start, run, ViewOf(map[], WritingBlob, upload, built), more,
           View(if blobWritten then WritingMeta else Unstaging, upload, built));
      run := run + more;
      if ok {
        ok := metaWritten;
        ghost var mid := View(WritingMeta, upload, built);
        more := WriteFile(StagedMeta, metaWritten, WritingMeta, upload, built);
        Join(start, run, mid, more, View(if metaWritten then Ready(false) else Unstaging, upload, built));
        run := run + more;
      }
      if !ok {
        ghost var mid := View(Unstaging, upload, built);
        more := Clear(order, Unstaging, upload, built);
        Join(start, run, mid, more, View(Ready(false), upload, built));
        run := run + more;
      }
    }

    ghost function ViewOf(f: Files, place: Place, upload: nat, built: set<nat>): State {
      State(f, place, upload, built, None, None)
    }

    /** A write goes through, or leaves a part of the file. */
    method WriteFile(name: Name, written: bool, ghost place: Place, upload: nat, ghost built: set<nat>)
      returns (ghost run: seq<Action>)
      requires (place == WritingBlob || place == WritingMeta) && name == Writing(place) && cache.None?
      modifies this`files
      ensures files == old(files)[name := if written then Whole(upload) else Torn(upload)]
      ensures Reaches(old(View(place, upload, built)), run,
                      View(if !written then Unstaging else if place == WritingBlob then WritingMeta else Ready(false),
                           upload, built))
    {
      ghost var start := View(place, upload, built);
      Extend(start, [], start, PartWrite);
      files := files[name := Torn(upload)];
      run := [] + [PartWrite];
      Extend(start, run, View(place, upload, built), Write(written));
      run := run + [Write(written)];
      if written {
        files := files[name := Whole(upload)];
      }
    }

    /** After a build that failed. */
    method DiscardStaged(blobDropped: bool, metaDropped: bool, ghost upload: nat, ghost built: set<nat>)
      returns (ghost run: seq<Action>)
      modifies this
      ensures Reaches(old(View(DroppingBlob, upload, built)).(cache := None), run, View(Idle, upload, built))
      ensures cache.None?
      ensures files ==
              old(files) - (if blobDropped then {StagedBlob} else {}) - (if metaDropped then {StagedMeta} else {})
    {
      cache := None;
      ghost var start := View(DroppingBlob, upload, built);
      Extend(start, [], start, Drop(blobDropped));
      if blobDropped {
        files := files - {StagedBlob};
      }
      run := [] + [Drop(blobDropped)];
      Extend(start, run, View(DroppingMeta, upload, built), Drop(metaDropped));
      if metaDropped {
        files := files - {StagedMeta};
      }
      run := run + [Drop(metaDropped)];
    }

    /** After a build that succeeded. */
    method Promote(blobReplaced: bool, metaReplaced: bool, blobDropped: bool, metaDropped: bool,
                   ghost upload: nat, ghost built: set<nat>)
      returns (promoted: bool, ghost run: seq<Action>)
      modifies this
      ensures Reaches(old(View(Checking, upload, built)).(cache := None), run, View(Idle, upload, built))
      ensures promoted <==> StagedBlob in old(files) && StagedMeta in old(files) && blobReplaced && metaReplaced
      ensures promoted ==>
              files == (old(files) - {StagedBlob, StagedMeta})
                       [PromotedBlob := old(files)[StagedBlob]][PromotedMeta := old(files)[StagedMeta]]
      ensures !promoted ==> (PromotedMeta in files <==> PromotedMeta in old(files))
      ensures cache.None?
    {
      cache := None;
      ghost var start := View(Checking, upload, built);
      Extend(start, [], start, Check);
      run := [] + [Check];
      promoted := false;
      if StagedBlob in files && StagedMeta in files {
        Extend(start, run, View(ReplacingBlob, upload, built), Replace(blobReplaced));
        run := run + [Replace(blobReplaced)];
        if blobReplaced {
          files := Move(files, StagedBlob, PromotedBlob);
          Extend(start, run, View(ReplacingMeta, upload, built), Replace(metaReplaced));
          run := run + [Replace(metaReplaced)];
        }
        promoted := blobReplaced && metaReplaced;
        if promoted {
          files := Move(files, StagedMeta, PromotedMeta);
        } else {
          ghost var mid := View(DroppingBlob, upload, built);
          ghost var more := DiscardStaged(blobDropped, metaDropped, upload, built);
          Join(start, run, mid, more, View(Idle, upload, built));
          run := run + more;
        }
      }
    }

    /** The build of an upload, and what becomes of what was staged for it. */
    method Build(fate: Fate, upload: nat, ghost built: set<nat>) returns (ghost run: seq<Action>, ghost after: set<nat>)
      modifies this
      ensures after == if fate.builds then built + {upload} else built
      ensures Reaches(old(View(Ready(false), upload, built)), run, View(Idle, upload, after)) && cache.None?
      ensures var whole := StagedBlob in old(files) && StagedMeta in old(files);
              if fate.builds && whole && fate.blobReplaced && fate.metaReplaced
              then files == (old(files) - {StagedBlob, StagedMeta})
                            [PromotedBlob := old(files)[StagedBlob]][PromotedMeta := old(files)[StagedMeta]]
              else PromotedMeta in files <==> PromotedMeta in old(files)
    {
      ghost var start := View(Ready(false), upload, built);
      Extend(start, [], start, StartBuild);
      run := [] + [StartBuild];
      ghost var at := Next(start, StartBuild);
      Extend(start, run, at, EndBuild(fate.builds));
      run, at := run + [EndBuild(fate.builds)], Next(at, EndBuild(fate.builds));
      ghost var more;
      if fate.builds {
        after := built + {upload};
        var promoted;
        promoted, more :=
          Promote(fate.blobReplaced, fate.metaReplaced, fate.blobDropped, fate.metaDropped, upload, after);
      } else {
        after := built;
        more := DiscardStaged(fate.blobDropped, fate.metaDropped, upload, after);
      }
      Join(start, run, at, more, View(Idle, upload, after));
      run := run + more;
    }

    /** An upload up to its build: everything stored goes, and what came with it is staged, or nothing. */
    method Arrive(order: seq<Name>, wants: bool, fate: Fate, before: nat, ghost built: set<nat>)
      returns (ghost run: seq<Action>)
      requires forall n: Name :: n in order
      modifies this
      ensures files == if wants && fate.blobWritten && fate.metaWritten
                       then map[StagedBlob := Whole(before + 1), StagedMeta := Whole(before + 1)] else map[]
      ensures Reaches(old(View(Idle, before, built)), run, View(Ready(false), before + 1, built))
    {
      var upload := before + 1;
      ghost var start := View(Idle, before, built);
      ghost var step := BeginUpload(wants);
      Extend(start, [], start, step);
      ghost var more := Clear(order, Clearing(wants), upload, built);
      Join(start, [] + [step], Next(start, step), more, View(Ready(wants), upload, built));
      run := [] + [step] + more;
      if wants {
        ghost var mid := View(Ready(true), upload, built);
        var staged;
        staged, more := Stage(order, fate.blobWritten, fate.metaWritten, upload, built);
        Join(start, run, mid, more, View(Ready(false), upload, built));
        run := run + more;
      }
    }

    /** A whole upload, from its clear to the end of its build, whatever was stored before: it is a run
        of the machine, and a project is reported afterwards exactly when one came with the upload
        and everything went through. */
    method Upload(order: seq<Name>, wants: bool, fate: Fate, before: nat, ghost built: set<nat>)
      returns (ghost run: seq<Action>, ghost after: set<nat>)
      requires forall n: Name :: n in order
      modifies this
      ensures after == if fate.builds then built + {before + 1} else built
      ensures Reaches(old(View(Idle, before, built)), run, View(Idle, before + 1, after)) && cache.None?
      ensures var stored := wants && fate.blobWritten && fate.metaWritten && fate.builds && fate.blobReplaced &&
                            fate.metaReplaced;
              && Read(files) == (if stored then Some(before + 1) else None)
              && (stored ==> files == map[PromotedBlob := Whole(before + 1), PromotedMeta := Whole(before + 1)])
    {
      ghost var start := View(Idle, before, built);
      run := Arrive(order, wants, fate, before, built);
      ghost var mid, more := View(Ready(false), before + 1, built), [];
      more, after := Build(fate, before + 1, built);
      Join(start, run, mid, more, View(Idle, before + 1, after));
      run := run + more;
    }

    method ReadMetadata() returns (record: Option<nat>)
      ensures record == Read(files)
    {
      record := None;
      if PromotedMeta in files {
        match files[PromotedMeta] {
          case Whole(upload) =>
            if PromotedBlob in files {
              record := Some(upload);
            }
          case Torn(_) =>
        }
      }
    }

    method AdvertisedFields() returns (fields: Option<nat>)
      modifies this`cache
      ensures cache == Some(fields) && fields == if old(cache).Some? then old(cache).value else Read(files)
      ensures forall place, upload, built ::
                Reaches(State(files, place, upload, built, old(cache), None),
                        if old(cache).Some? then [] else [ProbeRead, ProbeStore],
                        State(files, place, upload, built, cache, None))
    {
      if cache.Some? {
        return cache.value;
      }
      fields := ReadMetadata();
      forall place, upload, built
        ensures Reaches(State(files, place, upload, built, None, None), [ProbeRead, ProbeStore],
                        State(files, place, upload, built, Some(fields), None))
      {
        ProbeFills(State(files, place, upload, built, None, None));
      }
      cache := Some(fields);
    }
  }
}
