/** The write journal where atomics are not lock-free: one ring behind a mutex. An
    adder that finds it full lets the mutex go, takes the image mutex, takes the
    journal mutex again and empties the ring itself, so other adders, drains and
    flushes run in between. Lock, unlock, one applied entry and one store are steps. */
module MutexJournal {
  import opened ImageModel

  datatype Owner = Free | By(thread: nat)

  datatype Thread =
    | Idle
    | WantJournal(write: Entry)
    | Holding(write: Entry)
    | WantImage(write: Entry)
    | WantBoth(write: Entry)
    | Flushing(write: Entry, next: nat)
    | Storing(write: Entry)
    | DrainWant
    | DrainRun(next: nat)

  /** The ring, the two mutexes (the image mutex is recursive), the threads, the image,
      and the history: writes stored, writes applied, everything done to the image. */
  datatype State = State(
    entries: seq<Entry>,
    count: nat,
    journal: Owner,
    image: Owner,
    depth: nat,
    threads: seq<Thread>,
    core: Core,
    stored: seq<Entry>,
    applied: seq<Entry>,
    log: seq<Op>)

  datatype Action =
    | LockImage(t: nat)
    | UnlockImage(t: nat)
    | UnderLock(t: nat, op: Op)
    | BeginAdd(t: nat, write: Entry)
    | BeginDrain(t: nat)
    | Advance(t: nat)

  predicate Shaped(s: State) {
    && |s.entries| == JOURNAL_MAX_ENTRIES && s.count <= JOURNAL_MAX_ENTRIES
    && (s.journal.By? ==> s.journal.thread < |s.threads|)
    && (s.image.By? ==> s.image.thread < |s.threads|)
    && (s.image.By? <==> s.depth > 0)
  }

  predicate MayLockImage(s: State, t: nat) {
    s.image.Free? || s.image.thread == t
  }

  /** Whether thread t, in the middle of an add or a drain, can take its next step. */
  predicate CanAdvance(s: State, t: nat)
    requires t < |s.threads|
  {
    match s.threads[t]
    case Idle => false
    case WantJournal(_) => s.journal.Free?
    case WantImage(_) => MayLockImage(s, t)
    case WantBoth(_) => s.journal.Free?
    case DrainWant => s.journal.Free?
    case _ => true
  }

  predicate Enabled(s: State, a: Action)
    requires Shaped(s)
  {
    a.t < |s.threads| &&
    match a
    case LockImage(t) => s.threads[t].Idle? && MayLockImage(s, t)
    case UnlockImage(t) => s.threads[t].Idle? && s.image == By(t)
    case UnderLock(t, op) => s.threads[t].Idle? && s.image == By(t) && !op.Write?
    case BeginAdd(t, _) => s.threads[t].Idle?
    case BeginDrain(t) => s.threads[t].Idle? && s.image == By(t)
    case Advance(t) => CanAdvance(s, t)
  }

  function GoTo(s: State, t: nat, pc: Thread): State
    requires t < |s.threads|
  {
    s.(threads := s.threads[t := pc])
  }

  function ReleaseImage(s: State): State {
    if s.depth <= 1 then s.(image := Free, depth := 0) else s.(depth := s.depth - 1)
  }

  function ApplyAt(s: State, i: nat): State
    requires i < |s.entries|
  {
    var e := s.entries[i];
    s.(core := ApplyEntry(s.core, e), applied := s.applied + [e], log := s.log + [Write(e)])
  }

  function AdvanceAdd(s: State, t: nat): State
    requires Shaped(s) && t < |s.threads| && CanAdvance(s, t) && !s.threads[t].DrainWant? && !s.threads[t].DrainRun?
  {
    match s.threads[t]
    case WantJournal(w) => GoTo(s, t, Holding(w)).(journal := By(t))
    case Holding(w) =>
      if s.count >= JOURNAL_MAX_ENTRIES then GoTo(s, t, WantImage(w)).(journal := Free)
      else GoTo(s, t, Storing(w))
    case WantImage(w) => GoTo(s, t, WantBoth(w)).(image := By(t), depth := s.depth + 1)
    case WantBoth(w) => GoTo(s, t, Flushing(w, 0)).(journal := By(t))
    case Flushing(w, i) =>
      if i < s.count then GoTo(ApplyAt(s, i), t, Flushing(w, i + 1))
      else ReleaseImage(GoTo(s, t, Storing(w)).(count := 0))
    case Storing(w) =>
      if s.count < JOURNAL_MAX_ENTRIES
      then GoTo(s, t, Idle).(entries := s.entries[s.count := w], count := s.count + 1,
                             stored := s.stored + [w], journal := Free)
      else s  // a store past the end of the ring; StoreStaysInside rules it out
  }

  function AdvanceDrain(s: State, t: nat): State
    requires Shaped(s) && t < |s.threads| && (s.threads[t].DrainWant? || s.threads[t].DrainRun?)
  {
    match s.threads[t]
    case DrainWant => GoTo(s, t, DrainRun(0)).(journal := By(t))
    case DrainRun(i) =>
      if i < s.count then GoTo(ApplyAt(s, i), t, DrainRun(i + 1))
      else GoTo(s, t, Idle).(count := 0, journal := Free)
  }

  function Next(s: State, a: Action): State
    requires Shaped(s) && Enabled(s, a)
  {
    match a
    case LockImage(t) => s.(image := By(t), depth := s.depth + 1)
    case UnlockImage(t) => ReleaseImage(s)
    case UnderLock(t, op) => s.(core := Apply(s.core, op), log := s.log + [op])
    case BeginAdd(t, w) => GoTo(s, t, WantJournal(w))
    case BeginDrain(t) => GoTo(s, t, DrainWant)
    case Advance(t) =>
      if s.threads[t].DrainWant? || s.threads[t].DrainRun? then AdvanceDrain(s, t) else AdvanceAdd(s, t)
  }

  /** The image mutex is recursive: taking it and giving it back, by hand or for a flush, leaves it as it
      was, to whoever holds it. */
  lemma ImageIsGivenBack(s: State, t: nat)
    requires Shaped(s) && t < |s.threads| && MayLockImage(s, t)
    ensures s.threads[t].Idle? ==>
              Enabled(s, LockImage(t)) && Shaped(Next(s, LockImage(t))) &&
              Enabled(Next(s, LockImage(t)), UnlockImage(t)) && Next(Next(s, LockImage(t)), UnlockImage(t)) == s
    ensures s.threads[t].WantImage? ==>
              var u := AdvanceAdd(s, t); u.image == By(t) && ReleaseImage(u).(threads := s.threads) == s
  {
  }

  ghost predicate Init(s: State, core: Core) {
    && Shaped(s) && s.count == 0 && s.journal.Free? && s.image.Free? && s.depth == 0
    && (forall t :: 0 <= t < |s.threads| ==> s.threads[t].Idle?)
    && s.core == core && s.stored == [] && s.applied == [] && s.log == []
  }

  // ---- The invariant --------------------------------------------------------------

  predicate HoldsJournal(pc: Thread) {
    pc.Holding? || pc.Flushing? || pc.Storing? || pc.DrainRun?
  }

  predicate HoldsImage(pc: Thread) {
    pc.WantBoth? || pc.Flushing? || pc.DrainWant? || pc.DrainRun?
  }

  /** How far the thread that owns the ring has applied it. */
  function Cursor(s: State): nat
    requires Shaped(s)
  {
    if s.journal.Free? then 0
    else match s.threads[s.journal.thread]
      case Flushing(_, i) => i
      case DrainRun(i) => i
      case _ => 0
  }

  ghost predicate Disciplined(s: State) {
    && (forall t :: 0 <= t < |s.threads| ==> (HoldsJournal(s.threads[t]) <==> s.journal == By(t)))
    && (forall t :: 0 <= t < |s.threads| && HoldsImage(s.threads[t]) ==> s.image == By(t))
    && (forall t :: 0 <= t < |s.threads| && s.threads[t].Storing? ==> s.count < JOURNAL_MAX_ENTRIES)
  }

  /** Everything stored is either applied already or still in the ring, in order. */
  ghost predicate Conserved(s: State)
    requires Shaped(s)
  {
    && Cursor(s) <= s.count
    && s.stored == s.applied + s.entries[Cursor(s)..s.count]
  }

  /** The image is what the history makes of the initial one. */
  ghost predicate Faithful(s: State, core: Core) {
    s.core == Run(core, s.log) && s.applied == Writes(s.log)
  }

  ghost predicate Inv(s: State, core: Core) {
    Shaped(s) && Disciplined(s) && Conserved(s) && Faithful(s, core)
  }

  lemma FlushStaysDisciplined(s: State, t: nat)
    requires Shaped(s) && Disciplined(s) && Enabled(s, Advance(t)) && s.threads[t].Flushing?
    ensures Shaped(AdvanceAdd(s, t)) && Disciplined(AdvanceAdd(s, t))
  {
    assert forall u :: 0 <= u < |s.threads| && u != t ==> !HoldsImage(s.threads[u]);
  }

  lemma StoreStaysDisciplined(s: State, t: nat)
    requires Shaped(s) && Disciplined(s) && Enabled(s, Advance(t)) && s.threads[t].Storing?
    ensures Shaped(AdvanceAdd(s, t)) && Disciplined(AdvanceAdd(s, t))
  {
    assert s.count < JOURNAL_MAX_ENTRIES;
    assert forall u :: 0 <= u < |s.threads| && u != t ==> !HoldsJournal(s.threads[u]);
  }

  lemma LockStaysDisciplined(s: State, t: nat)
    requires Shaped(s) && Disciplined(s) && Enabled(s, Advance(t))
    requires s.threads[t].WantJournal? || s.threads[t].WantImage? || s.threads[t].WantBoth?
    ensures Shaped(AdvanceAdd(s, t)) && Disciplined(AdvanceAdd(s, t))
  {
  }

  lemma LookStaysDisciplined(s: State, t: nat)
    requires Shaped(s) && Disciplined(s) && Enabled(s, Advance(t)) && s.threads[t].Holding?
    ensures Shaped(AdvanceAdd(s, t)) && Disciplined(AdvanceAdd(s, t))
  {
    assert forall u :: 0 <= u < |s.threads| && u != t ==> !HoldsJournal(s.threads[u]);
  }

  lemma DrainStaysDisciplined(s: State, t: nat)
    requires Shaped(s) && Disciplined(s) && Enabled(s, Advance(t))
    requires s.threads[t].DrainWant? || s.threads[t].DrainRun?
    ensures Shaped(AdvanceDrain(s, t)) && Disciplined(AdvanceDrain(s, t))
  {
  }

  lemma OthersStayDisciplined(s: State, a: Action)
    requires Shaped(s) && Disciplined(s) && Enabled(s, a) && !a.Advance?
    ensures Shaped(Next(s, a)) && Disciplined(Next(s, a))
  {
  }

  predicate Applying(s: State, t: nat)
    requires t < |s.threads|
  {
    (s.threads[t].Flushing? || s.threads[t].DrainRun?) && s.threads[t].next < s.count
  }

  lemma FirstTaken<T>(a: seq<T>, b: seq<T>, i: nat, n: nat)
    requires i < n <= |b|
    ensures a + b[i..n] == (a + [b[i]]) + b[i + 1..n]
  {
    assert b[i..n] == [b[i]] + b[i + 1..n];
  }

  lemma ApplyingConserves(s: State, t: nat)
    requires Shaped(s) && Conserved(s) && t < |s.threads| && Applying(s, t) && s.journal == By(t)
    ensures Shaped(Next(s, Advance(t))) && Conserved(Next(s, Advance(t)))
  {
    FirstTaken(s.applied, s.entries, s.threads[t].next, s.count);
  }

  lemma StoringConserves(s: State, t: nat)
    requires Shaped(s) && Conserved(s) && t < |s.threads| && s.threads[t].Storing? && s.journal == By(t)
    ensures Shaped(Next(s, Advance(t))) && Conserved(Next(s, Advance(t)))
  {
    var s' := Next(s, Advance(t));
    if s.count < JOURNAL_MAX_ENTRIES {
      assert s'.entries[0..s'.count] == s.entries[0..s.count] + [s.threads[t].write];
    }
  }

  lemma OtherStepConserves(s: State, a: Action)
    requires Shaped(s) && Conserved(s) && Enabled(s, a) && Shaped(Next(s, a))
    requires HoldsJournal(s.threads[a.t]) <==> s.journal == By(a.t)
    requires a.Advance? ==> !s.threads[a.t].Storing? && !Applying(s, a.t)
    ensures Conserved(Next(s, a))
  {
    var s' := Next(s, a);
    assert s.stored == s'.stored && s.entries == s'.entries;
  }

  lemma ApplyingStaysFaithful(s: State, core: Core, i: nat)
    requires i < |s.entries| && Faithful(s, core)
    ensures Faithful(ApplyAt(s, i), core)
  {
    LogGrows(core, s.log, Write(s.entries[i]));
  }

  lemma AdvanceLeavesHistory(s: State, t: nat)
    requires Shaped(s) && Enabled(s, Advance(t)) && !Applying(s, t)
    ensures var s' := Next(s, Advance(t)); s'.core == s.core && s'.log == s.log && s'.applied == s.applied
  {
    if s.threads[t].Flushing? || s.threads[t].DrainWant? || s.threads[t].DrainRun? {
    } else if s.threads[t].Storing? || s.threads[t].Holding? {
    } else {
    }
  }

  lemma OtherStepLeavesHistory(s: State, a: Action)
    requires Shaped(s) && Enabled(s, a)
    requires !a.UnderLock? && !(a.Advance? && Applying(s, a.t))
    ensures var s' := Next(s, a); s'.core == s.core && s'.log == s.log && s'.applied == s.applied
  {
    if a.Advance? {
      AdvanceLeavesHistory(s, a.t);
    }
  }

  lemma HistoryStaysFaithful(s: State, core: Core, a: Action)
    requires Shaped(s) && Faithful(s, core) && Enabled(s, a)
    ensures Faithful(Next(s, a), core)
  {
    if a.UnderLock? {
      LogGrows(core, s.log, a.op);
    } else if a.Advance? && Applying(s, a.t) {
      ApplyingStaysFaithful(s, core, s.threads[a.t].next);
    } else {
      OtherStepLeavesHistory(s, a);
    }
  }

  lemma StepPreserves(s: State, core: Core, a: Action)
    requires Inv(s, core) && Enabled(s, a)
    ensures Inv(Next(s, a), core)
  {
    HistoryStaysFaithful(s, core, a);
    if !a.Advance? {
      OthersStayDisciplined(s, a);
    } else if s.threads[a.t].DrainWant? || s.threads[a.t].DrainRun? {
      DrainStaysDisciplined(s, a.t);
    } else if s.threads[a.t].Flushing? {
      FlushStaysDisciplined(s, a.t);
    } else if s.threads[a.t].Storing? {
      StoreStaysDisciplined(s, a.t);
    } else if s.threads[a.t].Holding? {
      LookStaysDisciplined(s, a.t);
    } else {
      LockStaysDisciplined(s, a.t);
    }
    if a.Advance? && s.threads[a.t].Storing? {
      StoringConserves(s, a.t);
    } else if a.Advance? && Applying(s, a.t) {
      ApplyingConserves(s, a.t);
    } else {
      OtherStepConserves(s, a);
    }
  }

  // ---- Whole runs -------------------------------------------------------------------

  ghost predicate Reaches(s: State, schedule: seq<Action>, t: State)
    decreases schedule
  {
    if schedule == [] then s == t
    else Shaped(s) && Enabled(s, schedule[0]) && Reaches(Next(s, schedule[0]), schedule[1..], t)
  }

  lemma {:induction false} InvariantHolds(s: State, core: Core, schedule: seq<Action>, t: State)
    requires Inv(s, core) && Reaches(s, schedule, t)
    ensures Inv(t, core)
    decreases schedule
  {
    if schedule != [] {
      StepPreserves(s, core, schedule[0]);
      InvariantHolds(Next(s, schedule[0]), core, schedule[1..], t);
    }
  }

  /** Under every interleaving of adders, drains and flushes, no store falls outside
      the ring. */
  lemma StoreStaysInside(s: State, core: Core, schedule: seq<Action>, t: State, thread: nat)
    requires Init(s, core) && Reaches(s, schedule, t)
    requires thread < |t.threads| && t.threads[thread].Storing?
    ensures t.count < JOURNAL_MAX_ENTRIES
  {
    InvariantHolds(s, core, schedule, t);
  }

  /** No write is lost, repeated or reordered: what was applied, followed by what is
      still in the ring, is what was stored, and the image is the result of it. */
  lemma StoredIsAppliedInOrder(s: State, core: Core, schedule: seq<Action>, t: State)
    requires Init(s, core) && Reaches(s, schedule, t)
    ensures t.core == Run(core, t.log) && t.applied == Writes(t.log)
    ensures Shaped(t) && Cursor(t) <= t.count && t.stored == t.applied + t.entries[Cursor(t)..t.count]
    ensures t.count == 0 ==> t.applied == t.stored
  {
    InvariantHolds(s, core, schedule, t);
  }

  /** The lock order cannot deadlock: while any add or drain is unfinished, some thread
      can go on, or the image mutex is held by a thread busy with its own work. */
  lemma SomeThreadCanGoOn(s: State, core: Core, schedule: seq<Action>, t: State, busy: nat)
    requires Init(s, core) && Reaches(s, schedule, t)
    requires busy < |t.threads| && !t.threads[busy].Idle?
    ensures exists u: nat :: u < |t.threads| &&
              (CanAdvance(t, u) || (t.threads[u].Idle? && t.image == By(u)))
  {
    InvariantHolds(s, core, schedule, t);
    if t.journal.By? {
      assert CanAdvance(t, t.journal.thread);
    } else if t.threads[busy].WantImage? && t.image.By? && t.image.thread != busy {
      var u := t.image.thread;
      assert t.threads[u].WantImage? ==> CanAdvance(t, u);
      assert CanAdvance(t, u) || t.threads[u].Idle?;
    } else {
      assert CanAdvance(t, busy);
    }
  }

  lemma StepChangesForItsOwner(s: State, a: Action)
    requires Shaped(s) && Disciplined(s) && Enabled(s, a) && s.image != By(a.t)
    ensures Next(s, a).core == s.core && Next(s, a).log == s.log
  {
    match a
    case LockImage(_) =>
    case UnlockImage(_) =>
    case UnderLock(_, _) =>
    case BeginAdd(_, _) =>
    case BeginDrain(_) =>
    case Advance(t) =>
      assert !HoldsImage(s.threads[t]);
      match s.threads[t]
      case WantJournal(_) =>
      case Holding(_) =>
      case WantImage(_) =>
      case Storing(_) =>
  }

  /** The image changes only in steps of the thread that holds its mutex. */
  lemma ImageChangesForItsOwner(s: State, core: Core, schedule: seq<Action>, t: State, a: Action)
    requires Init(s, core) && Reaches(s, schedule, t) && Shaped(t) && Enabled(t, a)
    ensures Next(t, a).core != t.core || Next(t, a).log != t.log ==> t.image == By(a.t)
  {
    InvariantHolds(s, core, schedule, t);
    if t.image != By(a.t) {
      StepChangesForItsOwner(t, a);
    }
  }
}
