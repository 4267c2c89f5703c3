/** The run/stop switch at boot: plugins report its position and ask for starts and stops, the
    boot holds such requests while it decides, and each transition's worker afterwards
    reconciles the state with the switch. Each atomic access is one step, in any order. */
module BootSwitch {
  import opened Options

  datatype Position = Run | Stop

  datatype Plc = Stopped | Running | Error | To(target: Position)

  datatype Result = SkippedSafeMode | HeldBySwitch | Failed | Begun

  datatype Boot = Deciding | Gated | Releasing(result: Result) | Rereading | Restarting | Done(result: Result)

  /** Where a plugin thread is: it has exchanged the position and found it changed (Edge), is
      about to look at the hold (Asking), at the switch (Checking), or to begin (Beginning).
      edge: the position it stored was new. */
  datatype Plugin =
    | Idle
    | Edge(p: Position)
    | Asking(p: Position, edge: bool)
    | Checking(p: Position, edge: bool)
    | Beginning(p: Position, edge: bool)

  /** A transition's worker: performing it, then, once it landed, reconciling. */
  datatype Worker =
    | Performing(target: Position)
    | Taking
    | Reading
    | Comparing(landed: Plc)
    | Correcting(wanted: Position)
    | Gone

  datatype Thread = BootThread | PluginThread(i: nat) | WorkerThread(j: nat)

  datatype Event = Saw(thread: Thread, p: Position) | Began(thread: Thread, p: Position)

  datatype State = State(
    safe: bool,
    position: Position,
    moved: bool,
    held: bool,
    plc: Plc,
    boot: Boot,
    plugins: seq<Plugin>,
    workers: seq<Worker>,
    log: seq<Event>)

  datatype Action =
    | Store(i: nat, p: Position)
    | PluginStep(i: nat)
    | BootStep
    | Land(j: nat, ok: bool)
    | WorkerStep(j: nat)

  function Settled(p: Position): Plc { if p == Run then Running else Stopped }

  /** A transition is refused while another is in flight, and to the state the PLC is in. */
  predicate Refuses(s: State, p: Position) { s.plc.To? || s.plc == Settled(p) }

  function Begin(s: State, t: Thread, p: Position): State {
    if Refuses(s, p) then s
    else s.(plc := To(p), workers := s.workers + [Performing(p)], log := s.log + [Began(t, p)])
  }

  function See(s: State, t: Thread): State { s.(log := s.log + [Saw(t, s.position)]) }

  function At(s: State, i: nat, q: Plugin): State
    requires i < |s.plugins|
  {
    s.(plugins := s.plugins[i := q])
  }

  function StepPlugin(s: State, i: nat): State
    requires i < |s.plugins| && !s.plugins[i].Idle?
  {
    match s.plugins[i]
    case Edge(p) => At(s, i, Asking(p, true)).(moved := true)
    case Asking(p, e) =>
      if s.held then At(s, i, Idle) else if p == Run then At(s, i, Checking(p, e)) else At(s, i, Beginning(p, e))
    case Checking(p, e) => At(See(s, PluginThread(i)), i, if s.position == Run then Beginning(p, e) else Idle)
    case Beginning(p, _) => At(Begin(s, PluginThread(i), p), i, Idle)
  }

  function StepBoot(s: State): State
    requires !s.boot.Done?
  {
    match s.boot
    case Deciding =>
      if s.safe then s.(boot := Releasing(SkippedSafeMode))
      else See(s, BootThread).(boot := if s.position == Run then Gated else Releasing(HeldBySwitch))
    case Gated => Begin(s, BootThread, Run).(boot := Releasing(if Refuses(s, Run) then Failed else Begun))
    case Releasing(r) => s.(held := false, boot := if r == HeldBySwitch then Rereading else Done(r))
    case Rereading =>
      See(s, BootThread).(boot := if s.position == Run then Restarting else Done(HeldBySwitch))
    case Restarting => Begin(s, BootThread, Run).(boot := Done(if Refuses(s, Run) then Failed else Begun))
  }

  function WorkerAt(s: State, j: nat, w: Worker): State
    requires j < |s.workers|
  {
    s.(workers := s.workers[j := w])
  }

  function StepWorker(s: State, j: nat): State
    requires j < |s.workers| && !s.workers[j].Performing? && !s.workers[j].Gone?
  {
    match s.workers[j]
    case Taking => WorkerAt(s, j, if s.moved then Reading else Gone).(moved := false)
    case Reading => WorkerAt(s, j, Comparing(s.plc))
    case Comparing(landed) =>
      var u := See(s, WorkerThread(j));
      if (landed == Running || landed == Stopped) && landed != Settled(s.position)
      then WorkerAt(u, j, Correcting(s.position)) else WorkerAt(u, j, Gone)
    case Correcting(p) =>
      WorkerAt(Begin(s, WorkerThread(j), p), j, Gone).(moved := s.moved || Refuses(s, p))
  }

  predicate Enabled(s: State, a: Action) {
    match a
    case Store(i, _) => i < |s.plugins| && s.plugins[i].Idle?
    case PluginStep(i) => i < |s.plugins| && !s.plugins[i].Idle?
    case BootStep => !s.boot.Done?
    case Land(j, _) => j < |s.workers| && s.workers[j].Performing?
    case WorkerStep(j) => j < |s.workers| && !s.workers[j].Performing? && !s.workers[j].Gone?
  }

  function Next(s: State, a: Action): State
    requires Enabled(s, a)
  {
    match a
    case Store(i, p) => At(s, i, if s.position != p then Edge(p) else Asking(p, false)).(position := p)
    case PluginStep(i) => StepPlugin(s, i)
    case BootStep => StepBoot(s)
    case Land(j, ok) => WorkerAt(s, j, Taking).(plc := if ok then Settled(s.workers[j].target) else Error)
    case WorkerStep(j) => StepWorker(s, j)
  }

  ghost predicate Init(s: State) {
    && s.position == Run && !s.moved && s.held && s.plc == Stopped && s.boot == Deciding
    && (forall i :: 0 <= i < |s.plugins| ==> s.plugins[i].Idle?) && s.workers == [] && s.log == []
  }

  ghost predicate Reaches(s: State, run: seq<Action>, t: State)
    decreases run
  {
    if run == [] then s == t
    else Enabled(s, run[0]) && Reaches(Next(s, run[0]), run[1..], t)
  }

  predicate StartBegun(s: State) {
    exists k :: 0 <= k < |s.log| && s.log[k].Began? && s.log[k].p == Run
  }

  // ---- The boot -------------------------------------------------------------------------

  predicate BootPending(b: Boot) {
    b.Deciding? || b.Gated? || b.Rereading? || b.Restarting? || b == Releasing(HeldBySwitch)
  }

  /** A plugin that turned the switch to RUN and has not finished asking for the start. */
  predicate Carries(q: Plugin) {
    q == Edge(Run) || (!q.Idle? && !q.Edge? && q.p == Run && q.edge)
  }

  ghost predicate Carried(s: State) {
    exists i :: 0 <= i < |s.plugins| && Carries(s.plugins[i])
  }

  predicate Phases(s: State) {
    && (s.held <==> s.boot.Deciding? || s.boot.Gated? || s.boot.Releasing?)
    && (s.held ==> forall i :: 0 <= i < |s.plugins| ==> !s.plugins[i].Checking? && !s.plugins[i].Beginning?)
    && (s.boot == Releasing(SkippedSafeMode) || s.boot == Done(SkippedSafeMode) ==> s.safe)
  }

  /** Before the first start nothing has happened to the PLC. */
  predicate Fresh(s: State) {
    !StartBegun(s) ==>
      s.plc == Stopped && s.workers == [] &&
      (s.boot.Releasing? || s.boot.Done? ==> s.boot.result != Begun && s.boot.result != Failed)
  }

  /** A switch at RUN with no start begun is still somebody's business. */
  ghost predicate Minded(s: State) {
    !s.safe && s.position == Run && !StartBegun(s) ==> BootPending(s.boot) || Carried(s)
  }

  lemma LogGrows(s: State, a: Action)
    requires Enabled(s, a)
    ensures s.log <= Next(s, a).log
  {
    match a
    case Store(_, _) =>
    case PluginStep(_) =>
    case BootStep =>
    case Land(_, _) =>
    case WorkerStep(_) =>
  }

  lemma StartStaysBegun(s: State, a: Action)
    requires Enabled(s, a) && StartBegun(s)
    ensures StartBegun(Next(s, a))
  {
    var k :| 0 <= k < |s.log| && s.log[k].Began? && s.log[k].p == Run;
    LogGrows(s, a);
    assert Next(s, a).log[k] == s.log[k];
  }

  lemma StepKeepsPhases(s: State, a: Action)
    requires Phases(s) && Enabled(s, a)
    ensures Phases(Next(s, a))
  {
  }

  lemma FirstBegin(s: State, t: Thread)
    requires Fresh(s)
    ensures StartBegun(Begin(s, t, Run))
    ensures Refuses(s, Run) ==> StartBegun(s)
  {
    var u := Begin(s, t, Run);
    if !Refuses(s, Run) {
      assert u.log[|u.log| - 1] == Began(t, Run);
    }
  }

  lemma StepKeepsFresh(s: State, a: Action)
    requires Phases(s) && Fresh(s) && Enabled(s, a)
    ensures Fresh(Next(s, a))
  {
    if StartBegun(s) {
      StartStaysBegun(s, a);
    } else {
      FirstBegin(s, BootThread);
      if a.PluginStep? {
        FirstBegin(s, PluginThread(a.i));
      }
    }
  }

  lemma OtherPluginStillCarries(s: State, i: nat, q: Plugin)
    requires i < |s.plugins| && Carried(s) && (Carries(s.plugins[i]) ==> Carries(q))
    ensures Carried(At(s, i, q))
  {
    var k :| 0 <= k < |s.plugins| && Carries(s.plugins[k]);
    assert Carries(At(s, i, q).plugins[k]);
  }

  lemma NewCarrier(s: State, i: nat, q: Plugin)
    requires i < |s.plugins| && Carries(q)
    ensures Carried(At(s, i, q))
  {
    assert Carries(At(s, i, q).plugins[i]);
  }

  lemma PluginStepKeepsMinded(s: State, i: nat)
    requires Phases(s) && Fresh(s) && Minded(s) && Enabled(s, PluginStep(i))
    ensures Minded(StepPlugin(s, i))
  {
    var t := StepPlugin(s, i);
    if StartBegun(s) {
      StartStaysBegun(s, PluginStep(i));
    } else if s.plugins[i].Beginning? && s.plugins[i].p == Run {
      FirstBegin(s, PluginThread(i));
    } else if !s.safe && s.position == Run && !BootPending(s.boot) {
      OtherPluginStillCarries(s, i, t.plugins[i]);
      assert t.plugins == At(s, i, t.plugins[i]).plugins;
    }
  }

  lemma StepKeepsMinded(s: State, a: Action)
    requires Phases(s) && Fresh(s) && Minded(s) && Enabled(s, a)
    ensures Minded(Next(s, a))
  {
    var t := Next(s, a);
    if StartBegun(s) {
      StartStaysBegun(s, a);
    } else if a.PluginStep? {
      PluginStepKeepsMinded(s, a.i);
    } else if a.Store? {
      if s.position != a.p && a.p == Run {
        NewCarrier(s, a.i, Edge(Run));
      } else if Carried(s) {
        OtherPluginStillCarries(s, a.i, t.plugins[a.i]);
      }
      assert t.plugins == At(s, a.i, t.plugins[a.i]).plugins;
      assert t.log == s.log;
    } else if a.BootStep? {
      FirstBegin(s, BootThread);
      assert Carried(s) ==> Carried(t);
    }
  }

  lemma {:induction false} BootInvariant(s: State, run: seq<Action>, t: State)
    requires Phases(s) && Fresh(s) && Minded(s) && Reaches(s, run, t)
    ensures Phases(t) && Fresh(t) && Minded(t)
    decreases run
  {
    if run != [] {
      StepKeepsPhases(s, run[0]);
      StepKeepsFresh(s, run[0]);
      StepKeepsMinded(s, run[0]);
      BootInvariant(Next(s, run[0]), run[1..], t);
    }
  }

  lemma InitKeepsAll(s: State)
    requires Init(s)
    ensures Phases(s) && Fresh(s) && Minded(s)
  {
  }

  /** Outside safe mode, whatever the interleaving and however many plugins: once the boot has
      decided and no plugin is in the middle of a report, a switch at RUN has had its start. */
  lemma BootNeverLosesRun(s: State, run: seq<Action>, t: State)
    requires Init(s) && Reaches(s, run, t) && !t.safe
    requires t.boot.Done? && (forall i :: 0 <= i < |t.plugins| ==> t.plugins[i].Idle?)
    requires t.position == Run
    ensures StartBegun(t)
  {
    InitKeepsAll(s);
    BootInvariant(s, run, t);
  }

  /** While requests are held no plugin changes the PLC. */
  lemma NoPluginBeginsWhileHeld(s: State, run: seq<Action>, t: State, i: nat)
    requires Init(s) && Reaches(s, run, t) && t.held && Enabled(t, PluginStep(i))
    ensures var u := Next(t, PluginStep(i)); u.plc == t.plc && u.workers == t.workers && u.log == t.log
  {
    InitKeepsAll(s);
    BootInvariant(s, run, t);
  }

  /** The boot fails to begin a start only when a start was begun before. */
  lemma BootFailsOnlyAfterAStart(s: State, run: seq<Action>, t: State)
    requires Init(s) && Reaches(s, run, t) && t.boot == Done(Failed)
    ensures StartBegun(t)
  {
    InitKeepsAll(s);
    BootInvariant(s, run, t);
  }

  // ---- Every start follows a look at the switch ----------------------------------------------

  /** The last thing a thread did. */
  function LastBy(log: seq<Event>, t: Thread): Option<Event> {
    if log == [] then None
    else if log[|log| - 1].thread == t then Some(log[|log| - 1])
    else LastBy(log[..|log| - 1], t)
  }

  predicate Justified(log: seq<Event>) {
    log == [] ||
    (var e := log[|log| - 1];
     Justified(log[..|log| - 1]) &&
     (e.Began? && e.p == Run ==> LastBy(log[..|log| - 1], e.thread) == Some(Saw(e.thread, Run))))
  }

  /** The thread's next step begins a start. */
  predicate WantsStart(s: State, t: Thread) {
    match t
    case BootThread => s.boot.Gated? || s.boot.Restarting?
    case PluginThread(i) => i < |s.plugins| && s.plugins[i].Beginning? && s.plugins[i].p == Run
    case WorkerThread(j) => j < |s.workers| && s.workers[j] == Correcting(Run)
  }

  /** Whoever is about to begin a start has seen the switch at RUN. */
  ghost predicate Looked(s: State) {
    Justified(s.log) && forall t: Thread :: WantsStart(s, t) ==> LastBy(s.log, t) == Some(Saw(t, Run))
  }

  lemma LastBySnoc(log: seq<Event>, e: Event)
    ensures LastBy(log + [e], e.thread) == Some(e)
    ensures forall t :: t != e.thread ==> LastBy(log + [e], t) == LastBy(log, t)
    ensures Justified(log + [e]) <==>
            Justified(log) && (e.Began? && e.p == Run ==> LastBy(log, e.thread) == Some(Saw(e.thread, Run)))
  {
    assert (log + [e])[..|log|] == log;
  }

  ghost predicate OthersAsBefore(s: State, u: State, t0: Thread) {
    forall t: Thread :: t != t0 && WantsStart(u, t) ==> WantsStart(s, t)
  }

  lemma NothingLogged(s: State, u: State, t0: Thread)
    requires Looked(s) && u.log == s.log && OthersAsBefore(s, u, t0) && !WantsStart(u, t0)
    ensures Looked(u)
  {
  }

  lemma OneLogged(s: State, u: State, t0: Thread, e: Event)
    requires Looked(s) && u.log == s.log + [e] && e.thread == t0 && OthersAsBefore(s, u, t0)
    requires e.Began? && e.p == Run ==> WantsStart(s, t0)
    requires WantsStart(u, t0) ==> e == Saw(t0, Run)
    ensures Looked(u)
  {
    LastBySnoc(s.log, e);
  }

  lemma PluginLeavesOthers(s: State, i: nat)
    requires Enabled(s, PluginStep(i))
    ensures OthersAsBefore(s, StepPlugin(s, i), PluginThread(i))
  {
    var u := StepPlugin(s, i);
    assert u.boot == s.boot;
    forall t: Thread | t != PluginThread(i) && WantsStart(u, t) ensures WantsStart(s, t) {
      match t
      case BootThread =>
      case PluginThread(k) => assert u.plugins[k] == s.plugins[k];
      case WorkerThread(j) => assert j < |s.workers| && u.workers[j] == s.workers[j];
    }
  }

  lemma WorkerAddsNoWish(s: State, j: nat, t: Thread)
    requires Enabled(s, WorkerStep(j)) && t != WorkerThread(j) && WantsStart(StepWorker(s, j), t)
    ensures WantsStart(s, t)
  {
    var u := StepWorker(s, j);
    assert u.boot == s.boot && u.plugins == s.plugins;
    match t
    case BootThread =>
    case PluginThread(k) =>
    case WorkerThread(k) => assert k < |s.workers| && u.workers[k] == s.workers[k];
  }

  lemma WorkerLeavesOthers(s: State, j: nat)
    requires Enabled(s, WorkerStep(j))
    ensures OthersAsBefore(s, StepWorker(s, j), WorkerThread(j))
  {
    forall t: Thread | t != WorkerThread(j) && WantsStart(StepWorker(s, j), t) ensures WantsStart(s, t) {
      WorkerAddsNoWish(s, j, t);
    }
  }

  lemma PluginStepKeepsLooked(s: State, i: nat)
    requires Looked(s) && Enabled(s, PluginStep(i))
    ensures Looked(StepPlugin(s, i))
  {
    var u, t := StepPlugin(s, i), PluginThread(i);
    PluginLeavesOthers(s, i);
    match s.plugins[i]
    case Checking(_, _) => OneLogged(s, u, t, Saw(t, s.position));
    case Beginning(p, _) =>
      if Refuses(s, p) {
        NothingLogged(s, u, t);
      } else {
        OneLogged(s, u, t, Began(t, p));
      }
    case Asking(_, _) => NothingLogged(s, u, t);
    case Edge(_) => NothingLogged(s, u, t);
  }

  lemma BootStepKeepsLooked(s: State)
    requires Looked(s) && Enabled(s, BootStep)
    ensures Looked(StepBoot(s))
  {
    var u, t := StepBoot(s), BootThread;
    assert OthersAsBefore(s, u, t);
    if (s.boot.Deciding? && !s.safe) || s.boot.Rereading? {
      OneLogged(s, u, t, Saw(t, s.position));
    } else if (s.boot.Gated? || s.boot.Restarting?) && !Refuses(s, Run) {
      OneLogged(s, u, t, Began(t, Run));
    } else {
      NothingLogged(s, u, t);
    }
  }

  lemma WorkerStepKeepsLooked(s: State, j: nat)
    requires Looked(s) && Enabled(s, WorkerStep(j))
    ensures Looked(StepWorker(s, j))
  {
    var u, t := StepWorker(s, j), WorkerThread(j);
    WorkerLeavesOthers(s, j);
    if s.workers[j].Comparing? {
      OneLogged(s, u, t, Saw(t, s.position));
    } else if s.workers[j].Correcting? && !Refuses(s, s.workers[j].wanted) {
      OneLogged(s, u, t, Began(t, s.workers[j].wanted));
    } else {
      NothingLogged(s, u, t);
    }
  }

  lemma {:induction false} LookedHolds(s: State, run: seq<Action>, t: State)
    requires Looked(s) && Reaches(s, run, t)
    ensures Looked(t)
    decreases run
  {
    if run != [] {
      if run[0].PluginStep? {
        PluginStepKeepsLooked(s, run[0].i);
      } else if run[0].BootStep? {
        BootStepKeepsLooked(s);
      } else if run[0].WorkerStep? {
        WorkerStepKeepsLooked(s, run[0].j);
      } else {
        var t0 := if run[0].Store? then PluginThread(run[0].i) else WorkerThread(run[0].j);
        NothingLogged(s, Next(s, run[0]), t0);
      }
      LookedHolds(Next(s, run[0]), run[1..], t);
    }
  }

  lemma {:induction false} JustifiedAt(log: seq<Event>, k: nat)
    requires Justified(log) && k < |log| && log[k].Began? && log[k].p == Run
    ensures LastBy(log[..k], log[k].thread) == Some(Saw(log[k].thread, Run))
    decreases |log|
  {
    if k < |log| - 1 {
      JustifiedAt(log[..|log| - 1], k);
      assert log[..|log| - 1][..k] == log[..k];
    }
  }

  /** Every start begun, by the boot, a plugin or a worker, comes right after that thread read
      RUN. */
  lemma EveryStartFollowsRun(s: State, run: seq<Action>, t: State, k: nat)
    requires Init(s) && Reaches(s, run, t) && k < |t.log| && t.log[k].Began? && t.log[k].p == Run
    ensures LastBy(t.log[..k], t.log[k].thread) == Some(Saw(t.log[k].thread, Run))
  {
    LookedHolds(s, run, t);
    JustifiedAt(t.log, k);
  }

  // ---- What the boot answers --------------------------------------------------------------------

  /** The result that each last act of the boot is reported as. */
  ghost predicate Answers(safe: bool, last: Option<Event>, r: Result) {
    && (r == SkippedSafeMode <==> safe) && (r == SkippedSafeMode <==> last == None)
    && (r == HeldBySwitch <==> last == Some(Saw(BootThread, Stop)))
    && (r == Failed <==> last == Some(Saw(BootThread, Run)))
    && (r == Begun <==> last == Some(Began(BootThread, Run)))
  }

  /** What the boot did last, in each of its states; s.safe is what it was started with. */
  ghost predicate BootDid(s: State) {
    var last := LastBy(s.log, BootThread);
    match s.boot
    case Deciding => last == None
    case Gated => !s.safe && last == Some(Saw(BootThread, Run))
    case Rereading => !s.safe && last == Some(Saw(BootThread, Stop))
    case Restarting => !s.safe && last == Some(Saw(BootThread, Run))
    case Releasing(r) => Answers(s.safe, last, r)
    case Done(r) => Answers(s.safe, last, r)
  }

  ghost predicate LogsAtMost(s: State, u: State, t: Thread) {
    && u.boot == s.boot && u.safe == s.safe
    && (u.log == s.log || (|u.log| == |s.log| + 1 && u.log[..|s.log|] == s.log && u.log[|s.log|].thread == t))
  }

  lemma PluginLogsForItself(s: State, i: nat)
    requires Enabled(s, PluginStep(i))
    ensures LogsAtMost(s, StepPlugin(s, i), PluginThread(i))
  {
  }

  lemma WorkerLogsForItself(s: State, j: nat)
    requires Enabled(s, WorkerStep(j))
    ensures LogsAtMost(s, StepWorker(s, j), WorkerThread(j))
  {
  }

  lemma OthersLogForThemselves(s: State, a: Action)
    requires Enabled(s, a) && !a.BootStep?
    ensures LastBy(Next(s, a).log, BootThread) == LastBy(s.log, BootThread)
    ensures Next(s, a).boot == s.boot && Next(s, a).safe == s.safe
  {
    if a.PluginStep? {
      PluginLogsForItself(s, a.i);
    } else if a.WorkerStep? {
      WorkerLogsForItself(s, a.j);
    }
  }

  lemma BootLogsForItself(s: State)
    requires BootDid(s) && Enabled(s, BootStep)
    ensures BootDid(StepBoot(s)) && StepBoot(s).safe == s.safe
  {
    LastBySnoc(s.log, Saw(BootThread, s.position));
    LastBySnoc(s.log, Began(BootThread, Run));
  }

  lemma {:induction false} BootDidHolds(s: State, run: seq<Action>, t: State)
    requires BootDid(s) && Reaches(s, run, t)
    ensures BootDid(t) && t.safe == s.safe
    decreases run
  {
    if run != [] {
      if run[0].BootStep? {
        BootLogsForItself(s);
      } else {
        OthersLogForThemselves(s, run[0]);
      }
      BootDidHolds(Next(s, run[0]), run[1..], t);
    }
  }

  lemma {:induction false} NoneIsNothing(log: seq<Event>, t: Thread)
    requires LastBy(log, t) == None
    ensures forall k :: 0 <= k < |log| ==> log[k].thread != t
    decreases |log|
  {
    if log != [] {
      NoneIsNothing(log[..|log| - 1], t);
    }
  }

  /** Whatever the interleaving, the boot's answer is what it did: skipped exactly in safe mode, held
      exactly when it last read STOP, begun exactly when it began the start, failed exactly when
      it last read RUN and its start was refused. */
  lemma BootAnswersWhatItDid(s: State, run: seq<Action>, t: State)
    requires Init(s) && Reaches(s, run, t) && t.boot.Done?
    ensures Answers(s.safe, LastBy(t.log, BootThread), t.boot.result)
  {
    BootDidHolds(s, run, t);
  }

  /** In safe mode the boot does not look at the switch and begins nothing. */
  lemma SafeModeBeginsNothing(s: State, run: seq<Action>, t: State)
    requires Init(s) && s.safe && Reaches(s, run, t)
    ensures forall k :: 0 <= k < |t.log| ==> t.log[k].thread != BootThread
    ensures t.boot.Done? ==> t.boot == Done(SkippedSafeMode)
  {
    BootDidHolds(s, run, t);
    NoneIsNothing(t.log, BootThread);
  }

  // ---- The boot comes to an end ------------------------------------------------------------------

  function BootStepsLeft(b: Boot): nat {
    match b
    case Deciding => 5
    case Gated => 4
    case Releasing(_) => 3
    case Rereading => 2
    case Restarting => 1
    case Done(_) => 0
  }

  function BootSteps(run: seq<Action>): nat {
    if run == [] then 0 else (if run[0].BootStep? then 1 else 0) + BootSteps(run[1..])
  }

  lemma BootStepIsUsedUp(s: State, a: Action)
    requires Enabled(s, a)
    ensures BootStepsLeft(Next(s, a).boot) + (if a.BootStep? then 1 else 0) <= BootStepsLeft(s.boot)
  {
    if a.PluginStep? {
      PluginLogsForItself(s, a.i);
    } else if a.WorkerStep? {
      WorkerLogsForItself(s, a.j);
    }
  }

  lemma {:induction false} BootStepsRunOut(s: State, run: seq<Action>, t: State)
    requires Phases(s) && Reaches(s, run, t)
    ensures Phases(t) && (t.boot.Done? || BootSteps(run) < BootStepsLeft(s.boot))
    decreases run
  {
    if run != [] {
      StepKeepsPhases(s, run[0]);
      BootStepIsUsedUp(s, run[0]);
      BootStepsRunOut(Next(s, run[0]), run[1..], t);
    }
  }

  /** Nothing holds the boot up, and five steps of its own are enough for it; the hold on the plugins'
      requests is over when it is done. */
  lemma BootEnds(s: State, run: seq<Action>, t: State)
    requires Init(s) && Reaches(s, run, t)
    ensures t.boot.Done? || (Enabled(t, BootStep) && BootSteps(run) < 5)
    ensures t.boot.Done? ==> !t.held
  {
    InitKeepsAll(s);
    BootStepsRunOut(s, run, t);
  }

  /** A worker's correction is begun, or the record of the flip is kept for the next worker. */
  lemma CorrectionIsBegunOrKept(s: State, j: nat)
    requires Enabled(s, WorkerStep(j)) && s.workers[j].Correcting?
    ensures var u, p := StepWorker(s, j), s.workers[j].wanted;
            if Refuses(s, p) then u.moved && u.plc == s.plc && u.log == s.log
            else u.plc == To(p) && u.log == s.log + [Began(WorkerThread(j), p)] && u.moved == s.moved
  {
  }
}
