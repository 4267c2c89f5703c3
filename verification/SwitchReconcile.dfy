/** After the boot: does the PLC end where the switch came to rest? Requests are dropped while a
    transition is in flight, and the worker that finishes the transition makes up for them. */
module SwitchReconcile {
  import opened BootSwitch

  /** Where the PLC is, or is going. */
  function Heading(c: Plc): Position {
    match c
    case To(p) => p
    case Running => Run
    case _ => Stop
  }

  predicate Follows(s: State) { s.position == Heading(s.plc) && s.plc != Error }

  /** A transition that failed leaves the PLC in error, whatever the switch says. */
  predicate FollowsOrFailed(s: State) { Follows(s) || s.plc == Error }

  /** A worker that will not act any more: it is gone, or about to find that the PLC had failed. */
  predicate Spent(w: Worker) { w.Gone? || w == Comparing(Error) }

  ghost predicate OthersSpent(s: State, j: nat) {
    forall k :: 0 <= k < |s.workers| && k != j ==> Spent(s.workers[k])
  }

  /** w is the one worker that is not spent, or there is none and w is Gone. */
  ghost predicate Only(s: State, w: Worker) {
    if Spent(w) then w.Gone? && forall j :: 0 <= j < |s.workers| ==> Spent(s.workers[j])
    else exists j :: 0 <= j < |s.workers| && s.workers[j] == w && OthersSpent(s, j)
  }

  /** A plugin has stored where the switch is and not yet recorded the movement. */
  predicate EdgeHere(s: State) {
    exists i :: 0 <= i < |s.plugins| && s.plugins[i] == Edge(s.position)
  }

  /** A plugin is on its way to asking for where the switch is. */
  predicate Wanted(s: State) {
    exists i :: 0 <= i < |s.plugins| && !s.plugins[i].Idle? && s.plugins[i].p == s.position
  }

  // ---- Calm -------------------------------------------------------------------------------------

  /** No worker is between its landing and its end, unless all it found is that the PLC had failed. */
  ghost predicate Quiet(s: State) {
    forall j :: 0 <= j < |s.workers| ==> Spent(s.workers[j]) || s.workers[j].Performing?
  }

  /** A request for p is for where the switch is, or the movement since is on record or about to be. */
  predicate Current(s: State, p: Position) { p == s.position || s.moved || EdgeHere(s) }

  predicate AsksThrough(s: State, a: Action) {
    a.PluginStep? && a.i < |s.plugins| && s.plugins[a.i].Beginning? && !Refuses(s, s.plugins[a.i].p)
  }

  predicate BootsThrough(s: State, a: Action) {
    a.BootStep? && (s.boot.Gated? || s.boot.Restarting?) && !Refuses(s, Run)
  }

  /** A request that goes through finds the workers quiet. */
  ghost predicate Unhurried(s: State, a: Action) {
    AsksThrough(s, a) || BootsThrough(s, a) ==> Quiet(s)
  }

  /** And one of a plugin is current. */
  ghost predicate Calm(s: State, a: Action) {
    Unhurried(s, a) && (AsksThrough(s, a) ==> Current(s, s.plugins[a.i].p))
  }

  ghost predicate CalmRun(s: State, run: seq<Action>)
    decreases run
  {
    run != [] && Enabled(s, run[0]) ==> Calm(s, run[0]) && CalmRun(Next(s, run[0]), run[1..])
  }

  ghost predicate UnhurriedRun(s: State, run: seq<Action>)
    decreases run
  {
    run != [] && Enabled(s, run[0]) ==> Unhurried(s, run[0]) && UnhurriedRun(Next(s, run[0]), run[1..])
  }

  // ---- What calm keeps ----------------------------------------------------------------------------

  /** At any time: one worker at most, and it knows where the PLC is. */
  ghost predicate Placed(s: State, w: Worker) {
    && Only(s, w)
    && (s.held ==> s.boot.Deciding? || s.boot.Gated? || s.boot.Releasing?)
    && (forall i :: 0 <= i < |s.plugins| && s.plugins[i].Checking? ==> s.plugins[i].p == Run)
    && (s.plc.To? <==> w == Performing(Heading(s.plc))) && (w.Performing? ==> s.plc.To?)
    && (w.Comparing? ==> w.landed == s.plc)
    && (w.Correcting? ==> s.plc != Error && w.wanted != Heading(s.plc))
  }

  /** What sees to it that the PLC will follow the switch when it does not, and that a correction to
      an older position will be corrected. */
  predicate Obliged(s: State, w: Worker) {
    && (!FollowsOrFailed(s) ==>
          match w
          case Performing(_) => s.moved || EdgeHere(s)
          case Taking => s.moved || Wanted(s)
          case Gone => Wanted(s)
          case _ => true)
    && (w.Correcting? && s.position != w.wanted ==> s.moved || EdgeHere(s))
  }

  lemma SameWorkers(s: State, t: State, w: Worker)
    requires Only(s, w) && t.workers == s.workers
    ensures Only(t, w)
  {
    if !Spent(w) {
      var j :| 0 <= j < |s.workers| && s.workers[j] == w && OthersSpent(s, j);
      assert t.workers[j] == w && OthersSpent(t, j);
    }
  }

  /** A worker moves on: it is the only one still, or there is none now. */
  lemma WorkerMoves(s: State, t: State, w: Worker, j: nat, v: Worker)
    requires Only(s, w) && j < |s.workers| && !Spent(s.workers[j]) && t.workers == s.workers[j := v]
    ensures s.workers[j] == w && OthersSpent(s, j)
    ensures Only(t, if Spent(v) then Gone else v)
  {
    var k :| 0 <= k < |s.workers| && s.workers[k] == w && OthersSpent(s, k);
    assert k == j;
    if !Spent(v) {
      assert t.workers[j] == v && OthersSpent(t, j);
    }
  }

  /** A spent worker goes. */
  lemma SpentGoes(s: State, t: State, w: Worker, j: nat)
    requires Only(s, w) && j < |s.workers| && Spent(s.workers[j]) && t.workers == s.workers[j := Gone]
    ensures Only(t, w)
  {
    if !Spent(w) {
      var k :| 0 <= k < |s.workers| && s.workers[k] == w && OthersSpent(s, k);
      assert t.workers[k] == w && OthersSpent(t, k);
    }
  }

  /** A transition begins when nobody else is at work. */
  lemma WorkerBegins(s: State, t: State, v: Worker)
    requires Only(s, Gone) && t.workers == s.workers + [v] && !Spent(v)
    ensures Only(t, v)
  {
    assert t.workers[|s.workers|] == v && OthersSpent(t, |s.workers|);
  }

  lemma CorrectionBegins(s: State, t: State, w: Worker, j: nat, v: Worker)
    requires Only(s, w) && j < |s.workers| && !Spent(s.workers[j]) && !Spent(v)
    requires t.workers == (s.workers + [v])[j := Gone]
    ensures Only(t, v)
  {
    WorkerMoves(s, s.(workers := s.workers[j := Gone]), w, j, Gone);
    WorkerBegins(s.(workers := s.workers[j := Gone]), t, v);
  }

  lemma QuietIsGone(s: State, w: Worker)
    requires Placed(s, w) && Quiet(s) && !s.plc.To?
    ensures w.Gone?
  {
  }

  /** A transition for p begins. */
  lemma BeginStaysPlaced(s: State, t: State, w: Worker, p: Position)
    requires Placed(s, w) && Quiet(s) && !Refuses(s, p)
    requires t.workers == s.workers + [Performing(p)] && t.plc == To(p)
    requires t.held ==> t.boot.Deciding? || t.boot.Gated? || t.boot.Releasing?
    requires forall i :: 0 <= i < |t.plugins| && t.plugins[i].Checking? ==> t.plugins[i].p == Run
    ensures w.Gone? && Placed(t, Performing(p))
  {
    QuietIsGone(s, w);
    WorkerBegins(s, t, Performing(p));
  }

  lemma CheckingIsForRun(s: State, i: nat)
    requires Enabled(s, PluginStep(i))
    requires forall k :: 0 <= k < |s.plugins| && s.plugins[k].Checking? ==> s.plugins[k].p == Run
    ensures var t := StepPlugin(s, i);
            forall k :: 0 <= k < |t.plugins| && t.plugins[k].Checking? ==> t.plugins[k].p == Run
  {
  }

  lemma PluginStaysPlaced(s: State, w: Worker, i: nat) returns (v: Worker)
    requires Placed(s, w) && Enabled(s, PluginStep(i)) && Unhurried(s, PluginStep(i))
    ensures Placed(StepPlugin(s, i), v)
    ensures v == if AsksThrough(s, PluginStep(i)) then Performing(s.plugins[i].p) else w
    ensures AsksThrough(s, PluginStep(i)) ==> w.Gone?
  {
    var t := StepPlugin(s, i);
    CheckingIsForRun(s, i);
    if AsksThrough(s, PluginStep(i)) {
      v := Performing(s.plugins[i].p);
      BeginStaysPlaced(s, t, w, s.plugins[i].p);
    } else {
      v := w;
      assert t.plc == s.plc && t.workers == s.workers && t.boot == s.boot && t.held == s.held;
      SameWorkers(s, t, w);
    }
  }

  lemma BootStaysPlaced(s: State, w: Worker) returns (v: Worker)
    requires Placed(s, w) && Enabled(s, BootStep) && Unhurried(s, BootStep)
    ensures Placed(StepBoot(s), v)
  {
    var t := StepBoot(s);
    if BootsThrough(s, BootStep) {
      v := Performing(Run);
      BeginStaysPlaced(s, t, w, Run);
    } else {
      v := w;
      SameWorkers(s, t, w);
    }
  }

  lemma StoreStaysPlaced(s: State, w: Worker, i: nat, p: Position)
    requires Placed(s, w) && Enabled(s, Store(i, p))
    ensures Placed(Next(s, Store(i, p)), w)
  {
    SameWorkers(s, Next(s, Store(i, p)), w);
  }

  lemma LandStaysPlaced(s: State, w: Worker, j: nat, ok: bool)
    requires Placed(s, w) && Enabled(s, Land(j, ok))
    ensures w == s.workers[j] && Placed(Next(s, Land(j, ok)), Taking)
  {
    WorkerMoves(s, Next(s, Land(j, ok)), w, j, Taking);
  }

  /** Where the one worker is after its step. */
  function After(s: State, w: Worker): Worker
  {
    match w
    case Taking => if s.moved then Reading else Gone
    case Reading => if s.plc == Error then Gone else Comparing(s.plc)
    case Comparing(_) => if s.position == Heading(s.plc) then Gone else Correcting(s.position)
    case Correcting(p) => Performing(p)
    case _ => w
  }

  lemma TailStaysPlaced(s: State, w: Worker, j: nat)
    requires Placed(s, w) && Enabled(s, WorkerStep(j)) && !Spent(s.workers[j]) && !s.workers[j].Correcting?
    ensures w == s.workers[j] && Placed(StepWorker(s, j), After(s, w))
  {
    WorkerMoves(s, s.(workers := s.workers[j := Gone]), w, j, Gone);
    WorkerMoves(s, StepWorker(s, j), w, j, StepWorker(s, j).workers[j]);
  }

  lemma CorrectionStaysPlaced(s: State, w: Worker, j: nat)
    requires Placed(s, w) && Enabled(s, WorkerStep(j)) && s.workers[j].Correcting?
    ensures w == s.workers[j] && Placed(StepWorker(s, j), After(s, w))
    ensures StepWorker(s, j).moved == s.moved
  {
    WorkerMoves(s, s.(workers := s.workers[j := Gone]), w, j, Gone);
    CorrectionBegins(s, StepWorker(s, j), w, j, Performing(w.wanted));
  }

  lemma SpentStaysPlaced(s: State, w: Worker, j: nat)
    requires Placed(s, w) && Enabled(s, WorkerStep(j)) && Spent(s.workers[j])
    ensures Placed(StepWorker(s, j), w)
  {
    SpentGoes(s, StepWorker(s, j), w, j);
  }

  lemma SamePlugins(s: State, t: State)
    requires t.plugins == s.plugins && t.position == s.position
    ensures EdgeHere(t) == EdgeHere(s) && Wanted(t) == Wanted(s)
  {
  }

  lemma CorrectionStaysObliged(s: State, w: Worker, j: nat)
    requires Placed(s, w) && Enabled(s, WorkerStep(j)) && s.workers[j].Correcting? && w == s.workers[j]
    ensures Obliged(s, w) ==> Obliged(StepWorker(s, j), After(s, w))
  {
    SamePlugins(s, StepWorker(s, j));
  }

  lemma TailStaysObliged(s: State, w: Worker, j: nat)
    requires Placed(s, w) && Enabled(s, WorkerStep(j)) && !Spent(w) && !w.Correcting? && w == s.workers[j]
    ensures Obliged(s, w) ==> Obliged(StepWorker(s, j), After(s, w))
  {
    SamePlugins(s, StepWorker(s, j));
  }

  lemma WorkerStaysPlaced(s: State, w: Worker, j: nat) returns (v: Worker)
    requires Placed(s, w) && Enabled(s, WorkerStep(j))
    ensures Placed(StepWorker(s, j), v)
    ensures Obliged(s, w) ==> Obliged(StepWorker(s, j), v)
  {
    if Spent(s.workers[j]) {
      v := w;
      SpentStaysPlaced(s, w, j);
    } else if s.workers[j].Correcting? {
      v := After(s, w);
      CorrectionStaysPlaced(s, w, j);
      CorrectionStaysObliged(s, w, j);
    } else {
      v := After(s, w);
      TailStaysPlaced(s, w, j);
      TailStaysObliged(s, w, j);
    }
  }

  /** What the other plugins promise is still promised. */
  lemma OthersKept(s: State, t: State, i: nat)
    requires i < |s.plugins| == |t.plugins| && t.position == s.position
    requires forall k :: 0 <= k < |s.plugins| && k != i ==> t.plugins[k] == s.plugins[k]
    ensures EdgeHere(s) && s.plugins[i] != Edge(s.position) ==> EdgeHere(t)
    ensures Wanted(s) && (s.plugins[i].Idle? || s.plugins[i].p != s.position) ==> Wanted(t)
    ensures !t.plugins[i].Idle? && t.plugins[i].p == t.position ==> Wanted(t)
  {
  }

  lemma StoreStaysObliged(s: State, w: Worker, i: nat, p: Position)
    requires Enabled(s, Store(i, p)) && Obliged(s, w)
    ensures Obliged(Next(s, Store(i, p)), w)
  {
    var t := Next(s, Store(i, p));
    if p != s.position {
      assert t.plugins[i] == Edge(t.position);
    } else {
      OthersKept(s, t, i);
    }
  }

  lemma PluginStaysObliged(s: State, w: Worker, i: nat, v: Worker)
    requires Placed(s, w) && s.boot.Done? && Obliged(s, w)
    requires Enabled(s, PluginStep(i)) && Calm(s, PluginStep(i))
    requires v == if AsksThrough(s, PluginStep(i)) then Performing(s.plugins[i].p) else w
    ensures Obliged(StepPlugin(s, i), v)
  {
    var t := StepPlugin(s, i);
    OthersKept(s, t, i);
    match s.plugins[i]
    case Edge(_) =>
    case Asking(_, _) =>
    case Checking(_, _) =>
    case Beginning(_, _) =>
  }

  lemma LandStaysObliged(s: State, w: Worker, j: nat, ok: bool)
    requires Placed(s, w) && Enabled(s, Land(j, ok)) && Obliged(s, w) && w == s.workers[j]
    ensures Obliged(Next(s, Land(j, ok)), Taking)
  {
    var t := Next(s, Land(j, ok));
    if EdgeHere(s) {
      var i :| 0 <= i < |s.plugins| && s.plugins[i] == Edge(s.position);
      assert !t.plugins[i].Idle? && t.plugins[i].p == t.position;
    }
  }

  /** Quiet workers keep it to one at work, and calm keeps what sees to it that the switch will be
      followed. */
  lemma StepStaysPlaced(s: State, w: Worker, a: Action) returns (v: Worker)
    requires Placed(s, w) && Enabled(s, a) && Unhurried(s, a)
    ensures Placed(Next(s, a), v)
    ensures Calm(s, a) && s.boot.Done? && Obliged(s, w) ==> Obliged(Next(s, a), v)
  {
    match a
    case Store(i, p) =>
      v := w;
      StoreStaysPlaced(s, w, i, p);
      if Obliged(s, w) {
        StoreStaysObliged(s, w, i, p);
      }
    case PluginStep(i) =>
      v := PluginStaysPlaced(s, w, i);
      if Calm(s, a) && s.boot.Done? && Obliged(s, w) {
        PluginStaysObliged(s, w, i, v);
      }
    case BootStep => v := BootStaysPlaced(s, w);
    case Land(j, ok) =>
      v := Taking;
      LandStaysPlaced(s, w, j, ok);
      if Obliged(s, w) {
        LandStaysObliged(s, w, j, ok);
      }
    case WorkerStep(j) => v := WorkerStaysPlaced(s, w, j);
  }

  lemma {:induction false} PlacedHolds(s: State, w: Worker, run: seq<Action>, t: State) returns (v: Worker)
    requires Placed(s, w) && Reaches(s, run, t) && UnhurriedRun(s, run)
    ensures Placed(t, v)
    decreases run
  {
    if run == [] {
      v := w;
    } else {
      var u := StepStaysPlaced(s, w, run[0]);
      v := PlacedHolds(Next(s, run[0]), u, run[1..], t);
    }
  }

  lemma DoneStaysDone(s: State, a: Action)
    requires s.boot.Done? && Enabled(s, a)
    ensures Next(s, a).boot.Done?
  {
  }

  lemma {:induction false} ObligedHolds(s: State, w: Worker, run: seq<Action>, t: State) returns (v: Worker)
    requires Placed(s, w) && s.boot.Done? && Obliged(s, w) && Reaches(s, run, t) && CalmRun(s, run)
    ensures Placed(t, v) && Obliged(t, v)
    decreases run
  {
    if run == [] {
      v := w;
    } else {
      var u := StepStaysPlaced(s, w, run[0]);
      DoneStaysDone(s, run[0]);
      v := ObligedHolds(Next(s, run[0]), u, run[1..], t);
    }
  }

  /** At rest: the boot is over, the plugins idle and no worker left. */
  ghost predicate AtRest(s: State) {
    && s.boot.Done? && !s.held && (forall i :: 0 <= i < |s.plugins| ==> s.plugins[i].Idle?)
    && forall j :: 0 <= j < |s.workers| ==> s.workers[j].Gone?
  }

  /** Every transition of a run lands where it was going. */
  predicate AllLand(run: seq<Action>) {
    forall a :: a in run && a.Land? ==> a.ok
  }

  lemma {:induction false} NothingFails(s: State, run: seq<Action>, t: State)
    requires s.plc != Error && Reaches(s, run, t) && AllLand(run)
    ensures t.plc != Error
    decreases run
  {
    if run != [] {
      assert run[0] in run;
      NothingFails(Next(s, run[0]), run[1..], t);
    }
  }

  /** With any number of plugins: from rest on, whenever it comes to rest again the PLC is where the
      switch is, however often and however fast the switch was flipped meanwhile, or in the error its
      last transition ended in; and not in error when every transition landed. */
  lemma SwitchIsFollowed(s: State, run: seq<Action>, t: State)
    requires AtRest(s) && FollowsOrFailed(s) && !s.plc.To?
    requires Reaches(s, run, t) && CalmRun(s, run) && AtRest(t)
    ensures FollowsOrFailed(t)
    ensures s.plc != Error && AllLand(run) ==> Follows(t)
  {
    var v := ObligedHolds(s, Gone, run, t);
    assert v.Gone?;
    if s.plc != Error && AllLand(run) {
      NothingFails(s, run, t);
    }
  }

  // ---- A worker that is slow to reconcile -----------------------------------------------------

  /** The parts of a state that matter once the boot is over. */
  ghost predicate Shows(s: State, position: Position, moved: bool, plc: Plc, plugins: seq<Plugin>,
                        workers: seq<Worker>) {
    s.boot.Done? && !s.held && s.position == position && s.moved == moved && s.plc == plc &&
    s.plugins == plugins && s.workers == workers
  }

  lemma OneMore(s: State, a: Action, run: seq<Action>, t: State)
    requires Enabled(s, a) && Reaches(Next(s, a), run, t)
    ensures Reaches(s, [a] + run, t)
  {
    assert ([a] + run)[1..] == run;
  }

  lemma HeadOff<T>(a: seq<T>, b: seq<T>)
    requires a != []
    ensures a + b != [] && (a + b)[0] == a[0] && (a + b)[1..] == a[1..] + b
  {
  }

  lemma {:induction false} Join(s: State, first: seq<Action>, t: State, second: seq<Action>, u: State)
    requires Reaches(s, first, t) && Reaches(t, second, u)
    ensures Reaches(s, first + second, u)
    decreases first
  {
    if first == [] {
      assert first + second == second;
    } else {
      HeadOff(first, second);
      Join(Next(s, first[0]), first[1..], t, second, u);
    }
  }

  /** The switch is turned to STOP; the transition it asks for lands. */
  lemma FlippedToStop(s: State) returns (run: seq<Action>, t: State)
    requires Shows(s, Run, false, Running, [Idle], [Gone])
    ensures Reaches(s, run, t) && Shows(t, Stop, true, Stopped, [Idle], [Gone, Taking])
  {
    var s1 := Next(s, Store(0, Stop));
    var s2 := Next(s1, PluginStep(0));
    var s3 := Next(s2, PluginStep(0));
    var s4 := Next(s3, PluginStep(0));
    t := Next(s4, Land(1, true));
    OneMore(s4, Land(1, true), [], t);
    run := [Land(1, true)] + [];
    OneMore(s3, PluginStep(0), run, t);
    run := [PluginStep(0)] + run;
    OneMore(s2, PluginStep(0), run, t);
    run := [PluginStep(0)] + run;
    OneMore(s1, PluginStep(0), run, t);
    run := [PluginStep(0)] + run;
    OneMore(s, Store(0, Stop), run, t);
    run := [Store(0, Stop)] + run;
  }

  /** Before that transition's worker has reconciled, the switch is turned to RUN: a second one. */
  lemma FlippedToRun(s: State) returns (run: seq<Action>, t: State)
    requires Shows(s, Stop, true, Stopped, [Idle], [Gone, Taking])
    ensures Reaches(s, run, t) && Shows(t, Run, true, To(Run), [Idle], [Gone, Taking, Performing(Run)])
  {
    var s1 := Next(s, Store(0, Run));
    var s2 := Next(s1, PluginStep(0));
    var s3 := Next(s2, PluginStep(0));
    var s4 := Next(s3, PluginStep(0));
    t := Next(s4, PluginStep(0));
    OneMore(s4, PluginStep(0), [], t);
    run := [PluginStep(0)] + [];
    OneMore(s3, PluginStep(0), run, t);
    run := [PluginStep(0)] + run;
    OneMore(s2, PluginStep(0), run, t);
    run := [PluginStep(0)] + run;
    OneMore(s1, PluginStep(0), run, t);
    run := [PluginStep(0)] + run;
    OneMore(s, Store(0, Run), run, t);
    run := [Store(0, Run)] + run;
  }

  /** Back to STOP, dropped because the second transition is in flight. */
  lemma FlippedBack(s: State) returns (run: seq<Action>, t: State)
    requires Shows(s, Run, true, To(Run), [Idle], [Gone, Taking, Performing(Run)])
    ensures Reaches(s, run, t) && Shows(t, Stop, true, To(Run), [Idle], [Gone, Taking, Performing(Run)])
  {
    var s1 := Next(s, Store(0, Stop));
    var s2 := Next(s1, PluginStep(0));
    var s3 := Next(s2, PluginStep(0));
    t := Next(s3, PluginStep(0));
    OneMore(s3, PluginStep(0), [], t);
    run := [PluginStep(0)] + [];
    OneMore(s2, PluginStep(0), run, t);
    run := [PluginStep(0)] + run;
    OneMore(s1, PluginStep(0), run, t);
    run := [PluginStep(0)] + run;
    OneMore(s, Store(0, Stop), run, t);
    run := [Store(0, Stop)] + run;
  }

  /** The first worker takes the movement, finds the PLC in transition and leaves it at that; the
      second lands and finds no movement. */
  lemma MovementIsUsedUp(s: State) returns (run: seq<Action>, t: State)
    requires Shows(s, Stop, true, To(Run), [Idle], [Gone, Taking, Performing(Run)])
    ensures Reaches(s, run, t) && Shows(t, Stop, false, Running, [Idle], [Gone, Gone, Gone])
  {
    var s1 := Next(s, WorkerStep(1));
    var s2 := Next(s1, WorkerStep(1));
    var s3 := Next(s2, WorkerStep(1));
    var s4 := Next(s3, Land(2, true));
    t := Next(s4, WorkerStep(2));
    OneMore(s4, WorkerStep(2), [], t);
    run := [WorkerStep(2)] + [];
    OneMore(s3, Land(2, true), run, t);
    run := [Land(2, true)] + run;
    OneMore(s2, WorkerStep(1), run, t);
    run := [WorkerStep(1)] + run;
    OneMore(s1, WorkerStep(1), run, t);
    run := [WorkerStep(1)] + run;
    OneMore(s, WorkerStep(1), run, t);
    run := [WorkerStep(1)] + run;
  }

  /** Out of the safe mode, with the switch at RUN. */
  function PoweredOn(plugins: nat): (s: State)
    ensures Init(s)
  {
    State(false, Run, false, true, Stopped, Deciding, seq(plugins, _ => Idle), [], [])
  }

  /** The boot starts the PLC, and the worker of that start finds nothing to reconcile. */
  lemma BootStarts(plugins: nat) returns (run: seq<Action>, t: State)
    ensures Reaches(PoweredOn(plugins), run, t)
    ensures Shows(t, Run, false, Running, PoweredOn(plugins).plugins, [Gone])
  {
    var s := PoweredOn(plugins);
    var s1 := Next(s, BootStep);
    var s2 := Next(s1, BootStep);
    var s3 := Next(s2, BootStep);
    var s4 := Next(s3, Land(0, true));
    t := Next(s4, WorkerStep(0));
    OneMore(s4, WorkerStep(0), [], t);
    run := [WorkerStep(0)] + [];
    OneMore(s3, Land(0, true), run, t);
    run := [Land(0, true)] + run;
    OneMore(s2, BootStep, run, t);
    run := [BootStep] + run;
    OneMore(s1, BootStep, run, t);
    run := [BootStep] + run;
    OneMore(s, BootStep, run, t);
    run := [BootStep] + run;
  }

  lemma FlipIsLost(s: State) returns (run: seq<Action>, t: State)
    requires Shows(s, Run, false, Running, [Idle], [Gone])
    ensures Reaches(s, run, t) && Shows(t, Stop, false, Running, [Idle], [Gone, Gone, Gone])
  {
    var r1, t1 := FlippedToStop(s);
    var r2, t2 := FlippedToRun(t1);
    var r3, t3 := FlippedBack(t2);
    var r4;
    r4, t := MovementIsUsedUp(t3);
    Join(s, r1, t1, r2, t2);
    Join(s, r1 + r2, t2, r3, t3);
    Join(s, r1 + r2 + r3, t3, r4, t);
    run := r1 + r2 + r3 + r4;
  }

  /** Without the calm a flip is lost for good: after a boot that followed the switch everything is
      at rest again, the switch stands at STOP and the PLC runs. */
  lemma SlowWorkerLosesAStop() returns (boot: seq<Action>, s: State, run: seq<Action>, t: State)
    ensures Reaches(PoweredOn(1), boot, s) && AtRest(s) && Follows(s)
    ensures Reaches(s, run, t) && AtRest(t) && t.position == Stop && t.plc == Running
  {
    boot, s := BootStarts(1);
    assert PoweredOn(1).plugins == [Idle];
    run, t := FlipIsLost(s);
  }

  // ---- A plugin that is slow to ask ------------------------------------------------------------

  const LATE: Plugin := Beginning(Stop, true)

  lemma OneMoreQuiet(s: State, a: Action, run: seq<Action>, t: State)
    requires Enabled(s, a) && Unhurried(s, a) && Reaches(Next(s, a), run, t) && UnhurriedRun(Next(s, a), run)
    ensures Reaches(s, [a] + run, t) && UnhurriedRun(s, [a] + run)
  {
    assert ([a] + run)[1..] == run;
  }

  lemma SecondAsks(s: State) returns (run: seq<Action>, t: State)
    requires Shows(s, Stop, true, Running, [LATE, Idle], [Gone])
    ensures Reaches(s, run, t) && UnhurriedRun(s, run)
    ensures Shows(t, Stop, true, To(Stop), [LATE, Idle], [Gone, Performing(Stop)])
  {
    var s1 := Next(s, Store(1, Stop));
    var s2 := Next(s1, PluginStep(1));
    t := Next(s2, PluginStep(1));
    OneMoreQuiet(s2, PluginStep(1), [], t);
    run := [PluginStep(1)] + [];
    OneMoreQuiet(s1, PluginStep(1), run, t);
    run := [PluginStep(1)] + run;
    OneMoreQuiet(s, Store(1, Stop), run, t);
    run := [Store(1, Stop)] + run;
  }

  /** Both plugins see the switch turned to STOP; the first has yet to ask for it. */
  lemma FirstIsSlow(s: State) returns (run: seq<Action>, t: State)
    requires Shows(s, Run, false, Running, [Idle, Idle], [Gone])
    ensures Reaches(s, run, t) && UnhurriedRun(s, run)
    ensures Shows(t, Stop, true, To(Stop), [LATE, Idle], [Gone, Performing(Stop)])
  {
    var s1 := Next(s, Store(0, Stop));
    var s2 := Next(s1, PluginStep(0));
    var s3 := Next(s2, PluginStep(0));
    var late;
    late, t := SecondAsks(s3);
    OneMoreQuiet(s2, PluginStep(0), late, t);
    run := [PluginStep(0)] + late;
    OneMoreQuiet(s1, PluginStep(0), run, t);
    run := [PluginStep(0)] + run;
    OneMoreQuiet(s, Store(0, Stop), run, t);
    run := [Store(0, Stop)] + run;
  }

  /** A transition lands and its worker finds the PLC where the switch is. */
  lemma LandsInStep(s: State, j: nat, p: Position, others: seq<Worker>) returns (run: seq<Action>, t: State)
    requires j == |others| && Shows(s, p, true, To(p), [LATE, Idle], others + [Performing(p)])
    requires forall k :: 0 <= k < |others| ==> others[k].Gone?
    ensures Reaches(s, run, t) && UnhurriedRun(s, run)
    ensures Shows(t, p, false, Settled(p), [LATE, Idle], others + [Gone])
  {
    var s1 := Next(s, Land(j, true));
    var s2 := Next(s1, WorkerStep(j));
    var s3 := Next(s2, WorkerStep(j));
    t := Next(s3, WorkerStep(j));
    OneMoreQuiet(s3, WorkerStep(j), [], t);
    run := [WorkerStep(j)] + [];
    OneMoreQuiet(s2, WorkerStep(j), run, t);
    run := [WorkerStep(j)] + run;
    OneMoreQuiet(s1, WorkerStep(j), run, t);
    run := [WorkerStep(j)] + run;
    OneMoreQuiet(s, Land(j, true), run, t);
    run := [Land(j, true)] + run;
  }

  /** The switch is turned back to RUN, and the second plugin asks for that. */
  lemma SecondTurnsBack(s: State) returns (run: seq<Action>, t: State)
    requires Shows(s, Stop, false, Stopped, [LATE, Idle], [Gone, Gone])
    ensures Reaches(s, run, t) && UnhurriedRun(s, run)
    ensures Shows(t, Run, true, To(Run), [LATE, Idle], [Gone, Gone, Performing(Run)])
  {
    var s1 := Next(s, Store(1, Run));
    var s2 := Next(s1, PluginStep(1));
    var s3 := Next(s2, PluginStep(1));
    var s4 := Next(s3, PluginStep(1));
    t := Next(s4, PluginStep(1));
    OneMoreQuiet(s4, PluginStep(1), [], t);
    run := [PluginStep(1)] + [];
    OneMoreQuiet(s3, PluginStep(1), run, t);
    run := [PluginStep(1)] + run;
    OneMoreQuiet(s2, PluginStep(1), run, t);
    run := [PluginStep(1)] + run;
    OneMoreQuiet(s1, PluginStep(1), run, t);
    run := [PluginStep(1)] + run;
    OneMoreQuiet(s, Store(1, Run), run, t);
    run := [Store(1, Run)] + run;
  }

  /** The first plugin asks at last, and the worker of its transition finds no movement. */
  lemma FirstAsks(s: State) returns (run: seq<Action>, t: State)
    requires Shows(s, Run, false, Running, [LATE, Idle], [Gone, Gone, Gone])
    ensures Reaches(s, run, t) && UnhurriedRun(s, run)
    ensures Shows(t, Run, false, Stopped, [Idle, Idle], [Gone, Gone, Gone, Gone])
  {
    var s1 := Next(s, PluginStep(0));
    var s2 := Next(s1, Land(3, true));
    t := Next(s2, WorkerStep(3));
    OneMoreQuiet(s2, WorkerStep(3), [], t);
    run := [WorkerStep(3)] + [];
    OneMoreQuiet(s1, Land(3, true), run, t);
    run := [Land(3, true)] + run;
    OneMoreQuiet(s, PluginStep(0), run, t);
    run := [PluginStep(0)] + run;
  }

  lemma {:induction false} UnhurriedJoin(s: State, first: seq<Action>, t: State, second: seq<Action>)
    requires Reaches(s, first, t) && UnhurriedRun(s, first) && UnhurriedRun(t, second)
    ensures UnhurriedRun(s, first + second)
    decreases first
  {
    if first == [] {
      assert first + second == second;
    } else {
      HeadOff(first, second);
      UnhurriedJoin(Next(s, first[0]), first[1..], t, second);
    }
  }

  lemma JoinUnhurried(s: State, first: seq<Action>, t: State, second: seq<Action>, u: State)
    requires Reaches(s, first, t) && UnhurriedRun(s, first) && Reaches(t, second, u) && UnhurriedRun(t, second)
    ensures Reaches(s, first + second, u) && UnhurriedRun(s, first + second)
  {
    Join(s, first, t, second, u);
    UnhurriedJoin(s, first, t, second);
  }

  lemma RequestIsLate(s: State) returns (run: seq<Action>, t: State)
    requires Shows(s, Run, false, Running, [Idle, Idle], [Gone])
    ensures Reaches(s, run, t) && UnhurriedRun(s, run)
    ensures Shows(t, Run, false, Stopped, [Idle, Idle], [Gone, Gone, Gone, Gone])
  {
    var r1, t1 := FirstIsSlow(s);
    assert [Gone] + [Performing(Stop)] == [Gone, Performing(Stop)] && [Gone] + [Gone] == [Gone, Gone];
    var r2, t2 := LandsInStep(t1, 1, Stop, [Gone]);
    var r3, t3 := SecondTurnsBack(t2);
    assert [Gone, Gone] + [Performing(Run)] == [Gone, Gone, Performing(Run)];
    var r4, t4 := LandsInStep(t3, 2, Run, [Gone, Gone]);
    assert [Gone, Gone] + [Gone] == [Gone, Gone, Gone];
    var r5;
    r5, t := FirstAsks(t4);
    JoinUnhurried(s, r1, t1, r2, t2);
    JoinUnhurried(s, r1 + r2, t2, r3, t3);
    JoinUnhurried(s, r1 + r2 + r3, t3, r4, t4);
    JoinUnhurried(s, r1 + r2 + r3 + r4, t4, r5, t);
    run := r1 + r2 + r3 + r4 + r5;
  }

  /** That requests find the workers quiet is not enough: two plugins see the switch turned to STOP and
      back, one asks for the STOP only after the other's requests are done, and everything is at rest
      with the switch at RUN and the PLC stopped. */
  lemma SlowPluginLosesARun() returns (boot: seq<Action>, s: State, run: seq<Action>, t: State)
    ensures Reaches(PoweredOn(2), boot, s) && AtRest(s) && Follows(s)
    ensures Reaches(s, run, t) && UnhurriedRun(s, run) && AtRest(t)
    ensures t.position == Run && t.plc == Stopped
  {
    boot, s := BootStarts(2);
    assert PoweredOn(2).plugins == [Idle, Idle];
    run, t := RequestIsLate(s);
  }
}
