/** When calm is not kept, and when what should see to it is missing, a flip of the switch can be
    lost: exactly when the PLC is sure to follow the switch. */
module LostFlips {
  import opened BootSwitch
  import opened SwitchReconcile

  /** Some calm run from here comes to rest with the PLC not where the switch is. */
  ghost predicate Loses(s: State) {
    exists run, t :: CalmRun(s, run) && Reaches(s, run, t) && AtRest(t) && !FollowsOrFailed(t)
  }

  /** Whenever a calm run from here comes to rest, the PLC is where the switch is, or failed. */
  ghost predicate StaysFollowed(s: State) {
    forall run, t :: CalmRun(s, run) && Reaches(s, run, t) && AtRest(t) ==> FollowsOrFailed(t)
  }

  lemma RestLoses(s: State)
    requires AtRest(s) && !FollowsOrFailed(s)
    ensures Loses(s)
  {
    assert CalmRun(s, []) && Reaches(s, [], s);
  }

  lemma Back(s: State, a: Action)
    requires Enabled(s, a) && Calm(s, a) && Loses(Next(s, a))
    ensures Loses(s)
  {
    var run, t :| CalmRun(Next(s, a), run) && Reaches(Next(s, a), run, t) && AtRest(t) && !FollowsOrFailed(t);
    assert ([a] + run)[1..] == run;
    assert CalmRun(s, [a] + run) && Reaches(s, [a] + run, t);
  }

  /** The boot is over, and plugins are as they can be. */
  predicate On(s: State) {
    && s.boot.Done? && !s.held
    && forall i :: 0 <= i < |s.plugins| && s.plugins[i].Checking? ==> s.plugins[i].p == Run
  }

  function Other(p: Position): Position { if p == Run then Stop else Run }

  // ---- Plugins that are turned down -----------------------------------------------------------------

  function Rank(q: Plugin): nat {
    match q
    case Idle => 0
    case Beginning(_, _) => 1
    case Checking(_, _) => 2
    case Asking(_, _) => 3
    case Edge(_) => 4
  }

  /** What the plugin asks for would be refused. */
  predicate Vain(s: State, q: Plugin) { q.Idle? || s.plc.To? || s.plc == Settled(q.p) }

  /** Everything but the plugins, the record of movement and the log. */
  predicate Same(s: State, t: State) {
    && t.position == s.position && t.plc == s.plc && t.workers == s.workers && t.boot == s.boot && t.held == s.held
    && |t.plugins| == |s.plugins|
  }

  /** A plugin asks in vain. */
  lemma {:induction false} Silence(s: State, i: nat) returns (t: State)
    requires On(s) && i < |s.plugins| && Vain(s, s.plugins[i])
    ensures Loses(t) ==> Loses(s)
    ensures On(t) && Same(s, t) && t.plugins == s.plugins[i := Idle]
    ensures t.moved == (s.moved || s.plugins[i].Edge?)
    decreases Rank(s.plugins[i])
  {
    if s.plugins[i].Idle? {
      t := s;
    } else {
      var u := Next(s, PluginStep(i));
      assert u.plugins == s.plugins[i := u.plugins[i]] && Same(s, u);
      assert u.plugins[i].Idle? || u.plugins[i].p == s.plugins[i].p;
      t := Silence(u, i);
      if Loses(t) {
        Back(s, PluginStep(i));
      }
    }
  }

  /** So do the first n, or those of them that have their movement on record already. */
  lemma {:induction false} SilenceAll(s: State, n: nat, edges: bool) returns (t: State)
    requires On(s) && n <= |s.plugins|
    requires forall i :: 0 <= i < n && (edges || !s.plugins[i].Edge?) ==> Vain(s, s.plugins[i])
    ensures Loses(t) ==> Loses(s)
    ensures On(t) && Same(s, t) && (!edges ==> t.moved == s.moved)
    ensures forall i :: 0 <= i < n ==>
              t.plugins[i].Idle? || (!edges && t.plugins[i] == s.plugins[i] && s.plugins[i].Edge?)
    ensures forall i :: n <= i < |s.plugins| ==> t.plugins[i] == s.plugins[i]
    decreases n
  {
    if n == 0 {
      t := s;
    } else {
      var u := SilenceAll(s, n - 1, edges);
      if edges || !u.plugins[n - 1].Edge? {
        t := Silence(u, n - 1);
      } else {
        t := u;
      }
    }
  }

  /** The spent workers among the first n go. */
  lemma {:induction false} SpentGo(s: State, n: nat) returns (t: State)
    requires On(s) && n <= |s.workers|
    ensures Loses(t) ==> Loses(s)
    ensures On(t) && t.plugins == s.plugins && t.position == s.position && t.plc == s.plc && t.moved == s.moved
    ensures t.boot == s.boot && |t.workers| == |s.workers|
    ensures forall j :: 0 <= j < |s.workers| ==>
              t.workers[j] == if j < n && Spent(s.workers[j]) then Gone else s.workers[j]
    decreases n
  {
    if n == 0 {
      t := s;
    } else {
      t := SpentGo(s, n - 1);
      if t.workers[n - 1] == Comparing(Error) {
        var u := Next(t, WorkerStep(n - 1));
        if Loses(u) {
          Back(t, WorkerStep(n - 1));
        }
        t := u;
      }
    }
  }

  // ---- One worker, and nothing on record ---------------------------------------------------------

  /** No worker at work but j. */
  ghost predicate Alone(s: State, j: nat) {
    forall k :: 0 <= k < |s.workers| && k != j ==> s.workers[k].Gone?
  }

  ghost predicate NoneLeft(s: State) { forall k :: 0 <= k < |s.workers| ==> s.workers[k].Gone? }

  /** No worker, and every plugin asks for where the PLC is. */
  lemma StuckLoses(s: State)
    requires On(s) && NoneLeft(s) && !s.plc.To? && !FollowsOrFailed(s) && !Wanted(s)
    ensures Loses(s)
  {
    var t := SilenceAll(s, |s.plugins|, true);
    RestLoses(t);
  }

  lemma TakingNothingLoses(s: State, j: nat)
    requires On(s) && j < |s.workers| && s.workers[j].Taking? && Alone(s, j)
    requires !s.plc.To? && !FollowsOrFailed(s) && !s.moved && !Wanted(s)
    ensures Loses(s)
  {
    var t := Next(s, WorkerStep(j));
    SamePlugins(s, t);
    StuckLoses(t);
    Back(s, WorkerStep(j));
  }

  /** A transition to where the switch is not, with no movement on record: it lands unnoticed. */
  lemma FlightLoses(s: State, j: nat)
    requires On(s) && j < |s.workers| && s.workers[j].Performing? && Alone(s, j)
    requires s.plc == To(s.workers[j].target) && s.position != s.workers[j].target && !s.moved && !EdgeHere(s)
    ensures Loses(s)
  {
    var t := SilenceAll(s, |s.plugins|, false);
    var u := Next(t, Land(j, true));
    assert !Wanted(u);
    TakingNothingLoses(u, j);
    Back(t, Land(j, true));
  }

  /** A correction to an older position, with no movement on record. */
  lemma StaleCorrectionLoses(s: State, j: nat)
    requires On(s) && j < |s.workers| && s.workers[j].Correcting? && Alone(s, j)
    requires !Refuses(s, s.workers[j].wanted) && s.position != s.workers[j].wanted && !s.moved && !EdgeHere(s)
    ensures Loses(s)
  {
    var t := Next(s, WorkerStep(j));
    SamePlugins(s, t);
    FlightLoses(t, |s.workers|);
    Back(s, WorkerStep(j));
  }

  // ---- A worker in its tail, and a transition in flight --------------------------------------------

  /** No plugin is at work, and of the workers only j and k. */
  ghost predicate Two(s: State, j: nat, k: nat) {
    && On(s) && s.plugins != [] && (forall i :: 0 <= i < |s.plugins| ==> s.plugins[i].Idle?)
    && j < |s.workers| && k < |s.workers| && j != k
    && forall l :: 0 <= l < |s.workers| && l != j && l != k ==> s.workers[l].Gone?
  }

  /** During a transition the switch can be turned without anything but the record to show for it. */
  lemma Flip(s: State, q: Position, j: nat, k: nat) returns (t: State)
    requires Two(s, j, k) && s.plc.To? && s.position != q
    ensures Loses(t) ==> Loses(s)
    ensures Two(t, j, k) && t.position == q && t.moved && t.plc == s.plc && t.workers == s.workers
  {
    var u := Next(s, Store(0, q));
    t := Silence(u, 0);
    if Loses(t) {
      Back(s, Store(0, q));
    }
  }

  lemma Turn(s: State, q: Position, j: nat, k: nat) returns (t: State)
    requires Two(s, j, k) && s.plc.To?
    ensures Loses(t) ==> Loses(s)
    ensures Two(t, j, k) && t.position == q && t.moved && t.plc == s.plc && t.workers == s.workers
  {
    t := s;
    if s.position == q {
      t := Flip(s, Other(q), j, k);
    }
    t := Flip(t, q, j, k);
  }

  /** A worker that takes the movement during the flight finds nothing to do. */
  lemma TakingLoses(s: State, j: nat, k: nat)
    requires Two(s, j, k) && s.workers[j].Taking? && s.workers[k].Performing? && s.plc == To(s.workers[k].target)
    ensures Loses(s)
  {
    var t := Turn(s, Other(s.workers[k].target), j, k);
    var u := Next(t, WorkerStep(j));
    var v := Next(u, WorkerStep(j));
    var w := Next(v, WorkerStep(j));
    FlightLoses(w, k);
    Back(v, WorkerStep(j));
    Back(u, WorkerStep(j));
    Back(t, WorkerStep(j));
  }

  lemma FailureTaken(s: State, j: nat, k: nat)
    requires Two(s, j, k) && s.workers[j].Correcting? && s.workers[k].Taking? && s.plc == Error && s.moved
    requires s.position != s.workers[j].wanted
    ensures Loses(s)
  {
    var t := Next(s, WorkerStep(k));
    var u := Next(t, WorkerStep(k));
    var v := Next(u, WorkerStep(k));
    StaleCorrectionLoses(v, j);
    Back(u, WorkerStep(k));
    Back(t, WorkerStep(k));
    Back(s, WorkerStep(k));
  }

  /** The flight fails, its worker takes the movement, and the correction comes late. */
  lemma CorrectingLoses(s: State, j: nat, k: nat)
    requires Two(s, j, k) && s.workers[j].Correcting? && s.workers[k].Performing? && s.plc.To?
    ensures Loses(s)
  {
    var t := Turn(s, Other(s.workers[j].wanted), j, k);
    var u := Next(t, Land(k, false));
    FailureTaken(u, j, k);
    Back(t, Land(k, false));
  }

  /** A worker that compares an older landing corrects to the other position. */
  lemma ComparingLoses(s: State, j: nat, k: nat)
    requires Two(s, j, k) && s.workers[j].Comparing? && s.workers[k].Performing? && s.plc.To?
    requires s.workers[j].landed == Running || s.workers[j].landed == Stopped
    ensures Loses(s)
  {
    var t := Turn(s, Other(Heading(s.workers[j].landed)), j, k);
    var u := Next(t, WorkerStep(j));
    CorrectingLoses(u, j, k);
    Back(t, WorkerStep(j));
  }

  lemma BothCorrect(s: State, j: nat, k: nat)
    requires Two(s, j, k) && s.workers[j] == Correcting(s.position) && s.workers[k].Taking? && s.moved
    requires s.plc == Settled(Other(s.position))
    ensures Loses(s)
  {
    var t := Next(s, WorkerStep(k));
    var u := Next(t, WorkerStep(k));
    var v := Next(u, WorkerStep(k));
    var w := Next(v, WorkerStep(j));
    CorrectingLoses(w, k, |v.workers|);
    Back(v, WorkerStep(j));
    Back(u, WorkerStep(k));
    Back(t, WorkerStep(k));
    Back(s, WorkerStep(k));
  }

  /** Two workers that read the same landing both correct it, one after the other's flight. */
  lemma ReadingLoses(s: State, j: nat, k: nat)
    requires Two(s, j, k) && s.workers[j].Reading? && s.workers[k].Performing? && s.plc == To(s.workers[k].target)
    ensures Loses(s)
  {
    var t := Turn(s, Other(s.workers[k].target), j, k);
    var u := Next(t, Land(k, true));
    var v := Next(u, WorkerStep(j));
    var w := Next(v, WorkerStep(j));
    BothCorrect(w, j, k);
    Back(v, WorkerStep(j));
    Back(u, WorkerStep(j));
    Back(t, Land(k, true));
  }

  // ---- When the switch is followed --------------------------------------------------------------------

  lemma AtRestIsGone(s: State, w: Worker)
    requires Placed(s, w) && AtRest(s)
    ensures w.Gone?
    ensures Obliged(s, w) <==> FollowsOrFailed(s)
  {
  }

  lemma ObligedStaysFollowed(s: State, w: Worker)
    requires Placed(s, w) && s.boot.Done? && Obliged(s, w)
    ensures StaysFollowed(s)
  {
    forall run, t | CalmRun(s, run) && Reaches(s, run, t) && AtRest(t) ensures FollowsOrFailed(t) {
      var v := ObligedHolds(s, w, run, t);
      AtRestIsGone(t, v);
    }
  }

  /** Where the one worker at work is. */
  lemma TheWorker(s: State, w: Worker) returns (j: nat)
    requires Placed(s, w) && !w.Gone?
    ensures j < |s.workers| && s.workers[j] == w && OthersSpent(s, j) && !Spent(w)
  {
    j :| j < |s.workers| && s.workers[j] == w && OthersSpent(s, j);
  }

  lemma UnobligedWorkerLoses(s: State, w: Worker, j: nat)
    requires Placed(s, w) && On(s) && !Obliged(s, w) && j < |s.workers| && s.workers[j] == w && Alone(s, j)
    requires !Spent(w)
    ensures Loses(s)
  {
    match w
    case Performing(_) => FlightLoses(s, j);
    case Taking => TakingNothingLoses(s, j);
    case Correcting(_) => StaleCorrectionLoses(s, j);
    case _ => assert false;
  }

  lemma UnobligedLoses(s: State, w: Worker)
    requires Placed(s, w) && s.boot.Done? && !Obliged(s, w)
    ensures Loses(s)
  {
    var t := SpentGo(s, |s.workers|);
    SamePlugins(s, t);
    if w.Gone? {
      StuckLoses(t);
    } else {
      var j := TheWorker(s, w);
      assert Only(t, w) by {
        assert t.workers[j] == w && OthersSpent(t, j);
      }
      UnobligedWorkerLoses(t, w, j);
    }
  }

  /** After the boot, with one worker at most: the switch is sure to be followed exactly when the
      worker, or a plugin, sees to it. */
  lemma FollowedExactlyWhen(s: State, w: Worker)
    requires Placed(s, w) && s.boot.Done?
    ensures StaysFollowed(s) <==> Obliged(s, w)
  {
    if Obliged(s, w) {
      ObligedStaysFollowed(s, w);
    } else {
      UnobligedLoses(s, w);
    }
  }

  lemma InitIsPlaced(z: State)
    requires Init(z)
    ensures Placed(z, Gone)
  {
  }

  /** From power-on, with any number of plugins, as long as every request that went through found the
      workers quiet: once the boot is over, the switch is sure to be followed exactly when the worker
      or a plugin sees to it; at rest, exactly when the PLC follows it then or has failed. */
  lemma FollowedSincePowerOnExactlyWhen(z: State, run: seq<Action>, s: State) returns (w: Worker)
    requires Init(z) && Reaches(z, run, s) && UnhurriedRun(z, run) && s.boot.Done?
    ensures Placed(s, w) && (StaysFollowed(s) <==> Obliged(s, w))
    ensures AtRest(s) ==> (StaysFollowed(s) <==> FollowsOrFailed(s))
  {
    InitIsPlaced(z);
    w := PlacedHolds(z, Gone, run, s);
    FollowedExactlyWhen(s, w);
    if AtRest(s) {
      AtRestIsGone(s, w);
    }
  }

  // ---- When a request is safe -----------------------------------------------------------------------

  /** A request goes through among quiet workers. */
  lemma QuietRequest(s: State, w: Worker, i: nat)
    requires Placed(s, w) && s.boot.Done? && AsksThrough(s, PluginStep(i)) && Quiet(s)
    ensures StaysFollowed(Next(s, PluginStep(i))) <==> Current(s, s.plugins[i].p)
  {
    var t, p := Next(s, PluginStep(i)), s.plugins[i].p;
    CheckingIsForRun(s, i);
    BeginStaysPlaced(s, t, w, p);
    FollowedExactlyWhen(t, Performing(p));
    OthersKept(s, t, i);
    OthersKept(t, s, i);
  }

  lemma TailLoses(s: State, j: nat, k: nat)
    requires Two(s, j, k) && s.workers[k].Performing? && s.plc == To(s.workers[k].target)
    requires !Spent(s.workers[j]) && !s.workers[j].Performing?
    requires s.workers[j].Comparing? ==> s.workers[j].landed == Running || s.workers[j].landed == Stopped
    ensures Loses(s)
  {
    match s.workers[j]
    case Taking => TakingLoses(s, j, k);
    case Reading => ReadingLoses(s, j, k);
    case Comparing(_) => ComparingLoses(s, j, k);
    case Correcting(_) => CorrectingLoses(s, j, k);
    case _ => assert false;
  }

  /** A request goes through while a worker is in its tail. */
  lemma HastyRequestLoses(s: State, w: Worker, i: nat)
    requires Placed(s, w) && s.boot.Done? && AsksThrough(s, PluginStep(i)) && !Quiet(s)
    ensures Loses(Next(s, PluginStep(i)))
  {
    var t := Next(s, PluginStep(i));
    CheckingIsForRun(s, i);
    assert !w.Gone?;
    var j := TheWorker(s, w);
    var u := SpentGo(t, |t.workers|);
    var v := SilenceAll(u, |u.plugins|, true);
    var k := |s.workers|;
    assert t.workers[j] == w && t.workers[k] == Performing(s.plugins[i].p);
    assert Two(v, j, k);
    TailLoses(v, j, k);
  }

  /** From power-on, with any number of plugins, as long as every request that went through found the
      workers quiet: the next one leaves the switch sure to be followed exactly when it finds them
      quiet and is current. */
  lemma RequestIsSafeExactlyWhen(z: State, run: seq<Action>, s: State, i: nat)
    requires Init(z) && Reaches(z, run, s) && UnhurriedRun(z, run) && s.boot.Done?
    requires AsksThrough(s, PluginStep(i))
    ensures StaysFollowed(Next(s, PluginStep(i))) <==> Quiet(s) && Current(s, s.plugins[i].p)
  {
    InitIsPlaced(z);
    var w := PlacedHolds(z, Gone, run, s);
    if Quiet(s) {
      QuietRequest(s, w, i);
    } else {
      HastyRequestLoses(s, w, i);
    }
  }

  // ---- A flip during the boot -----------------------------------------------------------------------

  lemma OneMoreCalm(s: State, a: Action, run: seq<Action>, t: State)
    requires Enabled(s, a) && Calm(s, a) && Reaches(Next(s, a), run, t) && CalmRun(Next(s, a), run)
    ensures Reaches(s, [a] + run, t) && CalmRun(s, [a] + run)
  {
    assert ([a] + run)[1..] == run;
  }

  lemma AskedInVain(s: State) returns (run: seq<Action>, t: State)
    requires s.boot == Releasing(Begun) && s.held && s.position == Stop && s.plc == Running && !s.moved
    requires s.plugins == [Edge(Stop)] && s.workers == [Taking]
    ensures Reaches(s, run, t) && CalmRun(s, run)
    ensures AtRest(t) && t.position == Stop && t.plc == Running
  {
    var s1 := Next(s, WorkerStep(0));
    var s2 := Next(s1, PluginStep(0));
    var s3 := Next(s2, PluginStep(0));
    t := Next(s3, BootStep);
    OneMoreCalm(s3, BootStep, [], t);
    run := [BootStep] + [];
    OneMoreCalm(s2, PluginStep(0), run, t);
    run := [PluginStep(0)] + run;
    OneMoreCalm(s1, PluginStep(0), run, t);
    run := [PluginStep(0)] + run;
    OneMoreCalm(s, WorkerStep(0), run, t);
    run := [WorkerStep(0)] + run;
  }

  /** The switch is turned to STOP after the boot has read it; the boot's start lands and finds no
      movement yet, and the plugin then asks while requests are held. */
  lemma FlipDuringBootIsLost() returns (run: seq<Action>, t: State)
    ensures Reaches(PoweredOn(1), run, t) && CalmRun(PoweredOn(1), run)
    ensures AtRest(t) && t.position == Stop && t.plc == Running
  {
    var s1 := Next(PoweredOn(1), BootStep);
    var s2 := Next(s1, Store(0, Stop));
    var s3 := Next(s2, BootStep);
    var s4 := Next(s3, Land(0, true));
    var late;
    late, t := AskedInVain(s4);
    run := [Land(0, true)] + late;
    OneMoreCalm(s3, Land(0, true), late, t);
    OneMoreCalm(s2, BootStep, run, t);
    run := [BootStep] + run;
    OneMoreCalm(s1, Store(0, Stop), run, t);
    run := [Store(0, Stop)] + run;
    OneMoreCalm(PoweredOn(1), BootStep, run, t);
    run := [BootStep] + run;
  }
}
