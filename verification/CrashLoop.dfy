/** What whole runs of the supervisor keep from the gate and from giving up: where a pass through
    the gate was decided, what can follow it, and when the runtime is started again after the
    watcher gave up. */
module CrashLoop {
  import opened Options
  import opened Supervisor

  predicate AtGate(pc: Watch) { pc.DieGate? || pc.WedgeGate? || pc.SyncGate? }

  predicate GivingUp(pc: Watch) { pc.GiveUp? || pc.GiveUpStop? || pc.GiveUpSet? }

  /** The phase a step enters, if it sets one. */
  function Sets(w: World, a: Action): Option<Phase> {
    match a
    case OtherSets(p, _) => Some(p)
    case BeginUpdate => Some(Updating)
    case AbortUpdate => if w.sup.phase == Updating then Some(w.sup.prePhase) else None
    case ReportHealthy => Some(Healthy)
    case Go(_) =>
      if w.watch.BackOff? || w.watch.Restart? || w.watch.Sync? then Some(Starting)
      else if w.watch.GiveUpSet? then Some(Recovery) else None
    case _ => None
  }

  /** The last phase that a run sets. */
  ghost function LastSet(c: Config, w: World, run: seq<Action>): Option<Phase>
    decreases run
  {
    if run == [] || !Enabled(w, run[0]) then None
    else
      var late := LastSet(c, Next(c, w, run[0]), run[1..]);
      if late.Some? then late else Sets(w, run[0])
  }

  /** Where the watcher is at every point of a run. */
  ghost predicate Throughout(c: Config, w: World, run: seq<Action>, p: Watch -> bool)
    decreases run
  {
    p(w.watch) && (run != [] ==> Enabled(w, run[0]) && Throughout(c, Next(c, w, run[0]), run[1..], p))
  }

  lemma StepSets(c: Config, w: World, a: Action)
    requires Enabled(w, a)
    ensures Next(c, w, a).sup.phase == if Sets(w, a).Some? then Sets(w, a).value else w.sup.phase
  {
    if a.Go? {
      var v := WatchStep(c, w, a.stopped);
      assert v.sup.phase == if Sets(w, a).Some? then Sets(w, a).value else w.sup.phase;
    }
  }

  lemma {:induction false} PhaseIsLastSet(c: Config, w: World, run: seq<Action>, v: World)
    requires Reaches(c, w, run, v)
    ensures v.sup.phase == if LastSet(c, w, run).Some? then LastSet(c, w, run).value else w.sup.phase
    decreases run
  {
    if run != [] {
      StepSets(c, w, run[0]);
      PhaseIsLastSet(c, Next(c, w, run[0]), run[1..], v);
    }
  }

  // ---- The gate -------------------------------------------------------------------------------

  lemma GateIsPassedBy(c: Config, w: World, a: Action)
    requires Enabled(w, a) && !PastGate(w.watch) && PastGate(Next(c, w, a).watch)
    ensures a == Go(false) && AtGate(w.watch) && !OffLimits(w.sup.phase)
    ensures Next(c, w, a).sup == w.sup
  {
  }

  /** A run that ends past the gate has been past it all along, or passed it for good at one step. */
  lemma {:induction false} LastPass(c: Config, w: World, run: seq<Action>, v: World)
    returns (all: bool, pre: seq<Action>, g: World, mid: seq<Action>)
    requires Reaches(c, w, run, v) && PastGate(v.watch)
    ensures all ==> Throughout(c, w, run, PastGate)
    ensures !all ==>
              && run == pre + [Go(false)] + mid && Reaches(c, w, pre, g)
              && AtGate(g.watch) && !OffLimits(g.sup.phase) && Enabled(g, Go(false))
              && Next(c, g, Go(false)).sup == g.sup
              && Reaches(c, Next(c, g, Go(false)), mid, v) && Throughout(c, Next(c, g, Go(false)), mid, PastGate)
    decreases run
  {
    all, pre, g, mid := true, [], w, [];
    if run != [] {
      var w1 := Next(c, w, run[0]);
      all, pre, g, mid := LastPass(c, w1, run[1..], v);
      if !all {
        OneMore(c, w, run[0], pre, g);
        pre := [run[0]] + pre;
        assert run == [run[0]] + run[1..];
      } else if !PastGate(w.watch) {
        GateIsPassedBy(c, w, run[0]);
        all, pre, g, mid := false, [], w, run[1..];
        assert run == [Go(false)] + run[1..];
      }
    }
  }

  lemma {:induction false} NothingEnters(c: Config, w: World, run: seq<Action>, v: World)
    requires Reaches(c, w, run, v) && Throughout(c, w, run, PastGate) && BeginUpdate !in run
    requires forall a :: a in run && a.OtherSets? ==> !OffLimits(a.phase)
    requires !OffLimits(w.sup.phase)
    ensures !OffLimits(v.sup.phase)
    decreases run
  {
    if run != [] {
      assert run[0] in run;
      var w1 := Next(c, w, run[0]);
      StepSets(c, w, run[0]);
      assert !OffLimits(w1.sup.phase);
      NothingEnters(c, w1, run[1..], v);
    }
  }

  /** Whenever the watcher is about to act, the phase let it through when it read it, and the
      runtime is off limits by now exactly when the last step that set a phase since then took it
      there: an update that began, or another goroutine that gave up. */
  lemma GateHolds(c: Config, w: World, run: seq<Action>, v: World)
    returns (pre: seq<Action>, g: World, mid: seq<Action>)
    requires Init(w) && Reaches(c, w, run, v) && PastGate(v.watch)
    ensures run == pre + [Go(false)] + mid && Reaches(c, w, pre, g)
    ensures AtGate(g.watch) && !OffLimits(g.sup.phase) && Enabled(g, Go(false))
    ensures var past := Next(c, g, Go(false));
            && Reaches(c, past, mid, v) && Throughout(c, past, mid, PastGate)
            && (OffLimits(v.sup.phase) <==> LastSet(c, past, mid).Some? && OffLimits(LastSet(c, past, mid).value))
    ensures BeginUpdate !in mid && (forall a :: a in mid && a.OtherSets? ==> !OffLimits(a.phase)) ==>
              !OffLimits(v.sup.phase)
  {
    var all;
    all, pre, g, mid := LastPass(c, w, run, v);
    var past := Next(c, g, Go(false));
    PhaseIsLastSet(c, past, mid, v);
    if BeginUpdate !in mid && (forall a :: a in mid && a.OtherSets? ==> !OffLimits(a.phase)) {
      NothingEnters(c, past, mid, v);
    }
  }

  // ---- Giving up ------------------------------------------------------------------------------

  lemma StopsGivingUp(c: Config, w: World, a: Action)
    requires GivingUp(w.watch) && Enabled(w, a) && !GivingUp(Next(c, w, a).watch)
    ensures a == Go(false) && w.watch.GiveUpSet?
  {
  }

  /** The watcher's own steps in a run, and how many it takes before the one that sets recovery. */
  function Steps(run: seq<Action>): nat {
    if run == [] then 0 else (if run[0].Go? then 1 else 0) + Steps(run[1..])
  }

  function StepsLeft(pc: Watch): nat {
    if pc.GiveUp? then 2 else if pc.GiveUpStop? then 1 else 0
  }

  /** A step of another goroutine, or of the container itself, that starts or stops it. */
  predicate Disturbs(a: Action) { a.CrashNow? || a.OtherStopped? || a.OtherStart? }

  lemma StepWhileGivingUp(c: Config, w: World, a: Action)
    requires GivingUp(w.watch) && Enabled(w, a) && GivingUp(Next(c, w, a).watch)
    ensures StepsLeft(w.watch) == StepsLeft(Next(c, w, a).watch) + (if a.Go? then 1 else 0)
    ensures !Disturbs(a) ==> Next(c, w, a).running == (w.running && a != Go(true))
  {
  }

  /** From giving up there is one way out, whatever the others do: the watcher stays there for its
      next two steps and with the third sets recovery and waits for the next event. The daemon has
      stopped the container by then unless it would not, or somebody else started it. */
  lemma {:induction false} GivingUpReachesRecovery(c: Config, w: World, run: seq<Action>, v: World)
    returns (pre: seq<Action>, g: World, post: seq<Action>)
    requires GivingUp(w.watch) && Reaches(c, w, run, v) && !GivingUp(v.watch)
    ensures run == pre + [Go(false)] + post && Steps(pre) == StepsLeft(w.watch)
    ensures Reaches(c, w, pre, g) && Throughout(c, w, pre, GivingUp) && Enabled(g, Go(false))
    ensures var u := Next(c, g, Go(false));
            u.watch.Idle? && u.sup.phase == Recovery && u.running == g.running && Reaches(c, u, post, v)
    ensures (forall a :: a in pre ==> !Disturbs(a)) ==> g.running == (w.running && Go(true) !in pre)
    decreases run
  {
    var w1 := Next(c, w, run[0]);
    assert run == [run[0]] + run[1..];
    if GivingUp(w1.watch) {
      StepWhileGivingUp(c, w, run[0]);
      var late;
      late, g, post := GivingUpReachesRecovery(c, w1, run[1..], v);
      pre := [run[0]] + late;
      assert pre[1..] == late;
      OneMore(c, w, run[0], late, g);
      assert run == pre + [Go(false)] + post;
      assert run[0] in pre && forall a :: a in late ==> a in pre;
    } else {
      StopsGivingUp(c, w, run[0]);
      pre, g, post := [], w, run[1..];
    }
  }

  /** A step that hands the runtime back: a healthy report or another goroutine's new phase. */
  predicate HandsBack(a: Action) { a.ReportHealthy? || (a.OtherSets? && !OffLimits(a.phase)) }

  /** Recovery owns the runtime, if only underneath an update, and the watcher does not act. */
  predicate Held(w: World) {
    && (w.sup.phase == Recovery || (w.sup.phase == Updating && w.sup.prePhase == Recovery))
    && (w.watch.Idle? || AtGate(w.watch))
  }

  lemma StepStaysHeld(c: Config, w: World, a: Action)
    requires Held(w) && Enabled(w, a) && !HandsBack(a)
    ensures Held(Next(c, w, a))
  {
    if a.Go? {
      var v := WatchStep(c, w, a.stopped);
      assert v.sup == w.sup && v.watch.Idle?;
    }
  }

  lemma {:induction false} HeldUntilHandedBack(c: Config, w: World, run: seq<Action>, v: World)
    requires Held(w) && Reaches(c, w, run, v) && forall a :: a in run ==> !HandsBack(a)
    ensures Held(v)
    decreases run
  {
    if run != [] {
      assert run[0] in run;
      StepStaysHeld(c, w, run[0]);
      HeldUntilHandedBack(c, Next(c, w, run[0]), run[1..], v);
    }
  }

  /** After giving up the watcher acts again only when, since it set recovery, a healthy report or
      another goroutine has handed the runtime back. */
  lemma NoStartAfterGivingUp(c: Config, w: World, run: seq<Action>, v: World)
    returns (pre: seq<Action>, u: World, post: seq<Action>)
    requires GivingUp(w.watch) && Reaches(c, w, run, v) && PastGate(v.watch)
    ensures run == pre + [Go(false)] + post && Reaches(c, u, post, v)
    ensures u.watch.Idle? && u.sup.phase == Recovery
    ensures exists a :: a in post && HandsBack(a)
  {
    var g;
    pre, g, post := GivingUpReachesRecovery(c, w, run, v);
    u := Next(c, g, Go(false));
    if forall a :: a in post ==> !HandsBack(a) {
      HeldUntilHandedBack(c, u, post, v);
    }
  }

  /** From recovery a lost event stream starts the runtime exactly when the last step to set a
      phase took it out of recovery and updates. */
  lemma ReconnectStartsExactlyWhen(c: Config, w: World, run: seq<Action>, v: World)
    requires w.watch.Idle? && w.sup.phase == Recovery && Reaches(c, w, run, v) && v.watch.Idle?
    ensures Next(c, Next(c, v, Reconnect), Go(false)).watch.Sync? <==>
            LastSet(c, w, run).Some? && !OffLimits(LastSet(c, w, run).value)
  {
    PhaseIsLastSet(c, w, run, v);
  }

  lemma StepRecords(c: Config, w: World, a: Action)
    requires Enabled(w, a)
    ensures Next(c, w, a).history == w.history || (w.watch.DieRecord? && a == Go(false))
  {
  }

  /** The last exit a run records. */
  lemma {:induction false} LastRecord(c: Config, w: World, run: seq<Action>, v: World)
    returns (none: bool, pre: seq<Action>, g: World, post: seq<Action>)
    requires Reaches(c, w, run, v)
    ensures none ==> v.history == w.history
    ensures !none ==>
              && run == pre + [Go(false)] + post && Reaches(c, w, pre, g) && g.watch.DieRecord?
              && Reaches(c, Next(c, g, Go(false)), post, v) && v.history == Next(c, g, Go(false)).history
    decreases run
  {
    none, pre, g, post := true, [], w, [];
    if run != [] {
      var w1 := Next(c, w, run[0]);
      none, pre, g, post := LastRecord(c, w1, run[1..], v);
      assert run == [run[0]] + run[1..];
      if !none {
        OneMore(c, w, run[0], pre, g);
        pre := [run[0]] + pre;
      } else if w1.history != w.history {
        StepRecords(c, w, run[0]);
        none, pre, g, post := false, [], w, run[1..];
      }
    }
  }

  /** The last recorded exit filled the window. */
  predicate Looped(c: Config, w: World) {
    w.history != [] && Looping(c, w.history, w.history[|w.history| - 1])
  }

  /** The watcher's next step starts the container. */
  predicate AboutToStart(c: Config, w: World) {
    Enabled(w, Go(false)) && !w.running && Next(c, w, Go(false)).running
  }

  /** maxCrashes exits within the window, whole runs: from the record that completes them the
      runtime is not started until the watcher has set recovery and something has handed the
      runtime back, and then only to resume after a lost event stream. */
  lemma StartAfterCrashLoopIsHandedBack(c: Config, w: World, run: seq<Action>, v: World)
    returns (pre: seq<Action>, u: World, post: seq<Action>)
    requires Init(w) && Reaches(c, w, run, v) && c.maxCrashes >= 1 && Looped(c, v)
    requires AboutToStart(c, v)
    ensures v.watch.Sync?
    ensures run == pre + post && Reaches(c, u, post, v)
    ensures u.watch.Idle? && u.sup.phase == Recovery
    ensures exists a :: a in post && HandsBack(a)
  {
    NoRestartAfterCrashLoop(c, w, run, v);
    var none, before, g, after := LastRecord(c, w, run, v);
    GivesUpExactlyOnCrashLoop(c, w, before, g);
    var gave := Next(c, g, Go(false));
    assert v.history[|v.history| - 1] == g.clock;
    var mid;
    mid, u, post := NoStartAfterGivingUp(c, gave, after, v);
    pre := before + [Go(false)] + mid + [Go(false)];
  }

  // ---- A healthy report passes no gate --------------------------------------------------------

  lemma Joined(c: Config, w: World, first: seq<Action>, u: World, second: seq<Action>, v: World)
    requires Reaches(c, w, first, u) && Reaches(c, u, second, v)
    ensures Reaches(c, w, first + second, v)
    decreases first
  {
    if first == [] {
      assert first + second == second;
    } else {
      assert (first + second)[1..] == first[1..] + second;
      Joined(c, Next(c, w, first[0]), first[1..], u, second, v);
    }
  }

  lemma StopFails(c: Config, w: World) returns (run: seq<Action>, v: World)
    requires w.watch.GiveUp? && Looped(c, w)
    ensures Reaches(c, w, run, v)
    ensures v.watch.Idle? && v.sup.phase == Recovery && v.running && Looped(c, v)
  {
    var w1 := Next(c, w, Go(false));
    var w2 := Next(c, w1, OtherStart);
    var w3 := Next(c, w2, Go(false));
    v := Next(c, w3, Go(false));
    OneMore(c, w3, Go(false), [], v);
    OneMore(c, w2, Go(false), [Go(false)] + [], v);
    OneMore(c, w1, OtherStart, [Go(false)] + ([Go(false)] + []), v);
    run := [Go(false)] + ([OtherStart] + ([Go(false)] + ([Go(false)] + [])));
    OneMore(c, w, Go(false), run[1..], v);
  }

  /** With one crash allowed, it makes the watcher give up. */
  lemma OneCrashIsTooMany(c: Config) returns (run: seq<Action>, v: World)
    requires c.maxCrashes == 1 && c.window > 0
    ensures Reaches(c, Quiet(), run, v)
    ensures v == Quiet().(running := false, history := [0], watch := GiveUp, tally := v.tally) && Looped(c, v)
  {
    var w1 := Next(c, Quiet(), CrashNow);
    var w2 := Next(c, w1, Deliver);
    var w3 := Next(c, w2, Go(false));
    v := Next(c, w3, Go(false));
    assert Full(c, [0], 0);
    OneMore(c, w3, Go(false), [], v);
    OneMore(c, w2, Go(false), [Go(false)] + [], v);
    OneMore(c, w1, Deliver, [Go(false)] + ([Go(false)] + []), v);
    run := [CrashNow] + ([Deliver] + ([Go(false)] + ([Go(false)] + [])));
    OneMore(c, Quiet(), CrashNow, run[1..], v);
  }

  /** While the watcher gives up another goroutine starts the container, and the daemon does not
      stop it. */
  lemma GivesUpOnARunningContainer(c: Config) returns (run: seq<Action>, v: World)
    requires c.maxCrashes == 1 && c.window > 0
    ensures Reaches(c, Quiet(), run, v)
    ensures v.watch.Idle? && v.sup.phase == Recovery && v.running && Looped(c, v)
  {
    var first, w, late;
    first, w := OneCrashIsTooMany(c);
    late, v := StopFails(c, w);
    Joined(c, Quiet(), first, w, late, v);
    run := first + late;
  }

  /** The container's healthy report, its exit, and a gap in the event stream. */
  lemma ResumesAfterGap(c: Config, u: World) returns (run: seq<Action>, v: World)
    requires u.watch.Idle? && u.running && Looped(c, u)
    ensures Reaches(c, u, run, v)
    ensures Looped(c, v) && v.watch.Sync? && AboutToStart(c, v)
  {
    var w1 := Next(c, u, ReportHealthy);
    var w2 := Next(c, w1, CrashNow);
    var w3 := Next(c, w2, Reconnect);
    v := Next(c, w3, Go(false));
    OneMore(c, w3, Go(false), [], v);
    OneMore(c, w2, Reconnect, [Go(false)] + [], v);
    OneMore(c, w1, CrashNow, [Reconnect] + ([Go(false)] + []), v);
    run := [ReportHealthy] + ([CrashNow] + ([Reconnect] + ([Go(false)] + [])));
    OneMore(c, u, ReportHealthy, run[1..], v);
  }

  lemma ThenResumes(c: Config, w: World, first: seq<Action>, u: World) returns (run: seq<Action>, v: World)
    requires Reaches(c, w, first, u) && u.watch.Idle? && u.running && Looped(c, u)
    ensures Reaches(c, w, run, v) && Looped(c, v) && v.watch.Sync? && AboutToStart(c, v)
  {
    var late;
    late, v := ResumesAfterGap(c, u);
    Joined(c, w, first, u, late, v);
    run := first + late;
  }

  /** Its healthy report ends recovery, and when it dies during a gap in the event stream it is
      started again, with the window still full. */
  lemma HealthyReportEndsRecovery(c: Config) returns (run: seq<Action>, v: World)
    requires c.maxCrashes == 1 && c.window > 0
    ensures Init(Quiet()) && Reaches(c, Quiet(), run, v)
    ensures Looped(c, v) && v.watch.Sync? && AboutToStart(c, v)
  {
    var first, u := GivesUpOnARunningContainer(c);
    run, v := ThenResumes(c, Quiet(), first, u);
  }
}
