/** The bootloader's supervisor: expected-stop tokens, the crash window, and the goroutine
    that watches the container, as a machine whose steps are the supervisor's lock-protected
    sections, the container's own exits, and the stops, starts and updates of other
    goroutines. Every exit yields one die event; events are delivered in order. */
module Supervisor {
  import opened CrashWindow

  datatype Phase = Booting | Starting | Healthy | Recovery | Updating

  /** The fields under the supervisor's mutex that matter here. */
  datatype Sup = Sup(phase: Phase, reason: string, tokens: nat, prePhase: Phase, preReason: string)

  /** Recovery or an update owns the runtime. */
  predicate OffLimits(p: Phase) { p == Recovery || p == Updating }

  const UPDATE_REASON := "version change in progress"

  function Marked(s: Sup): Sup { s.(tokens := s.tokens + 1) }

  function Spent(s: Sup): Sup {
    if s.tokens > 0 then s.(tokens := s.tokens - 1) else s
  }

  function Claimed(s: Sup): Sup
    requires s.phase != Updating
  {
    Sup(Updating, UPDATE_REASON, s.tokens + 1, s.phase, s.reason)
  }

  function Aborted(s: Sup): Sup {
    var t := Spent(s);
    if t.phase == Updating then t.(phase := t.prePhase, reason := t.preReason) else t
  }

  /** A healthy report, whatever the phase. */
  function Recovered(s: Sup): Sup { s.(phase := Healthy, reason := "") }

  /** An abort with nothing in between undoes the claim, tokens included. */
  lemma AbortUndoesClaim(s: Sup)
    requires s.phase != Updating
    ensures var t := Aborted(Claimed(s)); t.phase == s.phase && t.reason == s.reason && t.tokens == s.tokens
  {
  }

  /** The run that aborts also ends: between them they leave the tokens as they were exactly
      when there were none. */
  lemma AbortThenEndKeepsTokensExactlyWhen(s: Sup)
    requires s.phase != Updating
    ensures Spent(Aborted(Claimed(s))).tokens == s.tokens <==> s.tokens == 0
    ensures Spent(Claimed(s)).tokens == s.tokens
  {
  }

  /** The supervisor object: each method is one critical section. */
  class Shared {
    var phase: Phase
    var reason: string
    var expectStop: nat
    var prePhase: Phase
    var preReason: string
    var consecutiveFailures: nat

    function View(): Sup
      reads this
    {
      Sup(phase, reason, expectStop, prePhase, preReason)
    }

    constructor ()
      ensures View() == Sup(Booting, "", 0, Booting, "") && consecutiveFailures == 0
    {
      consecutiveFailures := 0;
      phase, reason, expectStop := Booting, "", 0;
      prePhase, preReason := Booting, "";
    }

    method MarkExpectedStop()
      modifies this`expectStop
      ensures View() == Marked(old(View()))
    {
      expectStop := expectStop + 1;
    }

    /** Whether the exit just seen was asked for. */
    method ConsumeExpectedStop() returns (expected: bool)
      modifies this`expectStop
      ensures View() == Spent(old(View())) && expected == (old(expectStop) > 0)
    {
      expected := false;
      if expectStop > 0 {
        expectStop := expectStop - 1;
        expected := true;
      }
    }

    method BeginUpdate() returns (ok: bool)
      modifies this`expectStop, this`phase, this`reason, this`prePhase, this`preReason
      ensures ok == (old(phase) != Updating)
      ensures View() == if ok then Claimed(old(View())) else old(View())
      ensures ok ==> phase == Updating && reason == "version change in progress" && expectStop == old(expectStop) + 1
    {
      ok := phase != Updating;
      if ok {
        prePhase := phase;
        preReason := reason;
        phase := Updating;
        reason := UPDATE_REASON;
        expectStop := expectStop + 1;
      }
    }

    method AbortUpdate()
      modifies this`expectStop, this`phase, this`reason
      ensures View() == Aborted(old(View()))
    {
      if expectStop > 0 {
        expectStop := expectStop - 1;
      }
      if phase == Updating {
        phase := prePhase;
        reason := preReason;
      }
    }

    method EndUpdate()
      modifies this`expectStop
      ensures View() == Spent(old(View()))
    {
      if expectStop > 0 {
        expectStop := expectStop - 1;
      }
    }

    /** Stop, given what the daemon answered: a failed stop gives its token back. */
    method Stop(daemon: Answer) returns (ok: bool)
      modifies this`expectStop
      ensures daemon == Stopped ==> View() == Marked(old(View()))
      ensures daemon != Stopped ==> View() == old(View())
      ensures ok == (daemon != Failed)
    {
      MarkExpectedStop();
      ok := true;
      if daemon != Stopped {
        var _ := ConsumeExpectedStop();
        ok := daemon == NotRunning;
      }
    }

    method MarkHealthy()
      modifies this`phase, this`reason, this`consecutiveFailures
      ensures View() == Recovered(old(View())) && consecutiveFailures == 0
    {
      consecutiveFailures := 0;
      phase, reason := Healthy, "";
    }

    /** What other goroutines leave between two critical sections: anything. */
    method Meanwhile(others: Sup, failures: nat)
      modifies this
      ensures View() == others && consecutiveFailures == failures
    {
      phase, reason, expectStop := others.phase, others.reason, others.tokens;
      prePhase, preReason, consecutiveFailures := others.prePhase, others.preReason, failures;
    }

    /** The first part of a die event: an asked-for exit uses its token and nothing else; of any
        other, one in recovery or an update changes nothing and the rest count. The phase is read
        after others may have come between. */
    method Admit(others: Sup, failures: nat) returns (v: Verdict)
      modifies this
      ensures old(expectStop) > 0 ==> v == Expected && View() == Spent(old(View()))
      ensures old(expectStop) == 0 ==> v == (if OffLimits(others.phase) then Ignored else Counted) && View() == others
    {
      var expected := ConsumeExpectedStop();
      v := Expected;
      if !expected {
        Meanwhile(others, failures);
        v := if OffLimits(phase) then Ignored else Counted;
      }
    }

    method CountFailure()
      modifies this`consecutiveFailures
      ensures consecutiveFailures == old(consecutiveFailures) + 1
    {
      consecutiveFailures := consecutiveFailures + 1;
    }

    method SetState(newPhase: Phase, newReason: string)
      modifies this`phase, this`reason
      ensures phase == newPhase && reason == newReason
    {
      phase, reason := newPhase, newReason;
    }

    /** Gives up, or puts a restart off: the delay is bounded from the second failure in a row on. */
    method Decide(looping: bool, base: Duration) returns (v: Verdict)
      modifies this`phase, this`reason, this`consecutiveFailures
      ensures consecutiveFailures == old(consecutiveFailures) + 1
      ensures v.GaveUp? <==> looping
      ensures v.GaveUp? || (v.RestartIn? && phase == Starting)
      ensures v.RestartIn? && consecutiveFailures > 1 ==> v.delay <= MAX_RESTART_DELAY
    {
      CountFailure();
      if looping {
        v := GaveUp;
      } else {
        var delay := RestartDelay(base, consecutiveFailures);
        SetState(Starting, "restarting after unexpected exit");
        v := RestartIn(delay);
      }
    }

    /** The second part, for an exit that counts, up to the moment the watcher sleeps or stops the
        runtime: it is recorded, and the watcher gives up exactly when that fills the window,
        whatever others do between the record and the count of failures. */
    method HandleCrash(crashes: Window, now: Time, base: Duration, others: Sup, failures: nat) returns (v: Verdict)
      requires crashes.Valid() && crashes.Monotone(now)
      modifies this, crashes, crashes.times
      ensures crashes.Valid() && crashes.history == old(crashes.history) + [now]
      ensures consecutiveFailures == failures + 1
      ensures v.GaveUp? <==> |Younger(crashes.history, now - crashes.window)| >= crashes.limit
      ensures v.GaveUp? || (v.RestartIn? && phase == Starting)
      ensures v.RestartIn? && failures > 0 ==> v.delay <= MAX_RESTART_DELAY
    {
      var looping := crashes.Record(now);
      Meanwhile(others, failures);
      v := Decide(looping, base);
    }
  }

  /** What a die event leads to. */
  datatype Verdict = Expected | Ignored | Counted | GaveUp | RestartIn(delay: Duration)

  datatype Answer = Stopped | NotRunning | Failed

  // ---- The machine ------------------------------------------------------------------

  /** Why the container exited: a Stop that the supervisor marked, or anything else. */
  datatype Exit = Deliberate | Crash

  /** Where the watching goroutine is. */
  datatype Watch =
    | Idle
    | DieGate(exit: Exit)
    | DieRecord(exit: Exit)
    | GiveUp
    | GiveUpStop
    | GiveUpSet
    | BackOff
    | Asleep
    | Restart
    | WedgeGate
    | WedgeStop
    | SyncGate
    | Sync

  /** What became of the tokens and the exits.
      eaten: crashes that used up a token; taken: tokens an aborted update's second decrement
      took; bare: deliberate exits that found no token; missed: give-backs that found none;
      crashes: exits nobody asked for; passed: of those, the delivered that found no token;
      dropped: exits turned away at the gate. */
  datatype Tally = Tally(eaten: nat, taken: nat, bare: nat, missed: nat, crashes: nat, passed: nat, dropped: nat)

  /** others: marked stop calls in flight outside the watching goroutine; claims: updates begun
      and not released; tails: aborted updates whose EndUpdate is still to come. */
  datatype World = World(
    sup: Sup,
    running: bool,
    queue: seq<Exit>,
    others: nat,
    claims: nat,
    tails: nat,
    watch: Watch,
    history: seq<Time>,
    clock: Time,
    tally: Tally)

  datatype Config = Config(maxCrashes: nat, window: int)

  datatype Action =
    | Tick(now: Time)
    | CrashNow
    | OtherMark
    | OtherStopped
    | OtherFailed
    | OtherStart
    | OtherSets(phase: Phase, reason: string)
    | BeginUpdate
    | AbortUpdate
    | EndUpdate
    | EndAborted
    | Deliver
    | Unhealthy
    | ReportHealthy
    | Reconnect
    | Go(stopped: bool)

  /** The watcher has read the phase and not yet finished acting on it. */
  predicate PastGate(pc: Watch) {
    pc.DieRecord? || pc.BackOff? || pc.Asleep? || pc.Restart? || pc.WedgeStop? || pc.Sync?
  }

  function Count(q: seq<Exit>, e: Exit): nat {
    multiset(q)[e]
  }

  /** Marked stop calls still waiting for the daemon. */
  function InFlight(w: World): nat {
    w.others + (if w.watch.GiveUpStop? then 1 else 0)
  }

  function Exits(w: World, e: Exit): World {
    w.(running := false, queue := w.queue + [e],
       tally := if e == Crash then w.tally.(crashes := w.tally.crashes + 1) else w.tally)
  }

  /** A decrement on behalf of an obligation that is discharged with it. */
  function GiveBack(w: World): World {
    w.(sup := Spent(w.sup),
       tally := if w.sup.tokens > 0 then w.tally else w.tally.(missed := w.tally.missed + 1))
  }

  function Full(c: Config, history: seq<Time>, now: Time): bool {
    |Younger(history, now - c.window)| >= c.maxCrashes
  }

  predicate Enabled(w: World, a: Action) {
    match a
    case Tick(now) => now >= w.clock
    case CrashNow => w.running
    case OtherStopped => w.others > 0 && w.running
    case OtherFailed => w.others > 0
    case OtherSets(p, _) => p != Updating
    case BeginUpdate => w.sup.phase != Updating
    case AbortUpdate => w.claims > 0
    case EndUpdate => w.claims > 0
    case EndAborted => w.tails > 0
    case Deliver => w.watch.Idle? && w.queue != []
    case Unhealthy => w.watch.Idle?
    case ReportHealthy => w.watch.Idle?
    case Reconnect => w.watch.Idle?
    case Go(stopped) => !w.watch.Idle? && (stopped ==> (w.watch.GiveUpStop? || w.watch.WedgeStop?) && w.running)
    case _ => true
  }

  function Delivered(w: World): World
    requires w.queue != []
  {
    var e, t := w.queue[0], w.tally;
    var u := w.(queue := w.queue[1..], sup := Spent(w.sup));
    if w.sup.tokens > 0
    then u.(tally := if e == Crash then t.(eaten := t.eaten + 1) else t)
    else u.(watch := DieGate(e),
            tally := if e == Crash then t.(passed := t.passed + 1) else t.(bare := t.bare + 1))
  }

  /** The watcher has started the container. */
  function Started(w: World): World {
    w.(watch := Idle, running := true, sup := w.sup.(phase := Starting, reason := "starting runtime"))
  }

  function WatchStep(c: Config, w: World, stopped: bool): World
    requires !w.watch.Idle? && (stopped ==> (w.watch.GiveUpStop? || w.watch.WedgeStop?) && w.running)
  {
    match w.watch
    case DieGate(e) =>
      if OffLimits(w.sup.phase) then w.(watch := Idle, tally := w.tally.(dropped := w.tally.dropped + 1))
      else w.(watch := DieRecord(e))
    case DieRecord(_) =>
      var h := w.history + [w.clock];
      w.(history := h, watch := if Full(c, h, w.clock) then GiveUp else BackOff)
    case GiveUp => w.(watch := GiveUpStop, sup := Marked(w.sup))
    case GiveUpStop =>
      if stopped then Exits(w, Deliberate).(watch := GiveUpSet) else GiveBack(w).(watch := GiveUpSet)
    case GiveUpSet => w.(watch := Idle, sup := w.sup.(phase := Recovery, reason := "crash loop"))
    case BackOff =>
      w.(watch := Asleep, sup := w.sup.(phase := Starting, reason := "restarting after unexpected exit"))
    case Asleep => w.(watch := Restart)
    case Restart => Started(w)
    case WedgeGate => if OffLimits(w.sup.phase) then w.(watch := Idle) else w.(watch := WedgeStop)
    case WedgeStop => if stopped then Exits(w, Crash).(watch := Idle) else w.(watch := Idle)
    case SyncGate => if OffLimits(w.sup.phase) then w.(watch := Idle) else w.(watch := Sync)
    case Sync => Started(w)
  }

  function Next(c: Config, w: World, a: Action): World
    requires Enabled(w, a)
  {
    match a
    case Tick(now) => w.(clock := now)
    case CrashNow => Exits(w, Crash)
    case OtherMark => w.(sup := Marked(w.sup), others := w.others + 1)
    case OtherStopped => Exits(w, Deliberate).(others := w.others - 1)
    case OtherFailed => GiveBack(w).(others := w.others - 1)
    case OtherStart => w.(running := true)
    case OtherSets(p, r) => w.(sup := w.sup.(phase := p, reason := r))
    case BeginUpdate => w.(sup := Claimed(w.sup), claims := w.claims + 1)
    case AbortUpdate => GiveBack(w).(sup := Aborted(w.sup), claims := w.claims - 1, tails := w.tails + 1)
    case EndUpdate => GiveBack(w).(claims := w.claims - 1)
    case EndAborted =>
      w.(sup := Spent(w.sup), tails := w.tails - 1,
         tally := if w.sup.tokens > 0 then w.tally.(taken := w.tally.taken + 1) else w.tally)
    case Deliver => Delivered(w)
    case Unhealthy => w.(watch := WedgeGate)
    case ReportHealthy => w.(sup := Recovered(w.sup))
    case Reconnect => w.(watch := SyncGate)
    case Go(stopped) => WatchStep(c, w, stopped)
  }

  ghost predicate Init(w: World) {
    && w.sup.tokens == 0 && w.queue == [] && w.others == 0 && w.claims == 0 && w.tails == 0
    && w.watch.Idle? && w.history == [] && w.tally == Tally(0, 0, 0, 0, 0, 0, 0)
  }

  ghost predicate Reaches(c: Config, w: World, run: seq<Action>, v: World)
    decreases run
  {
    if run == [] then w == v
    else Enabled(w, run[0]) && Reaches(c, Next(c, w, run[0]), run[1..], v)
  }

  // ---- What can always still be done ------------------------------------------------------

  /** How many steps the watcher is from its next event, at most. */
  function StepsLeft(p: Watch): nat {
    match p
    case Idle => 0
    case DieGate(_) => 5
    case DieRecord(_) => 4
    case GiveUp => 3
    case GiveUpStop => 2
    case GiveUpSet => 1
    case BackOff => 3
    case Asleep => 2
    case Restart => 1
    case WedgeGate => 2
    case WedgeStop => 1
    case SyncGate => 2
    case Sync => 1
  }

  ghost predicate Settled(w: World) {
    w.others == 0 && w.claims == 0 && w.tails == 0 && w.queue == [] && w.watch.Idle?
  }

  /** What to do next to bring what is open to its end. */
  function ToSettle(w: World): Action {
    if w.others > 0 then OtherFailed
    else if w.claims > 0 then EndUpdate
    else if w.tails > 0 then EndAborted
    else if w.watch.Idle? then Deliver
    else Go(false)
  }

  ghost predicate Closer(u: World, w: World) {
    || u.others < w.others
    || (u.others == w.others && u.claims < w.claims)
    || (u.others == w.others && u.claims == w.claims && u.tails < w.tails)
    || (u.others == w.others && u.claims == w.claims && u.tails == w.tails &&
        (|u.queue| < |w.queue| || (|u.queue| == |w.queue| && StepsLeft(u.watch) < StepsLeft(w.watch))))
  }

  lemma SettlingGetsCloser(c: Config, w: World)
    requires !Settled(w)
    ensures Enabled(w, ToSettle(w)) && Closer(Next(c, w, ToSettle(w)), w)
  {
  }

  lemma OneMore(c: Config, w: World, a: Action, run: seq<Action>, v: World)
    requires Enabled(w, a) && Reaches(c, Next(c, w, a), run, v)
    ensures Reaches(c, w, [a] + run, v)
  {
    assert ([a] + run)[1..] == run;
  }

  /** From wherever things stand, every stop, update and event still open can be brought to its end. */
  lemma {:induction false} EverythingCanBeSettled(c: Config, w: World) returns (run: seq<Action>, v: World)
    ensures Reaches(c, w, run, v) && Settled(v)
    decreases w.others, w.claims, w.tails, |w.queue|, StepsLeft(w.watch)
  {
    if Settled(w) {
      return [], w;
    }
    var a := ToSettle(w);
    SettlingGetsCloser(c, w);
    run, v := EverythingCanBeSettled(c, Next(c, w, a));
    OneMore(c, w, a, run, v);
    run := [a] + run;
  }

  /** Giving up stops a running container with an exit that was asked for, and ends in recovery. */
  lemma GivingUpStops(c: Config, w: World)
    requires w.watch == GiveUp && w.running
    ensures var u := Next(c, w, Go(false));
            Enabled(u, Go(true)) &&
            var v := WatchStep(c, Next(c, u, Go(true)), false);
            && !v.running && v.queue == w.queue + [Deliberate] && v.watch.Idle?
            && v.sup.phase == Recovery && v.sup.reason == "crash loop" && v.sup.tokens == w.sup.tokens + 1
  {
  }

  /** A crash that does not fill the window leads to a restart: the phase is shown while the watcher
      sleeps and set again by the start, whatever others made of it in between. */
  lemma RestartStarts(c: Config, w: World, p: Phase, r: string)
    requires w.watch == BackOff && p != Updating
    ensures var asleep := WatchStep(c, w, false);
            var woken := Next(c, Next(c, asleep, OtherSets(p, r)), Go(false));
            var v := WatchStep(c, woken, false);
            && asleep.sup.phase == Starting && asleep.sup.reason == "restarting after unexpected exit"
            && woken.sup.phase == p && woken.sup.reason == r
            && v.running && v.watch.Idle? && v.sup.phase == Starting && v.sup.reason == "starting runtime"
            && v.sup.tokens == w.sup.tokens && v.queue == w.queue && v.history == w.history
  {
  }

  /** The record of a crash is the time on the clock. */
  lemma RecordIsTheClock(c: Config, w: World, now: Time)
    requires w.watch.DieRecord? && now >= w.clock
    ensures var v := WatchStep(c, Next(c, w, Tick(now)), false);
            v.history == w.history + [now] && (v.watch == GiveUp <==> Full(c, v.history, now))
  {
  }

  /** A wedged container is stopped without a token, so its exit counts as a crash. */
  lemma WedgedIsStopped(c: Config, w: World)
    requires w.watch.Idle? && w.running && !OffLimits(w.sup.phase)
    ensures var u := WatchStep(c, Next(c, w, Unhealthy), false);
            Enabled(u, Go(true)) &&
            var v := Next(c, u, Go(true));
            !v.running && v.queue == w.queue + [Crash] && v.watch.Idle? && v.sup == w.sup
  {
  }

  // ---- Accounts ------------------------------------------------------------------------

  function Owed(w: World): nat {
    Count(w.queue, Deliberate) + InFlight(w) + w.claims
  }

  /** Every token taken out is still there, was used by a crash or taken by an aborted update,
      unless the exit or the release it was for came and found none. */
  predicate TokensBalance(w: World) {
    w.sup.tokens + w.tally.eaten + w.tally.taken == Owed(w) + w.tally.bare + w.tally.missed
  }

  predicate TokensBounded(w: World) {
    w.sup.tokens <= Owed(w)
  }

  /** Every exit nobody asked for is queued, used a token or went to the gate; every exit that
      went to the gate was recorded, turned away or is there still. */
  predicate ExitsBalance(w: World) {
    && w.tally.crashes == Count(w.queue, Crash) + w.tally.eaten + w.tally.passed
    && w.tally.passed + w.tally.bare == |w.history| + w.tally.dropped
                                        + (if w.watch.DieGate? || w.watch.DieRecord? then 1 else 0)
  }

  predicate Accounts(w: World) { TokensBalance(w) && TokensBounded(w) && ExitsBalance(w) }

  lemma CountFirst(q: seq<Exit>, e: Exit)
    requires q != []
    ensures Count(q, e) == Count(q[1..], e) + (if q[0] == e then 1 else 0)
  {
    assert q == [q[0]] + q[1..];
  }

  lemma DeliveryBalances(w: World)
    requires Accounts(w) && w.queue != [] && w.watch.Idle?
    ensures Accounts(Delivered(w))
  {
    CountFirst(w.queue, Deliberate);
    CountFirst(w.queue, Crash);
    if w.sup.tokens > 0 {
    } else if w.queue[0] == Crash {
    } else {
    }
  }

  lemma ExitBalances(w: World, e: Exit)
    ensures var v := Exits(w, e);
            Count(v.queue, Deliberate) == Count(w.queue, Deliberate) + (if e == Deliberate then 1 else 0) &&
            Count(v.queue, Crash) == Count(w.queue, Crash) + (if e == Crash then 1 else 0)
  {
  }

  lemma GivingUpBalances(c: Config, w: World, stopped: bool)
    requires Accounts(w) && Enabled(w, Go(stopped)) && (w.watch.GiveUp? || w.watch.GiveUpStop?)
    ensures Accounts(WatchStep(c, w, stopped))
  {
    ExitBalances(w, Deliberate);
  }

  predicate SameBooks(w: World, v: World) {
    && v.queue == w.queue && v.sup.tokens == w.sup.tokens && v.others == w.others && v.claims == w.claims
    && v.tally == w.tally && v.history == w.history && !w.watch.GiveUpStop? && !v.watch.GiveUpStop?
    && ((v.watch.DieGate? || v.watch.DieRecord?) <==> (w.watch.DieGate? || w.watch.DieRecord?))
  }

  lemma SameBooksBalance(w: World, v: World)
    requires Accounts(w) && SameBooks(w, v)
    ensures Accounts(v)
  {
  }

  lemma JudgingBalances(c: Config, w: World)
    requires Accounts(w) && (w.watch.DieGate? || w.watch.DieRecord?)
    ensures Accounts(WatchStep(c, w, false))
  {
  }

  lemma WedgeBalances(c: Config, w: World, stopped: bool)
    requires Accounts(w) && w.watch.WedgeStop? && (stopped ==> w.running)
    ensures Accounts(WatchStep(c, w, stopped))
  {
    ExitBalances(w, Crash);
  }

  lemma ActingBalances(c: Config, w: World, stopped: bool)
    requires Accounts(w) && Enabled(w, Go(stopped)) && !w.watch.GiveUp? && !w.watch.GiveUpStop?
    ensures Accounts(WatchStep(c, w, stopped))
  {
    if w.watch.DieGate? || w.watch.DieRecord? {
      JudgingBalances(c, w);
    } else if w.watch.WedgeStop? {
      WedgeBalances(c, w, stopped);
    } else {
      var v := WatchStep(c, w, stopped);
      assert SameBooks(w, v);
      SameBooksBalance(w, v);
    }
  }

  lemma ClaimBalances(c: Config, w: World)
    requires Accounts(w) && Enabled(w, BeginUpdate)
    ensures Accounts(Next(c, w, BeginUpdate))
  {
  }

  lemma AbortBalances(c: Config, w: World)
    requires Accounts(w) && Enabled(w, AbortUpdate)
    ensures Accounts(Next(c, w, AbortUpdate))
  {
  }

  lemma EndBalances(c: Config, w: World)
    requires Accounts(w) && Enabled(w, EndUpdate)
    ensures Accounts(Next(c, w, EndUpdate))
  {
  }

  lemma EndAbortedBalances(c: Config, w: World)
    requires Accounts(w) && Enabled(w, EndAborted)
    ensures Accounts(Next(c, w, EndAborted))
  {
  }

  lemma StopCallBalances(c: Config, w: World, a: Action)
    requires Accounts(w) && Enabled(w, a) && (a.OtherMark? || a.OtherStopped? || a.OtherFailed?)
    ensures Accounts(Next(c, w, a))
  {
    ExitBalances(w, Deliberate);
  }

  lemma OtherStepBalances(c: Config, w: World, a: Action)
    requires Accounts(w) && Enabled(w, a) && !a.Deliver? && !a.Go?
    requires !a.BeginUpdate? && !a.AbortUpdate? && !a.EndUpdate? && !a.EndAborted?
    requires !a.OtherMark? && !a.OtherStopped? && !a.OtherFailed?
    ensures Accounts(Next(c, w, a))
  {
    if a.CrashNow? {
      ExitBalances(w, Crash);
    }
  }

  lemma StepBalances(c: Config, w: World, a: Action)
    requires Accounts(w) && Enabled(w, a)
    ensures Accounts(Next(c, w, a))
  {
    if a.Deliver? {
      DeliveryBalances(w);
    } else if a.Go? && (w.watch.GiveUp? || w.watch.GiveUpStop?) {
      GivingUpBalances(c, w, a.stopped);
    } else if a.Go? {
      ActingBalances(c, w, a.stopped);
    } else if a.BeginUpdate? {
      ClaimBalances(c, w);
    } else if a.AbortUpdate? {
      AbortBalances(c, w);
    } else if a.EndUpdate? {
      EndBalances(c, w);
    } else if a.EndAborted? {
      EndAbortedBalances(c, w);
    } else if a.OtherMark? || a.OtherStopped? || a.OtherFailed? {
      StopCallBalances(c, w, a);
    } else {
      OtherStepBalances(c, w, a);
    }
  }

  // ---- The gate and the window ------------------------------------------------------------

  /** A restart is on its way only after a crash that did not fill the window. */
  predicate Windowed(c: Config, w: World) {
    && Sorted(w.history) && (w.history != [] ==> w.history[|w.history| - 1] <= w.clock)
    && (w.watch.BackOff? || w.watch.Asleep? || w.watch.Restart? ==>
          w.history != [] && !Full(c, w.history, w.history[|w.history| - 1]))
  }

  lemma RecordStaysWindowed(c: Config, w: World)
    requires Windowed(c, w) && w.watch.DieRecord?
    ensures Windowed(c, WatchStep(c, w, false))
  {
    var h := w.history + [w.clock];
    assert forall i :: 0 <= i < |w.history| ==> w.history[i] <= w.history[|w.history| - 1];
    assert Sorted(h);
  }

  lemma StepStaysWindowed(c: Config, w: World, a: Action)
    requires Windowed(c, w) && Enabled(w, a)
    ensures Windowed(c, Next(c, w, a))
  {
    if a.Go? && w.watch.DieRecord? {
      RecordStaysWindowed(c, w);
    } else {
      assert Next(c, w, a).history == w.history && Next(c, w, a).clock >= w.clock;
    }
  }

  lemma StepTakesNothing(c: Config, w: World, a: Action)
    requires TokensBounded(w) && Enabled(w, a) && (a.EndAborted? ==> Owed(w) == 0)
    ensures Next(c, w, a).tally.taken == w.tally.taken
  {
  }

  lemma StepKeepsDisplaced(c: Config, w: World, a: Action)
    requires Enabled(w, a) && a != BeginUpdate
    ensures Next(c, w, a).sup.prePhase == w.sup.prePhase && Next(c, w, a).sup.preReason == w.sup.preReason
  {
    if a.Go? {
      var v := WatchStep(c, w, a.stopped);
      assert v.sup.prePhase == w.sup.prePhase && v.sup.preReason == w.sup.preReason;
    }
  }

  predicate Inv(c: Config, w: World) { Accounts(w) && Windowed(c, w) }

  lemma {:induction false} InvariantHolds(c: Config, w: World, run: seq<Action>, v: World)
    requires Inv(c, w) && Reaches(c, w, run, v)
    ensures Inv(c, v)
    decreases run
  {
    if run != [] {
      StepBalances(c, w, run[0]);
      StepStaysWindowed(c, w, run[0]);
      InvariantHolds(c, Next(c, w, run[0]), run[1..], v);
    }
  }

  // ---- Main results -------------------------------------------------------------------------

  /** In every run: the tokens never exceed the deliberate exits not yet delivered, the stop
      calls in flight and the updates holding a claim, and every difference is accounted for. */
  lemma TokensAreOwed(c: Config, w: World, run: seq<Action>, v: World)
    requires Init(w) && Reaches(c, w, run, v)
    ensures v.sup.tokens <= Count(v.queue, Deliberate) + InFlight(v) + v.claims
    ensures v.sup.tokens + v.tally.eaten + v.tally.taken ==
            Count(v.queue, Deliberate) + InFlight(v) + v.claims + v.tally.bare + v.tally.missed
  {
    InvariantHolds(c, w, run, v);
  }

  /** Once nothing is outstanding the next crash is counted: delivered, let through the gate
      unless recovery or an update owns the runtime, and recorded. */
  lemma NextCrashIsCounted(c: Config, w: World, run: seq<Action>, v: World)
    requires Init(w) && Reaches(c, w, run, v)
    requires v.watch.Idle? && v.queue != [] && v.queue[0] == Crash
    requires Count(v.queue, Deliberate) == 0 && InFlight(v) == 0 && v.claims == 0
    ensures v.sup.tokens == 0
    ensures var atGate := Next(c, v, Deliver);
            atGate.watch == DieGate(Crash) &&
            if OffLimits(v.sup.phase) then Next(c, atGate, Go(false)).history == v.history
            else Next(c, Next(c, atGate, Go(false)), Go(false)).history == v.history + [v.clock]
  {
    InvariantHolds(c, w, run, v);
  }

  /** The crash window never holds more exits than there were crashes, plus the tokens that
      aborted updates took from others. */
  lemma WindowNeverOvercounts(c: Config, w: World, run: seq<Action>, v: World)
    requires Init(w) && Reaches(c, w, run, v)
    ensures |v.history| <= v.tally.crashes + v.tally.taken
    ensures v.tally.bare <= v.tally.eaten + v.tally.taken
  {
    InvariantHolds(c, w, run, v);
  }

  /** No aborted update ends while anyone else is owed a token. */
  ghost predicate NoOverlap(c: Config, w: World, run: seq<Action>)
    decreases run
  {
    run != [] && Enabled(w, run[0]) ==>
      (run[0].EndAborted? ==> Owed(w) == 0) && NoOverlap(c, Next(c, w, run[0]), run[1..])
  }

  lemma {:induction false} NothingTakenWithoutOverlap(c: Config, w: World, run: seq<Action>, v: World)
    requires Accounts(w) && w.tally.taken == 0 && Reaches(c, w, run, v) && NoOverlap(c, w, run)
    ensures v.tally.taken == 0
    decreases run
  {
    if run != [] {
      StepBalances(c, w, run[0]);
      StepTakesNothing(c, w, run[0]);
      NothingTakenWithoutOverlap(c, Next(c, w, run[0]), run[1..], v);
    }
  }

  lemma StepAddsUp(c: Config, w: World, a: Action)
    requires Enabled(w, a)
    ensures Next(c, w, a).tally.taken >= w.tally.taken && Next(c, w, a).tally.eaten >= w.tally.eaten
    ensures a.EndAborted? ==> Next(c, w, a).tally.taken == w.tally.taken + (if w.sup.tokens > 0 then 1 else 0)
  {
    if a.Go? {
      assert WatchStep(c, w, a.stopped).tally.taken == w.tally.taken;
      assert WatchStep(c, w, a.stopped).tally.eaten == w.tally.eaten;
    }
  }

  lemma {:induction false} RunAddsUp(c: Config, w: World, run: seq<Action>, v: World)
    requires Reaches(c, w, run, v)
    ensures v.tally.taken >= w.tally.taken && v.tally.eaten >= w.tally.eaten
    decreases run
  {
    if run != [] {
      StepAddsUp(c, w, run[0]);
      RunAddsUp(c, Next(c, w, run[0]), run[1..], v);
    }
  }

  /** With no crash having used a token, an end that overlaps finds one to take. */
  lemma {:induction false} OverlapTakesAToken(c: Config, w: World, run: seq<Action>, v: World)
    requires Accounts(w) && Reaches(c, w, run, v) && w.tally.taken == 0
    requires v.tally.eaten == 0 && v.tally.taken == 0
    ensures NoOverlap(c, w, run)
    decreases run
  {
    if run != [] {
      var w1 := Next(c, w, run[0]);
      RunAddsUp(c, w, run, v);
      RunAddsUp(c, w1, run[1..], v);
      StepAddsUp(c, w, run[0]);
      StepBalances(c, w, run[0]);
      OverlapTakesAToken(c, w1, run[1..], v);
    }
  }

  /** At the end of an aborted update, what is outstanding and what found no token make up for what
      crashes and other such ends have used. */
  predicate Even(w: World) { Owed(w) + w.tally.bare + w.tally.missed == w.tally.eaten + w.tally.taken }

  ghost predicate EndsEven(c: Config, w: World, run: seq<Action>)
    decreases run
  {
    run != [] && Enabled(w, run[0]) ==>
      (run[0].EndAborted? ==> Even(w)) && EndsEven(c, Next(c, w, run[0]), run[1..])
  }

  lemma StepTakesExactlyWhen(c: Config, w: World, a: Action)
    requires Accounts(w) && Enabled(w, a)
    ensures Next(c, w, a).tally.taken >= w.tally.taken
    ensures Next(c, w, a).tally.taken == w.tally.taken <==> (a.EndAborted? ==> Even(w))
  {
    if a.Go? {
      assert WatchStep(c, w, a.stopped).tally.taken == w.tally.taken;
    }
  }

  lemma {:induction false} RunTakesExactlyWhen(c: Config, w: World, run: seq<Action>, v: World)
    requires Accounts(w) && Reaches(c, w, run, v)
    ensures v.tally.taken >= w.tally.taken
    ensures v.tally.taken == w.tally.taken <==> EndsEven(c, w, run)
    decreases run
  {
    if run != [] {
      StepTakesExactlyWhen(c, w, run[0]);
      StepBalances(c, w, run[0]);
      RunTakesExactlyWhen(c, Next(c, w, run[0]), run[1..], v);
    }
  }

  /** In every run the second decrement of an aborted update is harmless exactly when each such end is
      even. As long as no crash has used a token that is exactly when nothing overlaps it; and once
      nothing is outstanding then, exactly when every deliberate exit and every release has found its
      own. */
  lemma NothingIsTakenExactlyWhen(c: Config, w: World, run: seq<Action>, v: World)
    requires Init(w) && Reaches(c, w, run, v)
    ensures v.tally.taken == 0 <==> EndsEven(c, w, run)
    ensures v.tally.eaten == 0 ==> (v.tally.taken == 0 <==> NoOverlap(c, w, run))
    ensures v.tally.eaten == 0 && Owed(v) == 0 ==>
              (v.tally.bare == 0 && v.tally.missed == 0 <==> NoOverlap(c, w, run))
  {
    InvariantHolds(c, w, run, v);
    RunTakesExactlyWhen(c, w, run, v);
    if NoOverlap(c, w, run) {
      NothingTakenWithoutOverlap(c, w, run, v);
    } else if v.tally.taken == 0 && v.tally.eaten == 0 {
      OverlapTakesAToken(c, w, run, v);
    }
  }

  /** When no stop or update overlaps the end of an aborted one, the window counts no more
      exits than there were crashes, and a deliberate exit reaches it only in the place of a
      crash that used its token. */
  lemma WithoutOverlapOnlyCrashesCount(c: Config, w: World, run: seq<Action>, v: World)
    requires Init(w) && Reaches(c, w, run, v) && NoOverlap(c, w, run)
    ensures |v.history| <= v.tally.crashes
    ensures v.tally.eaten == 0 ==> v.tally.bare == 0
  {
    NothingTakenWithoutOverlap(c, w, run, v);
    InvariantHolds(c, w, run, v);
  }

  /** The full window, spelled out: the maxCrashes-th last recorded exit is still young. */
  predicate Looping(c: Config, h: seq<Time>, now: Time) {
    |h| >= c.maxCrashes >= 1 && h[|h| - c.maxCrashes] > now - c.window
  }

  lemma FullIsLooping(c: Config, h: seq<Time>, now: Time)
    requires Sorted(h) && c.maxCrashes >= 1
    ensures Full(c, h, now) <==> Looping(c, h, now)
  {
    if |h| >= c.maxCrashes {
      FullExactlyWhen(h, now - c.window, c.maxCrashes);
    }
  }

  /** maxCrashes exits recorded within the window leave no automatic restart pending. */
  lemma NoRestartAfterCrashLoop(c: Config, w: World, run: seq<Action>, v: World)
    requires Init(w) && Reaches(c, w, run, v) && c.maxCrashes >= 1
    requires v.history != [] && Looping(c, v.history, v.history[|v.history| - 1])
    ensures !v.watch.BackOff? && !v.watch.Asleep? && !v.watch.Restart?
  {
    InvariantHolds(c, w, run, v);
    FullIsLooping(c, v.history, v.history[|v.history| - 1]);
  }

  /** The record that completes them, and no other, makes the watcher give up. */
  lemma GivesUpExactlyOnCrashLoop(c: Config, w: World, run: seq<Action>, v: World)
    requires Init(w) && Reaches(c, w, run, v) && c.maxCrashes >= 1 && v.watch.DieRecord?
    ensures Next(c, v, Go(false)).watch == if Looping(c, v.history + [v.clock], v.clock) then GiveUp else BackOff
  {
    InvariantHolds(c, w, run, v);
    RecordStaysWindowed(c, v);
    FullIsLooping(c, v.history + [v.clock], v.clock);
  }

  // ---- Updates -------------------------------------------------------------------------------

  lemma {:induction false} DisplacedPhaseIsKept(c: Config, w: World, run: seq<Action>, v: World)
    requires Reaches(c, w, run, v) && BeginUpdate !in run
    ensures v.sup.prePhase == w.sup.prePhase && v.sup.preReason == w.sup.preReason
    decreases run
  {
    if run != [] {
      StepKeepsDisplaced(c, w, run[0]);
      DisplacedPhaseIsKept(c, Next(c, w, run[0]), run[1..], v);
    }
  }

  /** Whatever happens during an attempt, aborting it restores the displaced phase and reason
      exactly when the update still owns the phase. */
  lemma AbortRestoresDisplaced(c: Config, w: World, run: seq<Action>, v: World)
    requires Enabled(w, BeginUpdate) && BeginUpdate !in run
    requires Reaches(c, Next(c, w, BeginUpdate), run, v) && Enabled(v, AbortUpdate)
    ensures var u := Next(c, v, AbortUpdate);
            if v.sup.phase == Updating then u.sup.phase == w.sup.phase && u.sup.reason == w.sup.reason
            else u.sup.phase == v.sup.phase && u.sup.reason == v.sup.reason
  {
    DisplacedPhaseIsKept(c, Next(c, w, BeginUpdate), run, v);
  }

  // ---- Runs in which less holds --------------------------------------------------------------

  function Quiet(): World {
    World(Sup(Healthy, "", 0, Booting, ""), true, [], 0, 0, 0, Idle, [], 0, Tally(0, 0, 0, 0, 0, 0, 0))
  }

  /** A deliberate exit that finds no token, in a phase the gate lets through. */
  lemma BareExitIsRecorded(c: Config, w: World) returns (run: seq<Action>, v: World)
    requires w.watch.Idle? && w.queue == [Deliberate] && w.sup.tokens == 0 && !OffLimits(w.sup.phase)
    ensures Reaches(c, w, run, v) && v.history == w.history + [w.clock] && v.tally.crashes == w.tally.crashes
  {
    var w1 := Next(c, w, Deliver);
    var w2 := Next(c, w1, Go(false));
    v := Next(c, w2, Go(false));
    OneMore(c, w2, Go(false), [], v);
    OneMore(c, w1, Go(false), [Go(false)] + [], v);
    run := [Deliver] + ([Go(false)] + ([Go(false)] + []));
    OneMore(c, w, Deliver, run[1..], v);
  }

  lemma RestartMissesItsToken(c: Config, w3: World) returns (run: seq<Action>, v: World)
    requires w3 == Quiet().(sup := Sup(Healthy, "", 1, Healthy, ""), others := 1, tails := 1)
    ensures Reaches(c, w3, run, v)
    ensures v.tally.crashes == 0 && |v.history| == 1
  {
    var w5 := Quiet().(sup := Sup(Healthy, "", 0, Healthy, ""), running := false, queue := [Deliberate],
                       tally := Tally(0, 1, 0, 0, 0, 0, 0));
    var late;
    late, v := BareExitIsRecorded(c, w5);
    var w4 := Next(c, w3, EndAborted);
    assert Next(c, w4, OtherStopped) == w5;
    OneMore(c, w4, OtherStopped, late, v);
    OneMore(c, w3, EndAborted, [OtherStopped] + late, v);
    run := [EndAborted] + ([OtherStopped] + late);
  }

  lemma AbortTakesATokenOfARestart(c: Config, w1: World) returns (run: seq<Action>, v: World)
    requires w1 == Quiet().(sup := Sup(Updating, UPDATE_REASON, 1, Healthy, ""), claims := 1)
    ensures Reaches(c, w1, run, v)
    ensures v.tally.crashes == 0 && |v.history| == 1
  {
    var w3 := Quiet().(sup := Sup(Healthy, "", 1, Healthy, ""), others := 1, tails := 1);
    var late;
    late, v := RestartMissesItsToken(c, w3);
    var w2 := Next(c, w1, AbortUpdate);
    assert Next(c, w2, OtherMark) == w3;
    OneMore(c, w2, OtherMark, late, v);
    OneMore(c, w1, AbortUpdate, [OtherMark] + late, v);
    run := [AbortUpdate] + ([OtherMark] + late);
  }

  /** An aborted update decrements twice: the second takes the token of a restart that started
      in between, and the restart's own exit is recorded as a crash. */
  lemma AbortedUpdateTakesATokenOfARestart(c: Config) returns (run: seq<Action>, v: World)
    ensures Init(Quiet()) && Reaches(c, Quiet(), run, v)
    ensures v.tally.crashes == 0 && |v.history| == 1
  {
    var w1 := Quiet().(sup := Sup(Updating, UPDATE_REASON, 1, Healthy, ""), claims := 1);
    var late;
    late, v := AbortTakesATokenOfARestart(c, w1);
    assert Next(c, Quiet(), BeginUpdate) == w1;
    OneMore(c, Quiet(), BeginUpdate, late, v);
    run := [BeginUpdate] + late;
  }

  lemma SleepsThroughClaim(c: Config, w: World) returns (run: seq<Action>, v: World)
    requires c.maxCrashes >= 2 && w.watch == DieGate(Crash) && !OffLimits(w.sup.phase) && w.history == []
    ensures Reaches(c, w, run, v)
    ensures v.watch.Restart? && v.sup.phase == Updating
  {
    var w1 := Next(c, w, Go(false));
    assert !Full(c, w.history + [w.clock], w.clock);
    var w2 := Next(c, w1, Go(false));
    var w3 := Next(c, w2, Go(false));
    var w4 := Next(c, w3, BeginUpdate);
    v := Next(c, w4, Go(false));
    var go := [Go(false)] + [];
    OneMore(c, w4, Go(false), [], v);
    OneMore(c, w3, BeginUpdate, go, v);
    OneMore(c, w2, Go(false), [BeginUpdate] + go, v);
    OneMore(c, w1, Go(false), [Go(false)] + ([BeginUpdate] + go), v);
    run := [Go(false)] + ([Go(false)] + ([Go(false)] + ([BeginUpdate] + go)));
    OneMore(c, w, Go(false), run[1..], v);
  }

  /** The gate is read before the back-off: an update begun during the sleep does not stop the
      restart, which also takes the phase away from it. */
  lemma RestartDuringUpdate(c: Config) returns (run: seq<Action>, v: World)
    requires c.maxCrashes >= 2
    ensures Init(Quiet()) && Reaches(c, Quiet(), run, v)
    ensures v.watch.Restart? && v.sup.phase == Updating
    ensures Enabled(v, Go(false)) && Next(c, v, Go(false)).running && Next(c, v, Go(false)).sup.phase == Starting
  {
    var w2 := Quiet().(running := false, watch := DieGate(Crash), tally := Tally(0, 0, 0, 0, 1, 1, 0));
    var late;
    late, v := SleepsThroughClaim(c, w2);
    var w1 := Next(c, Quiet(), CrashNow);
    assert Next(c, w1, Deliver) == w2;
    OneMore(c, w1, Deliver, late, v);
    OneMore(c, Quiet(), CrashNow, [Deliver] + late, v);
    run := [CrashNow] + ([Deliver] + late);
  }
}
