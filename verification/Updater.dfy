/** A version change: pull, record the new version, swap the container, retire the old image.
    Each effect is a step, and the power may go at any of them. */
module Updater {
  import S = Supervisor

  type Version = string

  datatype Container = Absent | Present(image: Version, running: bool)

  datatype Place =
    | Idle
    | Pulling
    | Looking
    | Recording
    | Writing
    | Renaming
    | Stopping
    | Reconciling
    | Retiring
    | Succeeded
    | FailedBefore
    | FailedAfter
    | Ending

  /** disk: the version in the spec file; mem: the one the process holds. */
  datatype Device = Device(
    disk: Version,
    mem: Version,
    images: set<Version>,
    container: Container,
    sup: S.Sup,
    place: Place,
    previous: Version,
    target: Version)

  datatype Action =
    | Start(target: Version)
    | Step(ok: bool, left: Container)
    | OtherPull(version: Version)
    | PowerCut

  function StoppedOf(c: Container): Container {
    if c.Present? then Present(c.image, false) else c
  }

  predicate Enabled(d: Device, a: Action) {
    match a
    case Start(_) => d.place.Idle? && d.sup.phase != S.Updating
    case Step(ok, _) =>
      && !d.place.Idle?
      // the daemon reports an image it has, and creates a container only from one
      && (ok && d.place.Looking? ==> d.target in d.images)
      && (ok && d.place.Reconciling? ==> d.mem in d.images)
    case OtherPull(_) => true
    case PowerCut => true
  }

  function StepOf(d: Device, ok: bool, left: Container): Device
    requires !d.place.Idle?
  {
    match d.place
    case Pulling =>
      if ok then d.(images := d.images + {d.target}, place := Recording) else d.(place := Looking)
    case Looking => d.(place := if ok then Recording else FailedBefore)
    case Recording => d.(mem := d.target, place := Writing)
    case Writing => if ok then d.(place := Renaming) else d.(mem := d.previous, place := FailedBefore)
    case Renaming =>
      if ok then d.(disk := d.mem, place := Stopping) else d.(mem := d.previous, place := FailedBefore)
    case Stopping =>
      var e := d.(place := Reconciling);
      if ok then e.(container := StoppedOf(d.container), sup := S.Marked(d.sup)) else e
    case Reconciling =>
      if ok then d.(container := Present(d.mem, true), place := Retiring,
                    sup := d.sup.(phase := S.Healthy, reason := ""))
      else d.(container := left, place := FailedAfter)
    case Retiring =>
      d.(images := if ok && d.previous != d.target then d.images - {d.previous} else d.images, place := Succeeded)
    case Succeeded => d.(sup := S.Spent(d.sup), place := Idle)
    case FailedBefore => d.(sup := S.Aborted(d.sup), place := Ending)
    case FailedAfter =>
      var s := if ok then S.Marked(d.sup) else d.sup;
      d.(container := if ok then StoppedOf(d.container) else d.container,
         sup := s.(phase := S.Recovery, reason := "update failed"), place := Ending)
    case Ending => d.(sup := S.Spent(d.sup), place := Idle)
  }

  function Next(d: Device, a: Action): Device
    requires Enabled(d, a)
  {
    match a
    case Start(target) => d.(sup := S.Claimed(d.sup), place := Pulling, previous := d.mem, target := target)
    case Step(ok, left) => StepOf(d, ok, left)
    case OtherPull(v) => d.(images := d.images + {v})
    case PowerCut =>
      d.(mem := d.disk, container := StoppedOf(d.container), place := Idle,
         sup := S.Sup(S.Booting, "", 0, S.Booting, ""))
  }

  ghost predicate Reaches(d: Device, run: seq<Action>, e: Device)
    decreases run
  {
    if run == [] then d == e
    else Enabled(d, run[0]) && Reaches(Next(d, run[0]), run[1..], e)
  }

  lemma {:induction false} Extend(d: Device, run: seq<Action>, e: Device, a: Action)
    requires Reaches(d, run, e) && Enabled(e, a)
    ensures Reaches(d, run + [a], Next(e, a))
    decreases run
  {
    if run == [] {
      assert [a][1..] == [];
    } else {
      Extend(Next(d, run[0]), run[1..], e, a);
      assert (run + [a])[1..] == run[1..] + [a];
    }
  }

  // ---- A power cut at any step ----------------------------------------------------------

  /** After the rename the container may already be gone. */
  predicate Swapping(p: Place) {
    p.Stopping? || p.Reconciling? || p.Retiring? || p.Succeeded? || p.FailedAfter?
  }

  predicate Inv(d: Device) {
    && d.disk in d.images
    && (d.place.Idle? || d.place.Ending? ==> d.mem == d.disk)
    && (d.place.Pulling? || d.place.Looking? || d.place.Recording? || d.place.FailedBefore? ==>
          d.mem == d.disk == d.previous)
    && (d.place.Recording? ==> d.target in d.images)
    && (d.place.Writing? || d.place.Renaming? ==>
          d.mem == d.target && d.disk == d.previous && d.target in d.images)
    && (Swapping(d.place) ==> d.mem == d.disk == d.target)
  }

  lemma StepKeepsInv(d: Device, a: Action)
    requires Inv(d) && Enabled(d, a)
    ensures Inv(Next(d, a))
  {
  }

  lemma {:induction false} InvHolds(d: Device, run: seq<Action>, e: Device)
    requires Inv(d) && Reaches(d, run, e)
    ensures Inv(e)
    decreases run
  {
    if run != [] {
      StepKeepsInv(d, run[0]);
      InvHolds(Next(d, run[0]), run[1..], e);
    }
  }

  /** Across any sequence of updates cut off at any steps, the version the device would boot is
      always one whose image it has. */
  lemma BootImageIsAlwaysPresent(d: Device, run: seq<Action>, e: Device)
    requires d.place.Idle? && d.mem == d.disk && d.disk in d.images && Reaches(d, run, e)
    ensures e.disk in e.images
    ensures var r := Next(e, PowerCut);
            && r.place.Idle? && r.disk == e.disk == r.mem && r.images == e.images && r.mem in r.images
            && (r.container.Present? ==> e.container.Present? && r.container == Present(e.container.image, false))
            && (e.container.Present? ==> r.container.Present?)
            && r.sup.phase == S.Booting && r.sup.reason == "" && r.sup.tokens == 0
  {
    InvHolds(d, run, e);
  }

  // ---- One attempt -----------------------------------------------------------------------

  predicate OneAttempt(run: seq<Action>) {
    forall i :: 0 <= i < |run| ==> run[i].Step? || run[i].OtherPull?
  }

  /** What the attempt that began at d has and has not changed. */
  predicate Since(d: Device, target: Version, e: Device)
    requires d.sup.phase != S.Updating
  {
    && (!e.place.Idle? ==> e.target == target)
    && (!e.place.Idle? && !e.place.Succeeded? && !e.place.Ending? ==> d.images <= e.images && e.previous == d.mem)
    && (!e.place.Idle? && !e.place.Ending? && !Swapping(e.place) ==> e.disk == d.disk)
    && (!e.place.Idle? && !e.place.Ending? && (!Swapping(e.place) || e.place.Stopping?) ==>
          e.container == d.container && e.sup == S.Claimed(d.sup))
    && (e.place.Retiring? || e.place.Succeeded? ==>
          e.container == Present(e.target, true) && e.sup.phase == S.Healthy && e.sup.reason == "")
  }

  lemma StepStaysSince(d: Device, target: Version, e: Device, a: Action)
    requires d.sup.phase != S.Updating && Since(d, target, e) && Inv(e) && Enabled(e, a) && (a.Step? || a.OtherPull?)
    ensures Since(d, target, Next(e, a))
  {
  }

  lemma {:induction false} AttemptStaysSince(d: Device, target: Version, f: Device, run: seq<Action>, e: Device)
    requires d.sup.phase != S.Updating && Since(d, target, f) && Inv(f) && Reaches(f, run, e) && OneAttempt(run)
    ensures Since(d, target, e) && Inv(e)
    decreases run
  {
    if run != [] {
      StepKeepsInv(f, run[0]);
      StepStaysSince(d, target, f, run[0]);
      AttemptStaysSince(d, target, Next(f, run[0]), run[1..], e);
    }
  }

  /** Another pull may come at any time, and only adds its image. */
  lemma OtherPullsOnlyAdd(d: Device, v: Version)
    ensures Enabled(d, OtherPull(v))
    ensures Next(d, OtherPull(v)).images == d.images + {v} && Next(d, OtherPull(v)).(images := d.images) == d
  {
  }

  /** A failure before the swap leaves the spec, the container and the images as they were, and
      aborting it restores the displaced phase and reason; the abort and the end that follows it
      leave the tokens as they were exactly when there were none. */
  lemma FailureBeforeSwapChangesNothing(d: Device, target: Version, run: seq<Action>, e: Device)
    requires Inv(d) && Enabled(d, Start(target)) && OneAttempt(run)
    requires Reaches(Next(d, Start(target)), run, e) && e.place.FailedBefore?
    ensures e.disk == d.disk && e.mem == d.mem && e.container == d.container && d.images <= e.images
    ensures var ended := StepOf(StepOf(e, true, Absent), true, Absent);
            && ended.place.Idle? && ended.disk == d.disk && ended.mem == d.mem && ended.container == d.container
            && ended.sup.phase == d.sup.phase && ended.sup.reason == d.sup.reason
            && (ended.sup.tokens == d.sup.tokens <==> d.sup.tokens == 0)
  {
    StepKeepsInv(d, Start(target));
    AttemptStaysSince(d, target, Next(d, Start(target)), run, e);
  }

  /** The old image is there until the new version runs: every failure leaves both. */
  lemma FailureKeepsEveryImage(d: Device, target: Version, run: seq<Action>, e: Device)
    requires Inv(d) && Enabled(d, Start(target)) && OneAttempt(run)
    requires Reaches(Next(d, Start(target)), run, e) && (e.place.FailedBefore? || e.place.FailedAfter?)
    ensures d.images <= e.images
  {
    StepKeepsInv(d, Start(target));
    AttemptStaysSince(d, target, Next(d, Start(target)), run, e);
  }

  /** Success means the target is recorded, present and running. */
  lemma SuccessRunsTarget(d: Device, target: Version, run: seq<Action>, e: Device)
    requires Inv(d) && Enabled(d, Start(target)) && OneAttempt(run)
    requires Reaches(Next(d, Start(target)), run, e) && e.place.Succeeded?
    ensures e.disk == e.mem == target && target in e.images && e.container == Present(target, true)
    ensures e.sup.phase == S.Healthy && e.sup.reason == ""
  {
    StepKeepsInv(d, Start(target));
    AttemptStaysSince(d, target, Next(d, Start(target)), run, e);
  }

  /** Once the version is recorded, a stop that succeeds leaves no runtime running, and takes a token for
      its exit, before anything is made of the new image. */
  lemma SwapStopsFirst(d: Device, target: Version, run: seq<Action>, e: Device, left: Container)
    requires Inv(d) && Enabled(d, Start(target)) && OneAttempt(run)
    requires Reaches(Next(d, Start(target)), run, e) && e.place.Stopping?
    ensures var f := Next(e, Step(true, left));
            && f.place.Reconciling? && f.disk == f.mem == target && f.images == e.images
            && f.container == StoppedOf(d.container) && (f.container.Present? ==> !f.container.running)
            && f.sup.tokens == e.sup.tokens + 1
    ensures Next(e, Step(false, left)) == e.(place := Reconciling)
  {
    StepKeepsInv(d, Start(target));
    AttemptStaysSince(d, target, Next(d, Start(target)), run, e);
  }

  /** The last step of an attempt removes the image of the version before, unless that is the target
      or the removal fails, and no other. */
  lemma SuccessRetiresThePrevious(d: Device, target: Version, run: seq<Action>, e: Device, ok: bool, left: Container)
    requires Inv(d) && Enabled(d, Start(target)) && OneAttempt(run)
    requires Reaches(Next(d, Start(target)), run, e) && e.place.Retiring?
    ensures var f := Next(e, Step(ok, left));
            && f.place.Succeeded? && d.images - {d.mem} <= f.images
            && (d.mem in f.images <==> d.mem == target || !ok)
  {
    StepKeepsInv(d, Start(target));
    AttemptStaysSince(d, target, Next(d, Start(target)), run, e);
  }

  /** A version that does not start is left recorded, with recovery entered, and the attempt over. */
  lemma FailureAfterSwapEntersRecovery(d: Device, target: Version, run: seq<Action>, e: Device, stopped: bool)
    requires Inv(d) && Enabled(d, Start(target)) && OneAttempt(run)
    requires Reaches(Next(d, Start(target)), run, e) && e.place.FailedAfter?
    ensures var ended := StepOf(StepOf(e, stopped, Absent), true, Absent);
            && ended.place.Idle? && ended.disk == ended.mem == target && ended.sup.phase == S.Recovery
            && (stopped && ended.container.Present? ==> !ended.container.running)
            && (!stopped ==> ended.container == e.container)
  {
    StepKeepsInv(d, Start(target));
    AttemptStaysSince(d, target, Next(d, Start(target)), run, e);
  }

  // ---- The executor -------------------------------------------------------------------------

  /** What each call that may fail answers. */
  datatype Answers = Answers(pull: bool, look: bool, write: bool, rename: bool, stop: bool,
                             reconcile: bool, left: Container, remove: bool)

  datatype Outcome = Success | BeforeSwap | AfterSwap

  function PlaceOf(outcome: Outcome): Place {
    match outcome
    case Success => Succeeded
    case BeforeSwap => FailedBefore
    case AfterSwap => FailedAfter
  }

  lemma {:induction false} Join(d: Device, first: seq<Action>, e: Device, second: seq<Action>, f: Device)
    requires Reaches(d, first, e) && Reaches(e, second, f)
    ensures Reaches(d, first + second, f)
    decreases first
  {
    if first == [] {
      assert [] + second == second;
    } else {
      Join(Next(d, first[0]), first[1..], e, second, f);
      assert (first + second)[1..] == first[1..] + second;
    }
  }

  class Executor {
    var disk: Version
    var mem: Version
    var images: set<Version>
    var container: Container
    var sup: S.Sup

    constructor (disk: Version, images: set<Version>, container: Container, sup: S.Sup)
      ensures View(Idle, "", "") == Device(disk, disk, images, container, sup, Idle, "", "")
    {
      this.disk, this.mem, this.images := disk, disk, images;
      this.container, this.sup := container, sup;
    }

    ghost function View(place: Place, previous: Version, target: Version): Device
      reads this
    {
      Device(disk, mem, images, container, sup, place, previous, target)
    }

    /** A whole version change: claim, attempt, then abort or recovery, and the end. It is a run of the
        machine from idle to idle, and what it leaves is what the calls answered. */
    method Update(target: Version, answers: Answers, stopped: bool) returns (outcome: Outcome, ghost run: seq<Action>)
      requires sup.phase != S.Updating
      requires answers.look ==> target in images
      requires answers.reconcile ==> answers.pull || answers.look
      modifies this
      ensures Reaches(old(View(Idle, "", "")), run, View(Idle, old(mem), target))
      ensures outcome == Success <==>
              (answers.pull || answers.look) && answers.write && answers.rename && answers.reconcile
      ensures outcome == BeforeSwap <==> !((answers.pull || answers.look) && answers.write && answers.rename)
      ensures outcome == BeforeSwap ==> disk == old(disk) && mem == old(mem) && container == old(container)
      ensures outcome != BeforeSwap ==> disk == mem == target
      ensures outcome == Success ==> container == Present(target, true)
      ensures outcome == AfterSwap ==> container == if stopped then StoppedOf(answers.left) else answers.left
      ensures (sup.phase, sup.reason) ==
              match outcome
              case Success => (S.Healthy, "")
              case BeforeSwap => (old(sup.phase), old(sup.reason))
              case AfterSwap => (S.Recovery, "update failed")
      ensures sup.tokens == if outcome == BeforeSwap then (if old(sup.tokens) == 0 then 0 else old(sup.tokens) - 1)
              else old(sup.tokens) + (if answers.stop then 1 else 0) +
                   (if outcome == AfterSwap && stopped then 1 else 0)
    {
      ghost var idle, previous := View(Idle, "", ""), mem;
      Extend(idle, [], idle, Start(target));
      sup := S.Claimed(sup);
      run := [] + [Start(target)];
      ghost var more;
      outcome, more := Execute(target, answers);
      ghost var at := View(PlaceOf(outcome), previous, target);
      Join(idle, run, Next(idle, Start(target)), more, at);
      run := run + more;
      more := Finish(outcome, previous, target, stopped);
      Join(idle, run, at, more, View(Idle, previous, target));
      run := run + more;
    }

    /** What follows an attempt: nothing more, an abort, or recovery; and then the claim is released. */
    method Finish(outcome: Outcome, ghost previous: Version, ghost target: Version, stopped: bool)
      returns (ghost run: seq<Action>)
      modifies this`container, this`sup
      ensures Reaches(old(View(PlaceOf(outcome), previous, target)), run, View(Idle, previous, target))
      ensures container == if outcome == AfterSwap && stopped then StoppedOf(old(container)) else old(container)
      ensures sup == match outcome
                     case Success => S.Spent(old(sup))
                     case BeforeSwap => S.Spent(S.Aborted(old(sup)))
                     case AfterSwap =>
                       S.Spent((if stopped then S.Marked(old(sup)) else old(sup))
                               .(phase := S.Recovery, reason := "update failed"))
    {
      ghost var start := View(PlaceOf(outcome), previous, target);
      ghost var step := Step(stopped, Absent);
      Extend(start, [], start, step);
      run := [] + [step];
      match outcome {
        case Success =>
        case BeforeSwap => sup := S.Aborted(sup);
        case AfterSwap =>
          if stopped {
            container := StoppedOf(container);
            sup := S.Marked(sup);
          }
          sup := sup.(phase := S.Recovery, reason := "update failed");
      }
      if outcome != Success {
        ghost var at := View(Ending, previous, target);
        step := Step(true, Absent);
        Extend(start, run, at, step);
        run := run + [step];
      }
      sup := S.Spent(sup);
    }

    /** Whatever the calls answer, the effects of an attempt are, one by one, steps of the
        machine above, so a power cut between any two of them is one of its power cuts. */
    method Execute(target: Version, answers: Answers) returns (outcome: Outcome, ghost run: seq<Action>)
      requires answers.look ==> target in images
      requires answers.reconcile ==> answers.pull || answers.look
      modifies this
      ensures Reaches(old(View(Pulling, mem, target)), run, View(PlaceOf(outcome), old(mem), target))
      ensures OneAttempt(run)
      ensures outcome == Success <==>
              (answers.pull || answers.look) && answers.write && answers.rename && answers.reconcile
      ensures outcome == BeforeSwap <==> !((answers.pull || answers.look) && answers.write && answers.rename)
      ensures outcome == BeforeSwap ==>
              disk == old(disk) && mem == old(mem) && container == old(container) && sup == old(sup)
      ensures outcome != BeforeSwap ==>
              disk == mem == target && container == if answers.reconcile then Present(target, true) else answers.left
      ensures outcome != BeforeSwap ==> sup.tokens == old(sup.tokens) + if answers.stop then 1 else 0
      ensures outcome == Success ==> sup.phase == S.Healthy && sup.reason == ""
      ensures var held := old(images) + if answers.pull then {target} else {};
              images == if outcome == Success && answers.remove && old(mem) != target then held - {old(mem)} else held
    {
      var previous := mem;
      ghost var start := View(Pulling, previous, target);
      // 1. Pull; a failed pull is excused when the image is there already.
      var there;
      there, run := Pull(previous, target, answers);
      if !there {
        return BeforeSwap, run;
      }
      ghost var at := View(Recording, previous, target);
      // 2. Record the version, then swap.
      mem := target;
      ghost var step := Step(true, Absent);
      Extend(start, run, at, step);
      run, at := run + [step], Next(at, step);
      var saved;
      ghost var more;
      saved, more := Save(previous, target, answers);
      Join(start, run, at, more, View(if saved then Stopping else FailedBefore, previous, target));
      run, at := run + more, View(if saved then Stopping else FailedBefore, previous, target);
      if !saved {
        return BeforeSwap, run;
      }
      outcome, more := Swap(previous, target, answers);
      Join(start, run, at, more, View(PlaceOf(outcome), previous, target));
      run := run + more;
    }

    /** The image is pulled, or was there already. */
    method Pull(ghost previous: Version, target: Version, answers: Answers)
      returns (there: bool, ghost run: seq<Action>)
      requires answers.look ==> target in images
      modifies this`images
      ensures Reaches(old(View(Pulling, previous, target)), run,
                      View(if there then Recording else FailedBefore, previous, target))
      ensures OneAttempt(run) && there == (answers.pull || answers.look)
      ensures images == old(images) + if answers.pull then {target} else {}
    {
      ghost var start := View(Pulling, previous, target);
      ghost var step := Step(answers.pull, Absent);
      Extend(start, [], start, step);
      run := [] + [step];
      there := answers.pull;
      if answers.pull {
        images := images + {target};
      } else {
        ghost var at := Next(start, step);
        step := Step(answers.look, Absent);
        Extend(start, run, at, step);
        run := run + [step];
        there := answers.look;
      }
    }

    /** The spec file is replaced by a rename, or not at all. */
    method Save(previous: Version, target: Version, answers: Answers) returns (ok: bool, ghost run: seq<Action>)
      modifies this`disk, this`mem
      ensures Reaches(old(View(Writing, previous, target)), run,
                      View(if ok then Stopping else FailedBefore, previous, target))
      ensures OneAttempt(run)
      ensures ok == (answers.write && answers.rename)
      ensures if ok then mem == disk == old(mem) else mem == previous && disk == old(disk)
    {
      ghost var start := View(Writing, previous, target);
      ghost var step := Step(answers.write, Absent);
      Extend(start, [], start, step);
      run := [] + [step];
      ok := answers.write;
      if ok {
        ghost var at := Next(start, step);
        step := Step(answers.rename, Absent);
        Extend(start, run, at, step);
        run := run + [step];
        ok := answers.rename;
      }
      if ok {
        disk := mem;
      } else {
        mem := previous;
      }
    }

    /** Stop, reconcile, and only then retire the old image. */
    method Swap(previous: Version, target: Version, answers: Answers) returns (outcome: Outcome, ghost run: seq<Action>)
      requires mem == target && (answers.reconcile ==> target in images)
      modifies this`container, this`sup, this`images
      ensures Reaches(old(View(Stopping, previous, target)), run, View(PlaceOf(outcome), previous, target))
      ensures OneAttempt(run)
      ensures outcome == if answers.reconcile then Success else AfterSwap
      ensures container == if answers.reconcile then Present(target, true) else answers.left
      ensures sup.tokens == old(sup.tokens) + if answers.stop then 1 else 0
      ensures outcome == Success ==> sup.phase == S.Healthy && sup.reason == ""
      ensures images == if outcome == Success && answers.remove && previous != target then old(images) - {previous}
                        else old(images)
    {
      ghost var start := View(Stopping, previous, target);
      ghost var step := Step(answers.stop, Absent);
      Extend(start, [], start, step);
      run := [] + [step];
      if answers.stop {
        container := StoppedOf(container);
        sup := S.Marked(sup);
      }
      ghost var at := View(Reconciling, previous, target);
      step := Step(answers.reconcile, answers.left);
      Extend(start, run, at, step);
      run := run + [step];
      if !answers.reconcile {
        container := answers.left;
        return AfterSwap, run;
      }
      container := Present(mem, true);
      sup := sup.(phase := S.Healthy, reason := "");
      at := View(Retiring, previous, target);
      step := Step(answers.remove, Absent);
      Extend(start, run, at, step);
      run := run + [step];
      if answers.remove && previous != target {
        images := images - {previous};
      }
      outcome := Success;
    }
  }
}
