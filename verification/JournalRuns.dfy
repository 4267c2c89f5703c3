/** Runs of the two journal variants: whatever the adds, each variant has a run in which one
    thread makes them one after the other and a drain follows. */
module JournalRuns {
  import opened ImageModel
  import LF = LockFreeJournal
  import MX = MutexJournal

  predicate OnlyWrites(log: seq<Op>) {
    forall i :: 0 <= i < |log| ==> log[i].Write?
  }

  const BLANK := Entry(0, 0, 0, 0)

  /** Both journals as their start-up leaves them over an image, with one thread. */
  function FreshLockFree(core: Core): (s: LF.State)
    ensures LF.Init(s, core)
  {
    var bank := LF.Bank(seq(JOURNAL_MAX_ENTRIES, _ => BLANK), seq(JOURNAL_MAX_ENTRIES, _ => false));
    LF.State(LF.Word(0, 0), [bank, bank], [LF.Idle], LF.Parked, core, [], [], [], 0, 0, [])
  }

  function FreshMutex(core: Core): (s: MX.State)
    ensures MX.Init(s, core)
  {
    MX.State(seq(JOURNAL_MAX_ENTRIES, _ => BLANK), 0, MX.Free, MX.Free, 0, [MX.Idle], core, [], [], [])
  }

  lemma HeadOff<T>(a: seq<T>, b: seq<T>)
    requires a != []
    ensures a + b != [] && (a + b)[0] == a[0] && (a + b)[1..] == a[1..] + b
  {
  }

  lemma Peeled<T>(done: seq<T>, es: seq<T>)
    requires es != []
    ensures [es[0]] + es[1..] == es && (done + [es[0]]) + es[1..] == done + es
  {
  }

  // ---- Lock-free -----------------------------------------------------------------------

  lemma {:induction false} ClaimsJoined(first: seq<LF.Action>, second: seq<LF.Action>)
    ensures LF.Claims(first + second) == LF.Claims(first) + LF.Claims(second)
  {
    if first == [] {
      assert first + second == second;
    } else {
      HeadOff(first, second);
      ClaimsJoined(first[1..], second);
      assert LF.Claims(first + second) ==
             (if first[0].Claim? then [first[0].write] else []) + (LF.Claims(first[1..]) + LF.Claims(second));
    }
  }

  lemma {:induction false} ReachesJoined(s: LF.State, first: seq<LF.Action>, u: LF.State,
                                         second: seq<LF.Action>, t: LF.State)
    requires LF.Reaches(s, first, u) && LF.Reaches(u, second, t)
    ensures LF.Reaches(s, first + second, t)
    decreases first
  {
    if first == [] {
      assert first + second == second;
    } else {
      HeadOff(first, second);
      ReachesJoined(LF.Next(s, first[0]), first[1..], u, second, t);
    }
  }

  lemma Joined(s: LF.State, first: seq<LF.Action>, u: LF.State, second: seq<LF.Action>, t: LF.State)
    requires LF.Reaches(s, first, u) && LF.Reaches(u, second, t)
    ensures LF.Reaches(s, first + second, t)
    ensures LF.Claims(first + second) == LF.Claims(first) + LF.Claims(second)
  {
    ReachesJoined(s, first, u, second, t);
    ClaimsJoined(first, second);
  }

  lemma Stepped(s: LF.State, core: Core, a: LF.Action)
    requires LF.Inv(s, core) && LF.Enabled(s, a)
    ensures LF.Inv(LF.Next(s, a), core) && LF.Reaches(s, [a], LF.Next(s, a))
    ensures LF.Claims([a]) == if a.Claim? then [a.write] else []
  {
    LF.StepPreserves(s, core, a);
  }

  /** One thread adds, and nothing else has changed. */
  predicate SameButBanks(s: LF.State, t: LF.State) {
    && t.control == s.control && t.consumer == s.consumer && t.accepted == s.accepted
    && t.log == s.log
  }

  /** Fills and publishes the slot it claimed. */
  lemma {:induction false} FinishAdd(s: LF.State, core: Core) returns (schedule: seq<LF.Action>, t: LF.State)
    requires LF.Inv(s, core) && |s.producers| == 1 && s.producers[0].Filling?
    ensures LF.Reaches(s, schedule, t) && LF.Inv(t, core) && LF.Claims(schedule) == []
    ensures t.producers == [LF.Idle] && SameButBanks(s, t)
    decreases 4 - s.producers[0].stored
  {
    if s.producers[0].stored < 4 {
      var s1 := LF.Next(s, LF.Store(0));
      Stepped(s, core, LF.Store(0));
      var late;
      late, t := FinishAdd(s1, core);
      Joined(s, [LF.Store(0)], s1, late, t);
      schedule := [LF.Store(0)] + late;
    } else {
      Stepped(s, core, LF.Publish(0));
      schedule, t := [LF.Publish(0)], LF.Next(s, LF.Publish(0));
    }
  }

  function Room(s: LF.State): nat {
    if LF.Raw(s) < JOURNAL_MAX_ENTRIES then JOURNAL_MAX_ENTRIES - LF.Raw(s) else 0
  }

  /** The adds that find a slot are the first ones. */
  function Kept(s: LF.State, es: seq<Entry>): seq<Entry> {
    es[..LF.Min(|es|, Room(s))]
  }

  ghost predicate Alone(s: LF.State, core: Core) {
    LF.Inv(s, core) && s.producers == [LF.Idle]
  }

  lemma KeptOneByOne(s: LF.State, es: seq<Entry>, s1: LF.State)
    requires es != [] && LF.Raw(s1) == LF.Raw(s) + 1
    ensures (s.accepted + Kept(s, [es[0]])) + Kept(s1, es[1..]) == s.accepted + Kept(s, es)
  {
    assert Kept(s, es) == Kept(s, [es[0]]) + Kept(s1, es[1..]);
  }

  lemma AddOne(s: LF.State, core: Core, w: Entry) returns (schedule: seq<LF.Action>, t: LF.State)
    requires Alone(s, core) && LF.Raw(s) + 1 < LF.COUNT_RANGE
    ensures LF.Reaches(s, schedule, t) && Alone(t, core) && LF.Claims(schedule) == [w]
    ensures t.control == s.control.(count := LF.Raw(s) + 1) && t.consumer == s.consumer && t.log == s.log
    ensures t.accepted == s.accepted + Kept(s, [w])
  {
    var s1 := LF.Next(s, LF.Claim(0, w));
    Stepped(s, core, LF.Claim(0, w));
    if LF.Raw(s) >= JOURNAL_MAX_ENTRIES {
      schedule, t := [LF.Claim(0, w)], s1;
    } else {
      var late;
      late, t := FinishAdd(s1, core);
      Joined(s, [LF.Claim(0, w)], s1, late, t);
      schedule := [LF.Claim(0, w)] + late;
    }
  }

  lemma {:induction false} AddEach(s: LF.State, core: Core, es: seq<Entry>)
    returns (schedule: seq<LF.Action>, t: LF.State)
    requires Alone(s, core) && LF.Raw(s) + |es| < LF.COUNT_RANGE
    ensures LF.Reaches(s, schedule, t) && Alone(t, core) && LF.Claims(schedule) == es
    ensures t.control == s.control.(count := LF.Raw(s) + |es|) && t.consumer == s.consumer && t.log == s.log
    ensures t.accepted == s.accepted + Kept(s, es)
    decreases es
  {
    if es == [] {
      schedule, t := [], s;
    } else {
      var one, s1 := AddOne(s, core, es[0]);
      var late;
      late, t := AddEach(s1, core, es[1..]);
      Joined(s, one, s1, late, t);
      schedule := one + late;
      KeptOneByOne(s, es, s1);
      Peeled([], es);
    }
  }

  /** With no add in progress every slot the drain comes to is published. */
  lemma DrainIsNotBlocked(s: LF.State, core: Core)
    requires Alone(s, core) && s.consumer.Draining? && s.consumer.next < s.consumer.count
    ensures LF.Enabled(s, LF.DrainOne)
  {
    var b, j := s.consumer.bank, s.consumer.next;
    assert LF.Pending(s, b, j);
    assert !LF.Owns(s.producers[0], b, j);
  }

  lemma {:induction false} DrainEach(s: LF.State, core: Core) returns (schedule: seq<LF.Action>, t: LF.State)
    requires Alone(s, core) && s.consumer.Draining? && OnlyWrites(s.log)
    ensures LF.Reaches(s, schedule, t) && Alone(t, core) && LF.Claims(schedule) == []
    ensures t.consumer.Parked? && t.control == s.control && t.accepted == s.accepted && OnlyWrites(t.log)
    decreases s.consumer.count - s.consumer.next
  {
    if s.consumer.next < s.consumer.count {
      DrainIsNotBlocked(s, core);
      var s1 := LF.Next(s, LF.DrainOne);
      Stepped(s, core, LF.DrainOne);
      var late;
      late, t := DrainEach(s1, core);
      Joined(s, [LF.DrainOne], s1, late, t);
      schedule := [LF.DrainOne] + late;
    } else {
      Stepped(s, core, LF.Finish);
      schedule, t := [LF.Finish], LF.Next(s, LF.Finish);
    }
  }

  lemma FlipAndDrain(s: LF.State, core: Core) returns (schedule: seq<LF.Action>, t: LF.State)
    requires Alone(s, core) && s.consumer.Parked? && LF.Raw(s) > 0 && OnlyWrites(s.log)
    ensures LF.Reaches(s, schedule, t) && Alone(t, core) && LF.Claims(schedule) == []
    ensures t.consumer.Parked? && LF.Raw(t) == 0 && t.accepted == s.accepted && OnlyWrites(t.log)
  {
    var s1 := LF.Next(s, LF.Load);
    Stepped(s, core, LF.Load);
    var s2 := LF.Next(s1, LF.Flip);
    Stepped(s1, core, LF.Flip);
    Joined(s, [LF.Load], s1, [LF.Flip], s2);
    var late;
    late, t := DrainEach(s2, core);
    Joined(s, [LF.Load] + [LF.Flip], s2, late, t);
    schedule := ([LF.Load] + [LF.Flip]) + late;
  }

  /** One producer, all the adds, one drain: a bank's worth is kept. */
  lemma LockFreeRun(core: Core, es: seq<Entry>) returns (schedule: seq<LF.Action>, t: LF.State)
    requires 0 < |es| < LF.COUNT_RANGE
    ensures LF.Reaches(FreshLockFree(core), schedule, t) && LF.Claims(schedule) == es
    ensures t.consumer.Parked? && LF.Raw(t) == 0 && OnlyWrites(t.log)
    ensures t.accepted == es[..LF.Min(|es|, 40960)]
  {
    var s := FreshLockFree(core);
    LF.InitEstablishes(s, core);
    var adds, u := AddEach(s, core, es);
    var drain;
    drain, t := FlipAndDrain(u, core);
    Joined(s, adds, u, drain, t);
    schedule := adds + drain;
  }

  // ---- Behind a mutex ------------------------------------------------------------------

  lemma {:induction false} Chained(s: MX.State, first: seq<MX.Action>, u: MX.State,
                                   second: seq<MX.Action>, t: MX.State)
    requires MX.Reaches(s, first, u) && MX.Reaches(u, second, t)
    ensures MX.Reaches(s, first + second, t)
    decreases first
  {
    if first == [] {
      assert first + second == second;
    } else {
      HeadOff(first, second);
      Chained(MX.Next(s, first[0]), first[1..], u, second, t);
    }
  }

  lemma Advanced(s: MX.State, core: Core, a: MX.Action)
    requires MX.Inv(s, core) && MX.Enabled(s, a)
    ensures MX.Inv(MX.Next(s, a), core) && MX.Reaches(s, [a], MX.Next(s, a))
  {
    MX.StepPreserves(s, core, a);
  }

  /** The one thread of the machine, in the middle of something. */
  ghost predicate Single(s: MX.State, core: Core) {
    MX.Inv(s, core) && |s.threads| == 1 && OnlyWrites(s.log)
  }

  ghost predicate AtRest(s: MX.State, core: Core) {
    Single(s, core) && s.threads[0].Idle? && s.journal.Free? && s.image.Free?
  }

  /** The rest of a flush, up to the store it made room for. */
  lemma {:induction false} FinishFlush(s: MX.State, core: Core) returns (schedule: seq<MX.Action>, t: MX.State)
    requires Single(s, core) && s.threads[0].Flushing? && s.depth == 1
    ensures MX.Reaches(s, schedule, t) && Single(t, core)
    ensures t.threads[0] == MX.Storing(s.threads[0].write) && t.image.Free? && t.stored == s.stored
    decreases s.count - s.threads[0].next
  {
    var s1 := MX.Next(s, MX.Advance(0));
    Advanced(s, core, MX.Advance(0));
    if s.threads[0].next < s.count {
      var late;
      late, t := FinishFlush(s1, core);
      Chained(s, [MX.Advance(0)], s1, late, t);
      schedule := [MX.Advance(0)] + late;
    } else {
      schedule, t := [MX.Advance(0)], s1;
    }
  }

  lemma TwoSteps(s: MX.State, core: Core, a: MX.Action, b: MX.Action)
    requires MX.Inv(s, core) && MX.Enabled(s, a) && MX.Inv(MX.Next(s, a), core) && MX.Enabled(MX.Next(s, a), b)
    ensures MX.Inv(MX.Next(MX.Next(s, a), b), core)
    ensures MX.Reaches(s, [a] + [b], MX.Next(MX.Next(s, a), b))
  {
    Advanced(s, core, a);
    Advanced(MX.Next(s, a), core, b);
    Chained(s, [a], MX.Next(s, a), [b], MX.Next(MX.Next(s, a), b));
  }

  /** An adder that finds the ring full empties it before it stores. */
  lemma MakeRoom(s: MX.State, core: Core) returns (schedule: seq<MX.Action>, t: MX.State)
    requires Single(s, core) && s.threads[0].Holding? && s.image.Free? && s.depth == 0
    ensures MX.Reaches(s, schedule, t) && Single(t, core)
    ensures t.threads[0] == MX.Storing(s.threads[0].write) && t.image.Free? && t.stored == s.stored
  {
    var go := MX.Advance(0);
    var s1 := MX.Next(s, go);
    Advanced(s, core, go);
    if s.count < JOURNAL_MAX_ENTRIES {
      schedule, t := [go], s1;
    } else {
      Advanced(s1, core, go);
      var s3 := MX.Next(MX.Next(s1, go), go);
      TwoSteps(s1, core, go, go);
      Chained(s, [go], s1, [go] + [go], s3);
      var late;
      late, t := FinishFlush(s3, core);
      Chained(s, [go] + ([go] + [go]), s3, late, t);
      schedule := ([go] + ([go] + [go])) + late;
    }
  }

  lemma StoreOne(s: MX.State, core: Core, w: Entry) returns (schedule: seq<MX.Action>, t: MX.State)
    requires AtRest(s, core)
    ensures MX.Reaches(s, schedule, t) && AtRest(t, core) && t.stored == s.stored + [w]
  {
    var go := MX.Advance(0);
    Advanced(s, core, MX.BeginAdd(0, w));
    var s2 := MX.Next(MX.Next(s, MX.BeginAdd(0, w)), go);
    TwoSteps(s, core, MX.BeginAdd(0, w), go);
    var room, u := MakeRoom(s2, core);
    Chained(s, [MX.BeginAdd(0, w)] + [go], s2, room, u);
    t := MX.Next(u, go);
    Advanced(u, core, go);
    schedule := (([MX.BeginAdd(0, w)] + [go]) + room) + [go];
    Chained(s, ([MX.BeginAdd(0, w)] + [go]) + room, u, [go], t);
  }

  lemma {:induction false} StoreEach(s: MX.State, core: Core, es: seq<Entry>)
    returns (schedule: seq<MX.Action>, t: MX.State)
    requires AtRest(s, core)
    ensures MX.Reaches(s, schedule, t) && AtRest(t, core) && t.stored == s.stored + es
    decreases es
  {
    if es == [] {
      schedule, t := [], s;
    } else {
      var one, s1 := StoreOne(s, core, es[0]);
      var late;
      late, t := StoreEach(s1, core, es[1..]);
      Chained(s, one, s1, late, t);
      schedule := one + late;
      Peeled(s.stored, es);
    }
  }

  lemma {:induction false} FinishDrain(s: MX.State, core: Core) returns (schedule: seq<MX.Action>, t: MX.State)
    requires Single(s, core) && s.threads[0].DrainRun?
    ensures MX.Reaches(s, schedule, t) && Single(t, core)
    ensures t.threads[0].Idle? && t.count == 0 && t.stored == s.stored
    decreases s.count - s.threads[0].next
  {
    var s1 := MX.Next(s, MX.Advance(0));
    Advanced(s, core, MX.Advance(0));
    if s.threads[0].next < s.count {
      var late;
      late, t := FinishDrain(s1, core);
      Chained(s, [MX.Advance(0)], s1, late, t);
      schedule := [MX.Advance(0)] + late;
    } else {
      schedule, t := [MX.Advance(0)], s1;
    }
  }

  lemma LockAndDrain(s: MX.State, core: Core) returns (schedule: seq<MX.Action>, t: MX.State)
    requires AtRest(s, core)
    ensures MX.Reaches(s, schedule, t) && Single(t, core) && t.count == 0 && t.stored == s.stored
  {
    var s1 := MX.Next(s, MX.LockImage(0));
    Advanced(s, core, MX.LockImage(0));
    Advanced(s1, core, MX.BeginDrain(0));
    var s3 := MX.Next(MX.Next(s1, MX.BeginDrain(0)), MX.Advance(0));
    TwoSteps(s1, core, MX.BeginDrain(0), MX.Advance(0));
    Chained(s, [MX.LockImage(0)], s1, [MX.BeginDrain(0)] + [MX.Advance(0)], s3);
    var late;
    late, t := FinishDrain(s3, core);
    schedule := ([MX.LockImage(0)] + ([MX.BeginDrain(0)] + [MX.Advance(0)])) + late;
    Chained(s, [MX.LockImage(0)] + ([MX.BeginDrain(0)] + [MX.Advance(0)]), s3, late, t);
  }

  /** One adder, all the adds, flushing whenever the ring is full, then a drain: nothing is lost. */
  lemma MutexRun(core: Core, es: seq<Entry>) returns (schedule: seq<MX.Action>, t: MX.State)
    ensures MX.Reaches(FreshMutex(core), schedule, t)
    ensures t.count == 0 && OnlyWrites(t.log) && t.stored == es
  {
    var s := FreshMutex(core);
    var adds, u := StoreEach(s, core, es);
    var drain;
    drain, t := LockAndDrain(u, core);
    Chained(s, adds, u, drain, t);
    schedule := adds + drain;
  }
}
