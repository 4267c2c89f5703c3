/** The two journal variants, compared over all their interleavings. */
module VariantsAgree {
  import opened ImageModel
  import opened JournalRuns
  import LF = LockFreeJournal
  import MX = MutexJournal

  /** The forces and releases of a history, each with the number of writes applied before it. */
  function Placed(log: seq<Op>): seq<(nat, Op)> {
    if log == [] then []
    else
      var before, last := log[..|log| - 1], log[|log| - 1];
      Placed(before) + if last.Write? then [] else [(|Writes(before)|, last)]
  }

  lemma {:induction false} PlacedAmongWrites(log: seq<Op>)
    ensures forall i :: 0 <= i < |Placed(log)| ==> Placed(log)[i].0 <= |Writes(log)|
  {
    if log != [] {
      PlacedAmongWrites(log[..|log| - 1]);
    }
  }

  /** Taking the last step off a history. */
  lemma LastStep(x: seq<Op>)
    requires x != []
    ensures var before, last := x[..|x| - 1], x[|x| - 1];
            if last.Write? then
              Writes(x) == Writes(before) + [last.entry] && Placed(x) == Placed(before)
            else
              Writes(x) == Writes(before) && Placed(x) == Placed(before) + [(|Writes(x)|, last)]
  {
  }

  /** Two histories with the same writes and placed forces end alike: a force that comes last is
      placed after all the writes, and one that a write follows is not. */
  lemma EndAlike(x: seq<Op>, y: seq<Op>)
    requires x != [] && y != [] && Writes(x) == Writes(y) && Placed(x) == Placed(y)
    ensures x[|x| - 1].Write? <==> y[|y| - 1].Write?
  {
    LastStep(x);
    LastStep(y);
    PlacedAmongWrites(x[..|x| - 1]);
    PlacedAmongWrites(y[..|y| - 1]);
  }

  lemma SameWithoutTheLast<T>(a: seq<T>, b: seq<T>, e: T, f: T)
    requires a + [e] == b + [f]
    ensures a == b && e == f
  {
    assert a == (a + [e])[..|a|] && b == (b + [f])[..|b|];
    assert (a + [e])[|a|] == e && (b + [f])[|b|] == f;
  }

  lemma SameBefore(x: seq<Op>, y: seq<Op>)
    requires x != [] && y != [] && Writes(x) == Writes(y) && Placed(x) == Placed(y)
    ensures Writes(x[..|x| - 1]) == Writes(y[..|y| - 1]) && Placed(x[..|x| - 1]) == Placed(y[..|y| - 1])
    ensures x[|x| - 1] == y[|y| - 1]
  {
    var x1, y1, p, q := x[..|x| - 1], y[..|y| - 1], x[|x| - 1], y[|y| - 1];
    EndAlike(x, y);
    LastStep(x);
    LastStep(y);
    if p.Write? {
      SameWithoutTheLast(Writes(x1), Writes(y1), p.entry, q.entry);
    } else {
      SameWithoutTheLast(Placed(x1), Placed(y1), (|Writes(x)|, p), (|Writes(y)|, q));
    }
  }

  /** Its writes and its placed forces make up a history. */
  lemma {:induction false} HistoryIsDetermined(x: seq<Op>, y: seq<Op>)
    requires Writes(x) == Writes(y) && Placed(x) == Placed(y)
    ensures x == y
  {
    if x != [] && y != [] {
      SameBefore(x, y);
      HistoryIsDetermined(x[..|x| - 1], y[..|y| - 1]);
      assert x == x[..|x| - 1] + [x[|x| - 1]] && y == y[..|y| - 1] + [y[|y| - 1]];
    } else if x != [] {
      LastStep(x);
    } else if y != [] {
      LastStep(y);
    }
  }

  /** For the same adds in the same order, with the same forces and releases at the same places
      among them, both variants leave the same image once both are drained, however their
      producers, drains and flushes interleaved. The adds compared are those the lock-free
      variant accepted. */
  lemma SameAddsSameImage(core: Core,
                          a: LF.State, aSteps: seq<LF.Action>, a': LF.State,
                          b: MX.State, bSteps: seq<MX.Action>, b': MX.State)
    requires LF.Init(a, core) && LF.Reaches(a, aSteps, a')
    requires MX.Init(b, core) && MX.Reaches(b, bSteps, b')
    requires a'.consumer.Parked? && LF.Raw(a') == 0 && b'.count == 0
    requires a'.accepted == b'.stored && Placed(a'.log) == Placed(b'.log)
    ensures a'.core == b'.core
    ensures OnlyWrites(a'.log) ==> a'.core == ApplyAll(core, a'.accepted)
  {
    LF.AppliedOnceInClaimOrder(a, core, aSteps, a');
    LF.NothingIsLost(a, core, aSteps, a');
    MX.StoredIsAppliedInOrder(b, core, bSteps, b');
    HistoryIsDetermined(a'.log, b'.log);
    if OnlyWrites(a'.log) {
      WritesOnlyIsOneDrain(core, a'.log);
    }
  }

  /** The two drains leave every slot the same. */
  ghost predicate SameLastValues(core: Core, x: seq<Entry>, y: seq<Entry>) {
    forall s: Slot :: s in core.cells && s !in core.forced ==>
      LastValue(x, s, core.cells[s]) == LastValue(y, s, core.cells[s])
  }

  lemma SameImageFromLastValues(core: Core, x: seq<Entry>, y: seq<Entry>)
    ensures ApplyAll(core, x) == ApplyAll(core, y) <==> SameLastValues(core, x, y)
  {
    ApplyAllFrame(core, x);
    ApplyAllFrame(core, y);
    forall s | s in core.cells
      ensures s in ApplyAll(core, x).cells && s in ApplyAll(core, y).cells
      ensures ApplyAll(core, x).cells[s] == ApplyAll(core, y).cells[s] <==>
              s in core.forced || LastValue(x, s, core.cells[s]) == LastValue(y, s, core.cells[s])
    {
      LastWriterWins(core, x, s);
      LastWriterWins(core, y, s);
    }
    if SameLastValues(core, x, y) {
      assert ApplyAll(core, x).cells == ApplyAll(core, y).cells;
    }
  }

  /** The lock-free variant refuses adds, the mutex variant never does. For the same adds, refused
      ones included, the images are the same exactly when the refused adds change no slot's last
      value; they are when no more than a bank's worth were made between any two flips. */
  lemma SameImageExactlyWhen(core: Core,
                             a: LF.State, aSteps: seq<LF.Action>, a': LF.State,
                             b: MX.State, bSteps: seq<MX.Action>, b': MX.State)
    requires LF.Init(a, core) && LF.Reaches(a, aSteps, a')
    requires MX.Init(b, core) && MX.Reaches(b, bSteps, b')
    requires a'.consumer.Parked? && LF.Raw(a') == 0 && b'.count == 0
    requires OnlyWrites(a'.log) && OnlyWrites(b'.log)
    requires LF.Claims(aSteps) == b'.stored
    ensures a'.core == b'.core <==> SameLastValues(core, a'.accepted, LF.Claims(aSteps))
    ensures LF.Fits(aSteps, 0) ==> a'.core == b'.core
  {
    LF.AppliedOnceInClaimOrder(a, core, aSteps, a');
    LF.NothingIsLost(a, core, aSteps, a');
    LF.EveryAddIsAcceptedExactlyWhen(a, core, aSteps, a');
    MX.StoredIsAppliedInOrder(b, core, bSteps, b');
    WritesOnlyIsOneDrain(core, a'.log);
    WritesOnlyIsOneDrain(core, b'.log);
    SameImageFromLastValues(core, a'.accepted, b'.stored);
  }

  /** A bank's worth of writes of one value to one slot, then one write of another. */
  function FullBankThenOne(s: Slot, first: nat, last: nat): seq<Entry> {
    seq(JOURNAL_MAX_ENTRIES, i => Entry(s.kind, s.index, s.bit, first)) + [Entry(s.kind, s.index, s.bit, last)]
  }

  lemma LastValuesOfFullBankThenOne(core: Core, s: Slot, first: nat, last: nat)
    requires ValidCore(core) && s in core.cells
    ensures var adds := FullBankThenOne(s, first, last);
            && LastValue(adds[..JOURNAL_MAX_ENTRIES], s, core.cells[s]) == Narrow(s.kind, first)
            && LastValue(adds, s, core.cells[s]) == Narrow(s.kind, last)
  {
    var adds := FullBankThenOne(s, first, last);
    var n := JOURNAL_MAX_ENTRIES;
    var kept := adds[..n];
    assert adds == kept + [adds[n]] && kept == kept[..n - 1] + [kept[n - 1]];
    LastValueConcat(kept[..n - 1], [kept[n - 1]], s, core.cells[s]);
    LastValueConcat(kept, [adds[n]], s, core.cells[s]);
  }

  /** Past a full bank they differ: made in the same order by one thread of each variant, the
      lock-free one drops the newest add, so the slot keeps the older value, where the mutex
      variant applies all of them. */
  lemma OverflowKeepsTheOlderValue(core: Core, s: Slot, first: nat, last: nat)
    returns (aSteps: seq<LF.Action>, a': LF.State, bSteps: seq<MX.Action>, b': MX.State)
    requires ValidCore(core) && s in core.cells && s !in core.forced
    ensures LF.Reaches(FreshLockFree(core), aSteps, a') && MX.Reaches(FreshMutex(core), bSteps, b')
    ensures LF.Claims(aSteps) == b'.stored == FullBankThenOne(s, first, last)
    ensures a'.consumer.Parked? && LF.Raw(a') == 0 && b'.count == 0
    ensures s in a'.core.cells && a'.core.cells[s] == Narrow(s.kind, first)
    ensures s in b'.core.cells && b'.core.cells[s] == Narrow(s.kind, last)
  {
    var adds := FullBankThenOne(s, first, last);
    aSteps, a' := LockFreeRun(core, adds);
    bSteps, b' := MutexRun(core, adds);
    LF.AppliedOnceInClaimOrder(FreshLockFree(core), core, aSteps, a');
    LF.NothingIsLost(FreshLockFree(core), core, aSteps, a');
    MX.StoredIsAppliedInOrder(FreshMutex(core), core, bSteps, b');
    WritesOnlyIsOneDrain(core, a'.log);
    WritesOnlyIsOneDrain(core, b'.log);
    LastValuesOfFullBankThenOne(core, s, first, last);
    LastWriterWins(core, a'.accepted, s);
    LastWriterWins(core, adds, s);
  }
}
