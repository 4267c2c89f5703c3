/** The lock-free write journal: any number of producers claim, fill and publish
    slots of the active bank; one consumer flips the banks with a single exchange and
    drains the retired one. Each atomic access is one step, and a producer stores its
    entry field by field, so an entry may be half written at any moment. */
module LockFreeJournal {
  import opened ImageModel

  const COUNT_RANGE: nat := 0x8000_0000  // the low 31 bits of the control word

  /** The control word: the active bank in the top bit, claims since the flip below it. */
  datatype Word = Word(bank: nat, count: nat)

  function Pack(w: Word): nat {
    w.bank * COUNT_RANGE + w.count
  }

  function Unpack(n: nat): Word {
    Word(n / COUNT_RANGE, n % COUNT_RANGE)
  }

  /** Below 2^31 claims, adding one to the packed 32-bit word counts a claim and leaves
      the bank alone, so the steps below can treat the word as its two fields. */
  lemma FetchAddCountsOneClaim(w: Word)
    requires w.bank < 2 && w.count < 0x8000_0000
    ensures Pack(w) == 0x8000_0000 * w.bank + w.count && Unpack(Pack(w)) == w
    ensures w.count + 1 < 0x8000_0000 <==> Unpack((Pack(w) + 1) % 0x1_0000_0000) == w.(count := w.count + 1)
  {
  }

  datatype Bank = Bank(entries: seq<Entry>, published: seq<bool>)

  datatype Producer =
    | Idle
    | Filling(bank: nat, slot: nat, write: Entry, stored: nat)

  datatype Consumer =
    | Parked
    | Loaded(newBank: nat)
    | Draining(bank: nat, next: nat, count: nat)

  /** What one flip reports as dropped, and how many adds really returned -1. */
  datatype Report = Report(counted: nat, refused: nat)

  /** The shared words and banks, where every thread is, and the history of the run:
      the claims that were given a slot, the writes applied, everything done to the
      image, the adds that returned 0, and the adds refused since the last flip. */
  datatype State = State(
    control: Word,
    banks: seq<Bank>,
    producers: seq<Producer>,
    consumer: Consumer,
    core: Core,
    accepted: seq<Entry>,
    applied: seq<Entry>,
    log: seq<Op>,
    succeeded: nat,
    refused: nat,
    reports: seq<Report>)

  datatype Action =
    | Claim(p: nat, write: Entry)
    | Store(p: nat)
    | Publish(p: nat)
    | Load
    | Flip
    | DrainOne
    | Finish
    | UnderLock(op: Op)

  function Min(a: nat, b: nat): nat {
    if a <= b then a else b
  }

  function ActiveBank(s: State): nat { s.control.bank }

  function Raw(s: State): nat { s.control.count }

  /** Slots of the active bank that have been claimed. */
  function Live(s: State): nat { Min(Raw(s), JOURNAL_MAX_ENTRIES) }

  function StoreField(e: Entry, w: Entry, k: nat): Entry {
    if k == 0 then e.(kind := w.kind)
    else if k == 1 then e.(bit := w.bit)
    else if k == 2 then e.(index := w.index)
    else e.(value := w.value)
  }

  predicate Agrees(e: Entry, w: Entry, stored: nat) {
    && (stored > 0 ==> e.kind == w.kind)
    && (stored > 1 ==> e.bit == w.bit)
    && (stored > 2 ==> e.index == w.index)
    && (stored > 3 ==> e.value == w.value)
  }

  predicate Shaped(s: State) {
    && |s.banks| == 2
    && s.control.bank < 2 && s.control.count < COUNT_RANGE
    && (forall b :: 0 <= b < 2 ==>
          |s.banks[b].entries| == JOURNAL_MAX_ENTRIES == |s.banks[b].published|)
    && (forall p :: 0 <= p < |s.producers| && s.producers[p].Filling? ==>
          s.producers[p].bank < 2 && s.producers[p].slot < JOURNAL_MAX_ENTRIES && s.producers[p].stored <= 4)
    && (s.consumer.Loaded? ==> s.consumer.newBank < 2)
    && (s.consumer.Draining? ==>
          s.consumer.bank < 2 && s.consumer.next <= s.consumer.count <= JOURNAL_MAX_ENTRIES)
  }

  /** When a step can be taken. A claim stays clear of the bank bit: fewer than 2^31
      claims fall between two flips. The drain waits for a slot to be published. */
  predicate Enabled(s: State, a: Action)
    requires Shaped(s)
  {
    match a
    case Claim(p, _) => p < |s.producers| && s.producers[p].Idle? && Raw(s) + 1 < COUNT_RANGE
    case Store(p) => p < |s.producers| && s.producers[p].Filling? && s.producers[p].stored < 4
    case Publish(p) => p < |s.producers| && s.producers[p].Filling? && s.producers[p].stored == 4
    case Load => s.consumer.Parked? && Raw(s) != 0
    case Flip => s.consumer.Loaded?
    case DrainOne => s.consumer.Draining? && s.consumer.next < s.consumer.count
                     && s.banks[s.consumer.bank].published[s.consumer.next]
    case Finish => s.consumer.Draining? && s.consumer.next == s.consumer.count
    case UnderLock(op) => s.consumer.Parked? && !op.Write?
  }

  function Next(s: State, a: Action): State
    requires Shaped(s) && Enabled(s, a)
  {
    match a
    case Claim(p, w) =>
      var claimed := s.(control := s.control.(count := s.control.count + 1));
      if Raw(s) >= JOURNAL_MAX_ENTRIES then claimed.(refused := s.refused + 1)
      else claimed.(producers := s.producers[p := Filling(ActiveBank(s), Raw(s), w, 0)],
                    accepted := s.accepted + [w])
    case Store(p) =>
      var f := s.producers[p];
      var bank := s.banks[f.bank];
      var e := StoreField(bank.entries[f.slot], f.write, f.stored);
      s.(producers := s.producers[p := f.(stored := f.stored + 1)],
         banks := s.banks[f.bank := bank.(entries := bank.entries[f.slot := e])])
    case Publish(p) =>
      var f := s.producers[p];
      var bank := s.banks[f.bank];
      s.(producers := s.producers[p := Idle],
         banks := s.banks[f.bank := bank.(published := bank.published[f.slot := true])],
         succeeded := s.succeeded + 1)
    case Load => s.(consumer := Loaded(1 - ActiveBank(s)))
    case Flip =>
      s.(control := Word(s.consumer.newBank, 0),
         consumer := Draining(ActiveBank(s), 0, Live(s)),
         refused := 0,
         reports := s.reports + [Report(Raw(s) - Live(s), s.refused)])
    case DrainOne =>
      var bank := s.banks[s.consumer.bank];
      var e := bank.entries[s.consumer.next];
      s.(core := ApplyEntry(s.core, e),
         applied := s.applied + [e],
         log := s.log + [Write(e)],
         banks := s.banks[s.consumer.bank := bank.(published := bank.published[s.consumer.next := false])],
         consumer := s.consumer.(next := s.consumer.next + 1))
    case Finish => s.(consumer := Parked)
    case UnderLock(op) => s.(core := Apply(s.core, op), log := s.log + [op])
  }

  /** The journal as journal_init leaves it, over a given image. */
  ghost predicate Init(s: State, core: Core) {
    && Shaped(s) && s.control == Word(0, 0) && s.consumer.Parked? && s.core == core
    && (forall p :: 0 <= p < |s.producers| ==> s.producers[p].Idle?)
    && (forall b, j :: 0 <= b < 2 && 0 <= j < JOURNAL_MAX_ENTRIES ==> !s.banks[b].published[j])
    && s.accepted == [] && s.applied == [] && s.log == [] && s.succeeded == 0 && s.refused == 0 && s.reports == []
  }

  // ---- The invariant --------------------------------------------------------------

  /** Slots that hold, or are about to hold, a write not yet applied. */
  predicate Pending(s: State, b: nat, j: nat) {
    if b == ActiveBank(s) then j < Live(s)
    else s.consumer.Draining? && s.consumer.next <= j < s.consumer.count
  }

  /** Which claim, in claim order, a pending slot belongs to. */
  function Position(s: State, b: nat, j: nat): int {
    if b == ActiveBank(s) || !s.consumer.Draining? then |s.accepted| - Live(s) + j
    else |s.applied| + j - s.consumer.next
  }

  predicate Holds(s: State, b: nat, j: nat, w: Entry) {
    Pending(s, b, j) && 0 <= Position(s, b, j) < |s.accepted| && s.accepted[Position(s, b, j)] == w
  }

  predicate Owns(f: Producer, b: nat, j: nat) {
    f.Filling? && f.bank == b && f.slot == j
  }

  /** Applied writes are the first claims, and the rest are exactly the pending slots. */
  predicate Counted(s: State) {
    && |s.accepted| == |s.applied| + Live(s) +
         (if s.consumer.Draining? then s.consumer.count - s.consumer.next else 0)
    && s.applied <= s.accepted
    && (s.consumer.Draining? ==> s.consumer.bank == 1 - ActiveBank(s))
    && (s.consumer.Loaded? ==> s.consumer.newBank == 1 - ActiveBank(s))
    && s.refused == Raw(s) - Live(s)
    && (forall i :: 0 <= i < |s.reports| ==> s.reports[i].counted == s.reports[i].refused)
  }

  ghost predicate PublishedRight(s: State)
    requires Shaped(s)
  {
    forall b, j :: 0 <= b < 2 && 0 <= j < JOURNAL_MAX_ENTRIES && s.banks[b].published[j] ==>
      Holds(s, b, j, s.banks[b].entries[j])
  }

  ghost predicate FillingRight(s: State)
    requires Shaped(s)
  {
    forall p :: 0 <= p < |s.producers| && s.producers[p].Filling? ==>
      var f := s.producers[p];
      && Holds(s, f.bank, f.slot, f.write)
      && !s.banks[f.bank].published[f.slot]
      && Agrees(s.banks[f.bank].entries[f.slot], f.write, f.stored)
  }

  ghost predicate SlotsUnshared(s: State) {
    forall p, q :: 0 <= p < q < |s.producers| && s.producers[p].Filling? && s.producers[q].Filling? ==>
      s.producers[p].bank != s.producers[q].bank || s.producers[p].slot != s.producers[q].slot
  }

  ghost predicate Attended(s: State)
    requires Shaped(s)
  {
    forall b, j :: 0 <= b < 2 && 0 <= j < JOURNAL_MAX_ENTRIES && Pending(s, b, j) && !s.banks[b].published[j] ==>
      exists p :: 0 <= p < |s.producers| && Owns(s.producers[p], b, j)
  }

  ghost function InFlight(s: State): set<nat> {
    set p: nat | p < |s.producers| && s.producers[p].Filling?
  }

  /** The image is what the history makes of the initial one. */
  ghost predicate Faithful(s: State, core: Core) {
    s.core == Run(core, s.log) && s.applied == Writes(s.log)
  }

  ghost predicate Inv(s: State, core: Core) {
    && Shaped(s) && Counted(s)
    && PublishedRight(s) && FillingRight(s) && SlotsUnshared(s) && Attended(s)
    && Faithful(s, core)
    && |s.accepted| == s.succeeded + |InFlight(s)|
  }

  lemma InitEstablishes(s: State, core: Core)
    requires Init(s, core)
    ensures Inv(s, core)
  {
    assert InFlight(s) == {};
  }

  lemma AttendedCarries(s: State, s': State)
    requires Shaped(s) && Shaped(s') && |s.producers| == |s'.producers| && Attended(s)
    requires forall b, j | 0 <= b < 2 && 0 <= j < JOURNAL_MAX_ENTRIES ::
               Pending(s', b, j) && !s'.banks[b].published[j] ==> Pending(s, b, j) && !s.banks[b].published[j]
    requires forall p, b, j | 0 <= p < |s.producers| && 0 <= b < 2 && 0 <= j < JOURNAL_MAX_ENTRIES ::
               Owns(s.producers[p], b, j) && !s'.banks[b].published[j] ==> Owns(s'.producers[p], b, j)
    ensures Attended(s')
  {
    forall b, j | 0 <= b < 2 && 0 <= j < JOURNAL_MAX_ENTRIES && Pending(s', b, j) && !s'.banks[b].published[j]
      ensures exists q :: 0 <= q < |s'.producers| && Owns(s'.producers[q], b, j)
    {
      var q :| 0 <= q < |s.producers| && Owns(s.producers[q], b, j);
      assert Owns(s'.producers[q], b, j);
    }
  }

  /** The history and the pending slots are the same, so what slots hold is too. */
  predicate SamePending(s: State, s': State) {
    && s'.control == s.control && s'.consumer == s.consumer
    && s'.accepted == s.accepted && s'.applied == s.applied
  }

  lemma HoldsCarries(s: State, s': State)
    requires SamePending(s, s')
    ensures forall b, j :: Pending(s', b, j) <==> Pending(s, b, j)
    ensures forall b, j, w :: Holds(s', b, j, w) <==> Holds(s, b, j, w)
  {
  }

  /** A step that touches neither banks nor producers keeps what is said of them, as
      long as the pending slots and what they hold are the same. */
  lemma BanksUntouched(s: State, s': State)
    requires Shaped(s) && Shaped(s') && s'.banks == s.banks && s'.producers == s.producers
    requires PublishedRight(s) && FillingRight(s) && SlotsUnshared(s) && Attended(s)
    requires forall b, j | 0 <= b < 2 :: Pending(s', b, j) <==> Pending(s, b, j)
    requires forall b, j, x | 0 <= b < 2 :: Holds(s, b, j, x) ==> Holds(s', b, j, x)
    ensures PublishedRight(s') && FillingRight(s') && SlotsUnshared(s') && Attended(s')
    ensures InFlight(s') == InFlight(s)
  {
    forall b, j | 0 <= b < 2 && 0 <= j < JOURNAL_MAX_ENTRIES && Pending(s', b, j) && !s'.banks[b].published[j]
      ensures exists q :: 0 <= q < |s'.producers| && Owns(s'.producers[q], b, j)
    {
      assert Pending(s, b, j);
    }
  }

  lemma ClaimRefusedHolds(s: State, p: nat, w: Entry)
    requires Shaped(s) && Counted(s) && Enabled(s, Claim(p, w)) && Raw(s) >= JOURNAL_MAX_ENTRIES
    ensures var s' := Next(s, Claim(p, w));
            && Shaped(s') && Counted(s')
            && (forall b, j | 0 <= b < 2 :: Pending(s', b, j) <==> Pending(s, b, j))
            && (forall b, j, x | 0 <= b < 2 :: Holds(s, b, j, x) ==> Holds(s', b, j, x))
  {
  }

  lemma FlipHolds(s: State)
    requires Shaped(s) && Counted(s) && Enabled(s, Flip)
    ensures var s' := Next(s, Flip);
            && Shaped(s') && Counted(s')
            && (forall b, j | 0 <= b < 2 :: Pending(s', b, j) <==> Pending(s, b, j))
            && (forall b, j, x | 0 <= b < 2 :: Holds(s, b, j, x) ==> Holds(s', b, j, x))
  {
  }

  lemma ClaimGrantedHolds(s: State, p: nat, w: Entry)
    requires Shaped(s) && Counted(s) && Enabled(s, Claim(p, w)) && Raw(s) < JOURNAL_MAX_ENTRIES
    ensures var s' := Next(s, Claim(p, w));
            && (forall b, j | 0 <= b < 2 :: Pending(s', b, j) <==>
                  Pending(s, b, j) || (b == ActiveBank(s) && j == Raw(s)))
            && !Pending(s, ActiveBank(s), Raw(s))
            && Holds(s', ActiveBank(s), Raw(s), w)
            && (forall b, j, x | 0 <= b < 2 :: Holds(s, b, j, x) ==> Holds(s', b, j, x))
  {
    var s' := Next(s, Claim(p, w));
    forall b, j, x | 0 <= b < 2 && Holds(s, b, j, x) ensures Holds(s', b, j, x) {
      assert Position(s', b, j) == Position(s, b, j);
    }
  }

  lemma ClaimGrantedAttended(s: State, p: nat, w: Entry)
    requires Shaped(s) && Counted(s) && Attended(s) && Enabled(s, Claim(p, w)) && Raw(s) < JOURNAL_MAX_ENTRIES
    ensures Attended(Next(s, Claim(p, w)))
  {
    var s' := Next(s, Claim(p, w));
    var bank, slot := ActiveBank(s), Raw(s);
    ClaimGrantedHolds(s, p, w);
    forall b, j | 0 <= b < 2 && 0 <= j < JOURNAL_MAX_ENTRIES && Pending(s', b, j) && !s'.banks[b].published[j]
      ensures exists q :: 0 <= q < |s'.producers| && Owns(s'.producers[q], b, j)
    {
      if b == bank && j == slot {
        assert Owns(s'.producers[p], b, j);
      } else {
        var q :| 0 <= q < |s.producers| && Owns(s.producers[q], b, j);
        assert Owns(s'.producers[q], b, j);
      }
    }
  }

  lemma ClaimGrantedShape(s: State, p: nat, w: Entry)
    requires Shaped(s) && Counted(s) && Enabled(s, Claim(p, w)) && Raw(s) < JOURNAL_MAX_ENTRIES
    ensures Shaped(Next(s, Claim(p, w))) && Counted(Next(s, Claim(p, w)))
    ensures |InFlight(Next(s, Claim(p, w)))| == |InFlight(s)| + 1
  {
    assert InFlight(Next(s, Claim(p, w))) == InFlight(s) + {p};
  }

  lemma ClaimGrantedEntries(s: State, p: nat, w: Entry)
    requires Shaped(s) && Counted(s) && PublishedRight(s) && FillingRight(s) && SlotsUnshared(s)
    requires Enabled(s, Claim(p, w)) && Raw(s) < JOURNAL_MAX_ENTRIES
    ensures var s' := Next(s, Claim(p, w));
            Shaped(s') && PublishedRight(s') && FillingRight(s') && SlotsUnshared(s')
  {
    ClaimGrantedHolds(s, p, w);
    assert forall q :: 0 <= q < |s.producers| && s.producers[q].Filling? ==>
        Pending(s, s.producers[q].bank, s.producers[q].slot);
  }

  lemma ClaimGrantedPreserves(s: State, core: Core, p: nat, w: Entry)
    requires Inv(s, core) && Enabled(s, Claim(p, w)) && Raw(s) < JOURNAL_MAX_ENTRIES
    ensures Inv(Next(s, Claim(p, w)), core)
  {
    ClaimGrantedShape(s, p, w);
    ClaimGrantedEntries(s, p, w);
    ClaimGrantedAttended(s, p, w);
  }

  lemma StoreKeepsEntries(s: State, p: nat)
    requires Shaped(s) && PublishedRight(s) && FillingRight(s) && SlotsUnshared(s) && Enabled(s, Store(p))
    ensures PublishedRight(Next(s, Store(p))) && FillingRight(Next(s, Store(p)))
  {
    var s' := Next(s, Store(p));
    var f := s.producers[p];
    HoldsCarries(s, s');
    forall q | 0 <= q < |s'.producers| && s'.producers[q].Filling?
      ensures var g := s'.producers[q];
              && Holds(s', g.bank, g.slot, g.write)
              && !s'.banks[g.bank].published[g.slot]
              && Agrees(s'.banks[g.bank].entries[g.slot], g.write, g.stored)
    {
      if q != p {
        assert s.producers[q].bank != f.bank || s.producers[q].slot != f.slot;
      }
    }
  }

  lemma StoreAttended(s: State, p: nat)
    requires Shaped(s) && Attended(s) && Enabled(s, Store(p))
    ensures Attended(Next(s, Store(p)))
  {
    HoldsCarries(s, Next(s, Store(p)));
    AttendedCarries(s, Next(s, Store(p)));
  }

  lemma StoreShape(s: State, p: nat)
    requires Shaped(s) && Counted(s) && SlotsUnshared(s) && Enabled(s, Store(p))
    ensures var s' := Next(s, Store(p)); Shaped(s') && Counted(s') && SlotsUnshared(s')
    ensures |InFlight(Next(s, Store(p)))| == |InFlight(s)|
  {
    assert InFlight(Next(s, Store(p))) == InFlight(s);
  }

  lemma StorePreserves(s: State, core: Core, p: nat)
    requires Inv(s, core) && Enabled(s, Store(p))
    ensures Inv(Next(s, Store(p)), core)
  {
    StoreShape(s, p);
    StoreKeepsEntries(s, p);
    StoreAttended(s, p);
  }

  lemma PublishKeepsEntries(s: State, p: nat)
    requires Shaped(s) && PublishedRight(s) && FillingRight(s) && SlotsUnshared(s) && Enabled(s, Publish(p))
    ensures PublishedRight(Next(s, Publish(p))) && FillingRight(Next(s, Publish(p)))
  {
    var s' := Next(s, Publish(p));
    var f := s.producers[p];
    HoldsCarries(s, s');
    assert s.banks[f.bank].entries[f.slot] == f.write;
    forall q | 0 <= q < |s'.producers| && s'.producers[q].Filling?
      ensures !s'.banks[s'.producers[q].bank].published[s'.producers[q].slot]
    {
      assert s.producers[q].bank != f.bank || s.producers[q].slot != f.slot;
    }
  }

  lemma PublishAttended(s: State, p: nat)
    requires Shaped(s) && Attended(s) && Enabled(s, Publish(p))
    ensures Attended(Next(s, Publish(p)))
  {
    HoldsCarries(s, Next(s, Publish(p)));
    AttendedCarries(s, Next(s, Publish(p)));
  }

  lemma PublishShape(s: State, p: nat)
    requires Shaped(s) && Counted(s) && SlotsUnshared(s) && Enabled(s, Publish(p))
    ensures var s' := Next(s, Publish(p)); Shaped(s') && Counted(s') && SlotsUnshared(s')
    ensures |InFlight(Next(s, Publish(p)))| == |InFlight(s)| - 1
  {
    assert InFlight(Next(s, Publish(p))) == InFlight(s) - {p};
  }

  lemma PublishPreserves(s: State, core: Core, p: nat)
    requires Inv(s, core) && Enabled(s, Publish(p))
    ensures Inv(Next(s, Publish(p)), core)
  {
    PublishShape(s, p);
    PublishKeepsEntries(s, p);
    PublishAttended(s, p);
  }

  lemma DrainHolds(s: State)
    requires Shaped(s) && Counted(s) && PublishedRight(s) && Enabled(s, DrainOne)
    ensures var s' := Next(s, DrainOne);
            var r, i := s.consumer.bank, s.consumer.next;
            && Counted(s')
            && (forall b, j | 0 <= b < 2 :: Pending(s', b, j) <==> Pending(s, b, j) && !(b == r && j == i))
            && (forall b, j, x | 0 <= b < 2 :: Holds(s, b, j, x) && !(b == r && j == i) ==> Holds(s', b, j, x))
  {
    var s' := Next(s, DrainOne);
    var r, i := s.consumer.bank, s.consumer.next;
    assert Holds(s, r, i, s.banks[r].entries[i]) && Position(s, r, i) == |s.applied|;
    forall b, j, x | 0 <= b < 2 && Holds(s, b, j, x) && !(b == r && j == i) ensures Holds(s', b, j, x) {
      assert Position(s', b, j) == Position(s, b, j);
    }
  }

  lemma DrainKeepsEntries(s: State)
    requires Shaped(s) && Counted(s) && PublishedRight(s) && FillingRight(s) && Enabled(s, DrainOne)
    ensures Shaped(Next(s, DrainOne))
    ensures PublishedRight(Next(s, DrainOne)) && FillingRight(Next(s, DrainOne))
  {
    DrainHolds(s);
  }

  lemma DrainAttended(s: State)
    requires Shaped(s) && Counted(s) && PublishedRight(s) && Attended(s) && Enabled(s, DrainOne)
    ensures Attended(Next(s, DrainOne))
  {
    DrainHolds(s);
    AttendedCarries(s, Next(s, DrainOne));
  }

  lemma DrainPreserves(s: State, core: Core)
    requires Inv(s, core) && Enabled(s, DrainOne)
    ensures Inv(Next(s, DrainOne), core)
  {
    DrainHolds(s);
    DrainKeepsEntries(s);
    DrainAttended(s);
    LogGrows(core, s.log, Write(s.banks[s.consumer.bank].entries[s.consumer.next]));
    assert InFlight(Next(s, DrainOne)) == InFlight(s);
  }

  lemma ParkedStepHolds(s: State, s': State)
    requires Shaped(s) && Counted(s)
    requires s' == s.(core := s'.core, log := s'.log, consumer := s'.consumer)
    requires s.consumer.Draining? ==> s.consumer.next == s.consumer.count
    requires s'.consumer.Parked? || s'.consumer == Loaded(1 - ActiveBank(s))
    ensures && Shaped(s') && Counted(s')
            && (forall b, j | 0 <= b < 2 :: Pending(s', b, j) <==> Pending(s, b, j))
            && (forall b, j, x | 0 <= b < 2 :: Holds(s, b, j, x) ==> Holds(s', b, j, x))
  {
  }

  /** Every step of every thread keeps the invariant. */
  lemma StepPreserves(s: State, core: Core, a: Action)
    requires Inv(s, core) && Enabled(s, a)
    ensures Inv(Next(s, a), core)
  {
    match a {
      case Claim(p, w) =>
        if Raw(s) >= JOURNAL_MAX_ENTRIES {
          ClaimRefusedHolds(s, p, w);
          BanksUntouched(s, Next(s, a));
        } else {
          ClaimGrantedPreserves(s, core, p, w);
        }
      case Store(p) => StorePreserves(s, core, p);
      case Publish(p) => PublishPreserves(s, core, p);
      case Flip =>
        FlipHolds(s);
        BanksUntouched(s, Next(s, a));
      case DrainOne => DrainPreserves(s, core);
      case UnderLock(op) =>
        LogGrows(core, s.log, op);
        ParkedStepHolds(s, Next(s, a));
        BanksUntouched(s, Next(s, a));
      case _ =>
        ParkedStepHolds(s, Next(s, a));
        BanksUntouched(s, Next(s, a));
    }
  }

  // ---- Whole runs -------------------------------------------------------------------

  /** A schedule every step of which can be taken, from one state to another. */
  ghost predicate Reaches(s: State, schedule: seq<Action>, t: State)
    decreases schedule
  {
    if schedule == [] then s == t
    else Shaped(s) && Enabled(s, schedule[0]) && Reaches(Next(s, schedule[0]), schedule[1..], t)
  }

  lemma {:induction false} InvariantHolds(s: State, core: Core, schedule: seq<Action>, t: State)
    requires Inv(s, core) && Reaches(s, schedule, t)
    ensures Inv(t, core)
    decreases schedule
  {
    if schedule != [] {
      StepPreserves(s, core, schedule[0]);
      InvariantHolds(Next(s, schedule[0]), core, schedule[1..], t);
    }
  }

  /** At every moment of every run the image is the result of the first accepted
      claims, each once and in claim order, among the forces made under the lock. */
  lemma AppliedOnceInClaimOrder(s: State, core: Core, schedule: seq<Action>, t: State)
    requires Init(s, core) && Reaches(s, schedule, t)
    ensures t.core == Run(core, t.log) && t.applied == Writes(t.log)
    ensures t.applied <= t.accepted
  {
    InitEstablishes(s, core);
    InvariantHolds(s, core, schedule, t);
  }

  /** When all producers have returned and a drain has finished with nothing claimed
      since, every add that returned 0 has been applied, and nothing else has. */
  lemma NothingIsLost(s: State, core: Core, schedule: seq<Action>, t: State)
    requires Init(s, core) && Reaches(s, schedule, t)
    requires t.consumer.Parked? && Raw(t) == 0
    ensures t.applied == Writes(t.log) == t.accepted
    ensures (forall p :: 0 <= p < |t.producers| ==> t.producers[p].Idle?) ==> |t.accepted| == t.succeeded
  {
    InitEstablishes(s, core);
    InvariantHolds(s, core, schedule, t);
    if forall p :: 0 <= p < |t.producers| ==> t.producers[p].Idle? {
      assert InFlight(t) == {};
    }
  }

  // ---- Claims against capacity ---------------------------------------------------------

  /** Every add of a schedule, refused ones included, in claim order. */
  function Claims(schedule: seq<Action>): seq<Entry> {
    if schedule == [] then []
    else (if schedule[0].Claim? then [schedule[0].write] else []) + Claims(schedule[1..])
  }

  /** At most a bank's worth of claims between two flips, when n have been made already. */
  predicate Fits(schedule: seq<Action>, n: nat) {
    n <= 40960 &&
    (schedule != [] ==>
      Fits(schedule[1..], if schedule[0].Claim? then n + 1 else if schedule[0].Flip? then 0 else n))
  }

  /** A step counts a claim or starts over, and lets a claim in only below a full bank. */
  lemma StepCounts(s: State, a: Action)
    requires Shaped(s) && Enabled(s, a)
    ensures Raw(Next(s, a)) == if a.Claim? then Raw(s) + 1 else if a.Flip? then 0 else Raw(s)
    ensures Next(s, a).accepted ==
            s.accepted + if a.Claim? && Raw(s) < JOURNAL_MAX_ENTRIES then [a.write] else []
  {
  }

  lemma {:induction false} ClaimsThatFitAreAccepted(s: State, schedule: seq<Action>, t: State)
    requires Reaches(s, schedule, t) && Fits(schedule, Raw(s))
    ensures t.accepted == s.accepted + Claims(schedule)
    decreases schedule
  {
    if schedule != [] {
      var s1 := Next(s, schedule[0]);
      var mine := if schedule[0].Claim? then [schedule[0].write] else [];
      StepCounts(s, schedule[0]);
      assert s1.accepted == s.accepted + mine;
      ClaimsThatFitAreAccepted(s1, schedule[1..], t);
      assert t.accepted == s.accepted + (mine + Claims(schedule[1..]));
    }
  }

  /** One claim too many between flips, and fewer are accepted than were made. */
  lemma {:induction false} ClaimsThatDoNotFitAreRefused(s: State, schedule: seq<Action>, t: State)
    requires Reaches(s, schedule, t)
    ensures |t.accepted| <= |s.accepted| + |Claims(schedule)|
    ensures Raw(s) <= JOURNAL_MAX_ENTRIES && !Fits(schedule, Raw(s)) ==>
              |t.accepted| < |s.accepted| + |Claims(schedule)|
    decreases schedule
  {
    if schedule != [] {
      StepCounts(s, schedule[0]);
      ClaimsThatDoNotFitAreRefused(Next(s, schedule[0]), schedule[1..], t);
    }
  }

  /** Every add is accepted exactly when no more than a bank's worth fall between two flips. */
  lemma EveryAddIsAcceptedExactlyWhen(s: State, core: Core, schedule: seq<Action>, t: State)
    requires Init(s, core) && Reaches(s, schedule, t)
    ensures t.accepted == Claims(schedule) <==> Fits(schedule, 0)
  {
    if Fits(schedule, 0) {
      ClaimsThatFitAreAccepted(s, schedule, t);
    } else {
      ClaimsThatDoNotFitAreRefused(s, schedule, t);
    }
  }

  function Flips(schedule: seq<Action>): nat {
    if schedule == [] then 0 else (if schedule[0].Flip? then 1 else 0) + Flips(schedule[1..])
  }

  /** The sum of what the reports counted. */
  function Reported(reports: seq<Report>): nat {
    if reports == [] then 0 else Reported(reports[..|reports| - 1]) + reports[|reports| - 1].counted
  }

  lemma StepAccounts(s: State, a: Action)
    requires Shaped(s) && Enabled(s, a) && s.refused == Raw(s) - Live(s)
    ensures var u := Next(s, a);
            && Reported(u.reports) + u.refused + |u.accepted| ==
               Reported(s.reports) + s.refused + |s.accepted| + (if a.Claim? then 1 else 0)
            && |u.reports| == |s.reports| + (if a.Flip? then 1 else 0)
  {
    var u := Next(s, a);
    if a.Flip? {
      assert u.reports[..|u.reports| - 1] == s.reports;
    }
  }

  lemma {:induction false} RunAccounts(s: State, core: Core, schedule: seq<Action>, t: State)
    requires Inv(s, core) && Reaches(s, schedule, t)
    ensures Reported(t.reports) + t.refused + |t.accepted| ==
            Reported(s.reports) + s.refused + |s.accepted| + |Claims(schedule)|
    ensures |t.reports| == |s.reports| + Flips(schedule)
    decreases schedule
  {
    if schedule != [] {
      StepAccounts(s, schedule[0]);
      StepPreserves(s, core, schedule[0]);
      RunAccounts(Next(s, schedule[0]), core, schedule[1..], t);
    }
  }

  /** Every flip reports exactly the adds that returned -1 since the flip before, so that the reports
      and what is refused since the last one account for every add that was not accepted. */
  lemma OverflowIsReported(s: State, core: Core, schedule: seq<Action>, t: State)
    requires Init(s, core) && Reaches(s, schedule, t)
    ensures forall i :: 0 <= i < |t.reports| ==> t.reports[i].counted == t.reports[i].refused
    ensures |t.reports| == Flips(schedule)
    ensures Reported(t.reports) + t.refused + |t.accepted| == |Claims(schedule)|
    ensures t.refused == Raw(t) - Live(t)
  {
    InitEstablishes(s, core);
    InvariantHolds(s, core, schedule, t);
    RunAccounts(s, core, schedule, t);
  }

  /** The drain only ever waits for a producer that is between its claim and its
      publish of that very slot. */
  lemma DrainWaitsOnlyForAProducer(s: State, core: Core, schedule: seq<Action>, t: State)
    requires Init(s, core) && Reaches(s, schedule, t)
    requires Shaped(t) && t.consumer.Draining? && !Enabled(t, DrainOne) && !Enabled(t, Finish)
    ensures exists p :: 0 <= p < |t.producers| && Owns(t.producers[p], t.consumer.bank, t.consumer.next)
  {
    InitEstablishes(s, core);
    InvariantHolds(s, core, schedule, t);
    assert Pending(t, t.consumer.bank, t.consumer.next);
  }

  /** Two producers never write the same slot, and none writes a slot already published. */
  lemma NoSlotIsSharedOrOverwritten(s: State, core: Core, schedule: seq<Action>, t: State, p: nat, q: nat)
    requires Init(s, core) && Reaches(s, schedule, t)
    requires p < |t.producers| && q < |t.producers| && p != q
    requires t.producers[p].Filling? && t.producers[q].Filling?
    ensures t.producers[p].bank != t.producers[q].bank || t.producers[p].slot != t.producers[q].slot
    ensures Shaped(t) && !t.banks[t.producers[p].bank].published[t.producers[p].slot]
  {
    InitEstablishes(s, core);
    InvariantHolds(s, core, schedule, t);
  }
}
