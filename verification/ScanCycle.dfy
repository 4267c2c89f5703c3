/** One scan's exchange between the process image and the program's located
    variables: copy-in with a snapshot, copy-out of what changed since, the start-up
    seeding, and what is left in the image once the journal is drained. */
module ScanCycle {
  import opened ImageModel

  datatype Area = Input | Output | Memory
  datatype Size = Bit | Byte | Word | DWord | LWord

  /** A located variable; bound says its program storage exists. */
  datatype LocatedVar = LocatedVar(area: Area, size: Size, byteIndex: nat, bitIndex: nat, bound: bool)

  /** The table an address is stored in; %MB has none. */
  function ReadKind(v: LocatedVar): nat {
    match v.size
    case Bit => if v.area.Input? then BOOL_INPUT else if v.area.Output? then BOOL_OUTPUT else BOOL_MEMORY
    case Byte => if v.area.Input? then BYTE_INPUT else if v.area.Output? then BYTE_OUTPUT else JOURNAL_TYPE_COUNT
    case Word => if v.area.Input? then INT_INPUT else if v.area.Output? then INT_OUTPUT else INT_MEMORY
    case DWord => if v.area.Input? then DINT_INPUT else if v.area.Output? then DINT_OUTPUT else DINT_MEMORY
    case LWord => if v.area.Input? then LINT_INPUT else if v.area.Output? then LINT_OUTPUT else LINT_MEMORY
  }

  /** The table copy-out writes to; every byte variable goes to the output bytes. */
  function WriteKind(v: LocatedVar): nat {
    match v.size
    case Bit => if v.area.Output? then BOOL_OUTPUT else BOOL_MEMORY
    case Byte => BYTE_OUTPUT
    case Word => if v.area.Output? then INT_OUTPUT else INT_MEMORY
    case DWord => if v.area.Output? then DINT_OUTPUT else DINT_MEMORY
    case LWord => if v.area.Output? then LINT_OUTPUT else LINT_MEMORY
  }

  predicate IsMemoryByte(v: LocatedVar) {
    v.area.Memory? && v.size.Byte?
  }

  function SlotOfVar(v: LocatedVar): Slot {
    SlotOf(ReadKind(v), v.byteIndex, v.bitIndex)
  }

  function ImageRead(c: Core, v: LocatedVar): nat {
    if SlotOfVar(v) in c.cells then c.cells[SlotOfVar(v)] else 0
  }

  /** A value that the program's own storage for a variable can hold: a BOOL takes a whole byte. */
  ghost predicate FitsMember(v: LocatedVar, m: nat) {
    match v.size
    case Bit => m < 0x100
    case Byte => m < 0x100
    case Word => m < 0x1_0000
    case DWord => m < 0x1_0000_0000
    case LWord => m < 0x1_0000_0000_0000_0000
  }

  /** Values the program's own storage can hold; a BOOL member is a whole byte there. */
  function MemberModulus(v: LocatedVar): nat {
    if v.size.Bit? || v.size.Byte? then 0x100 else Modulus(ReadKind(v))
  }

  /** What a member holds after a copy-in of value x. */
  function MemberAfter(v: LocatedVar, earlier: nat, x: nat): nat {
    if !v.bound then earlier else if v.size.Bit? then x % 2 else x % MemberModulus(v)
  }

  /** What fits a member is what a copy-in of it leaves, but for a BOOL, which becomes 0 or 1. */
  lemma MembersKeepWhatFits(v: LocatedVar, earlier: nat, x: nat)
    requires v.bound && FitsMember(v, x) && !IsMemoryByte(v)
    ensures MemberAfter(v, earlier, x) == if v.size.Bit? then x % 2 else x
  {
  }

  /** The value is the one in the variable's slot of the image, or 0 when it has none. */
  ghost predicate Shows(c: Core, v: LocatedVar, m: nat) {
    if SlotOfVar(v) in c.cells then m == c.cells[SlotOfVar(v)] else m == 0
  }

  /** A copy-in shows a variable its slot, whatever the area: a slot's value is never cut. */
  lemma CopiedShows(lv: seq<LocatedVar>, c: Core)
    requires ValidCore(c)
    ensures forall v, earlier: nat :: v in lv && v.bound ==> Shows(c, v, MemberAfter(v, earlier, ImageRead(c, v)))
  {
    forall v, earlier: nat | v in lv && v.bound
      ensures Shows(c, v, MemberAfter(v, earlier, ImageRead(c, v)))
    {
      if SlotOfVar(v) in c.cells {
        assert c.cells[SlotOfVar(v)] < Modulus(SlotOfVar(v).kind);
      }
    }
  }

  function MemberRead(v: LocatedVar, m: nat): nat {
    if v.bound then m else 0
  }

  function OutEntry(v: LocatedVar, cur: nat): Entry {
    Entry(WriteKind(v), v.byteIndex, if v.size.Bit? then v.bitIndex else 0xFF,
          if v.size.Bit? then (if cur != 0 then 1 else 0) else cur)
  }

  /** The journal takes no bit that a BOOL row does not have. */
  predicate HasBit(v: LocatedVar) { v.size.Bit? ==> v.bitIndex < 8 }

  /** Whether copy-out publishes variable k. With no snapshot everything goes out. */
  predicate Publishes(v: LocatedVar, m: nat, snap: seq<nat>, k: nat) {
    !v.area.Input? && HasBit(v) && (k < |snap| ==> MemberRead(v, m) != snap[k])
  }

  /** The journal writes of a copy-out of [lo, hi), in order. An empty snapshot
      stands for one that could not be allocated: then every output is written back. */
  function OutWrites(lv: seq<LocatedVar>, m: seq<nat>, snap: seq<nat>, lo: nat, hi: nat): seq<Entry>
    requires lo <= hi <= |lv| == |m|
    decreases hi - lo
  {
    if lo == hi then []
    else
      (if Publishes(lv[lo], m[lo], snap, lo) then [OutEntry(lv[lo], MemberRead(lv[lo], m[lo]))] else [])
      + OutWrites(lv, m, snap, lo + 1, hi)
  }

  /** What a bank keeps of the writes made since the last flip. */
  function Capped(es: seq<Entry>): (r: seq<Entry>)
    ensures r <= es && |r| <= JOURNAL_MAX_ENTRIES
    ensures |r| < JOURNAL_MAX_ENTRIES || |es| <= JOURNAL_MAX_ENTRIES ==> r == es
  {
    if |es| <= JOURNAL_MAX_ENTRIES then es else es[..JOURNAL_MAX_ENTRIES]
  }

  lemma CappedGrows(es: seq<Entry>, more: seq<Entry>, e: Entry)
    requires |es| <= JOURNAL_MAX_ENTRIES
    ensures var kept := Capped(es + more);
            Capped(es + (more + [e])) == if |kept| < JOURNAL_MAX_ENTRIES then kept + [e] else kept
  {
    assert es + (more + [e]) == (es + more) + [e];
  }

  lemma {:induction false} OutWritesSplit(lv: seq<LocatedVar>, m: seq<nat>, snap: seq<nat>, lo: nat, mid: nat, hi: nat)
    requires lo <= mid <= hi <= |lv| == |m|
    ensures OutWrites(lv, m, snap, lo, hi) == OutWrites(lv, m, snap, lo, mid) + OutWrites(lv, m, snap, mid, hi)
    decreases mid - lo
  {
    if lo < mid {
      OutWritesSplit(lv, m, snap, lo + 1, mid, hi);
    }
  }

  lemma OneMoreOut(lv: seq<LocatedVar>, m: seq<nat>, snap: seq<nat>, lo: nat, k: nat, queued: seq<Entry>)
    requires lo <= k < |lv| == |m| && |queued| <= JOURNAL_MAX_ENTRIES
    ensures var kept := Capped(queued + OutWrites(lv, m, snap, lo, k));
            Capped(queued + OutWrites(lv, m, snap, lo, k + 1)) ==
            if Publishes(lv[k], m[k], snap, k) && |kept| < JOURNAL_MAX_ENTRIES
            then kept + [OutEntry(lv[k], MemberRead(lv[k], m[k]))] else kept
  {
    var writes := OutWrites(lv, m, snap, lo, k);
    OutWritesSplit(lv, m, snap, lo, k, k + 1);
    assert writes + [] == writes;
    CappedGrows(queued, writes, OutEntry(lv[k], MemberRead(lv[k], m[k])));
  }

  // ---- What a drain leaves --------------------------------------------------------

  /** Outputs of the range sit on pairwise distinct slots, and none of them is %MB. */
  ghost predicate DistinctOutputs(lv: seq<LocatedVar>, lo: nat, hi: nat)
    requires lo <= hi <= |lv|
  {
    && (forall i :: lo <= i < hi && !lv[i].area.Input? ==> !IsMemoryByte(lv[i]))
    && (forall i, j :: lo <= i < j < hi && !lv[i].area.Input? && !lv[j].area.Input? ==>
          SlotOfVar(lv[i]) != SlotOfVar(lv[j]))
  }

  /** The snapshot a copy-in over this image takes. */
  ghost predicate SnapshotOf(snap: seq<nat>, c: Core, lv: seq<LocatedVar>, lo: nat, hi: nat)
    requires lo <= hi <= |lv|
  {
    |snap| == |lv| && forall k :: lo <= k < hi ==> snap[k] == ImageRead(c, lv[k])
  }

  lemma OutEntryTargetsItsSlot(v: LocatedVar, cur: nat)
    requires !v.area.Input? && !IsMemoryByte(v)
    ensures Target(OutEntry(v, cur)) == SlotOfVar(v)
  {
  }

  lemma {:induction false} OtherSlotsUntouched(lv: seq<LocatedVar>, m: seq<nat>, snap: seq<nat>, lo: nat, hi: nat,
                                               s: Slot, before: nat)
    requires lo <= hi <= |lv| == |m| && DistinctOutputs(lv, lo, hi)
    requires forall k :: lo <= k < hi && Publishes(lv[k], m[k], snap, k) ==> SlotOfVar(lv[k]) != s
    ensures LastValue(OutWrites(lv, m, snap, lo, hi), s, before) == before
    decreases hi - lo
  {
    if lo < hi {
      var rest := OutWrites(lv, m, snap, lo + 1, hi);
      OtherSlotsUntouched(lv, m, snap, lo + 1, hi, s, before);
      if Publishes(lv[lo], m[lo], snap, lo) {
        var e := OutEntry(lv[lo], MemberRead(lv[lo], m[lo]));
        OutEntryTargetsItsSlot(lv[lo], MemberRead(lv[lo], m[lo]));
        assert ([e] + rest)[1..] == rest;
      } else {
        assert [] + rest == rest;
      }
    }
  }

  /** The value an output variable stands for in its table. */
  function OutValue(v: LocatedVar, m: nat): nat {
    var e := OutEntry(v, MemberRead(v, m));
    Narrow(e.kind, e.value)
  }

  /** A copy-out leaves an output's slot at the output's value when it is published,
      and alone when it is not. */
  lemma {:induction false} OutputLands(lv: seq<LocatedVar>, m: seq<nat>, snap: seq<nat>, lo: nat, hi: nat,
                                       k: nat, before: nat)
    requires lo <= k < hi <= |lv| == |m| && DistinctOutputs(lv, lo, hi) && !lv[k].area.Input?
    ensures LastValue(OutWrites(lv, m, snap, lo, hi), SlotOfVar(lv[k]), before) ==
            if Publishes(lv[k], m[k], snap, k) then OutValue(lv[k], m[k]) else before
    decreases hi - lo
  {
    var s := SlotOfVar(lv[k]);
    var rest := OutWrites(lv, m, snap, lo + 1, hi);
    if lo == k {
      if Publishes(lv[k], m[k], snap, k) {
        var e := OutEntry(lv[k], MemberRead(lv[k], m[k]));
        OutEntryTargetsItsSlot(lv[k], MemberRead(lv[k], m[k]));
        assert ([e] + rest)[1..] == rest;
        OtherSlotsUntouched(lv, m, snap, lo + 1, hi, s, OutValue(lv[k], m[k]));
      } else {
        assert [] + rest == rest;
        OtherSlotsUntouched(lv, m, snap, lo + 1, hi, s, before);
      }
    } else {
      OutputLands(lv, m, snap, lo + 1, hi, k, before);
      if Publishes(lv[lo], m[lo], snap, lo) {
        var e := OutEntry(lv[lo], MemberRead(lv[lo], m[lo]));
        OutEntryTargetsItsSlot(lv[lo], MemberRead(lv[lo], m[lo]));
        assert ([e] + rest)[1..] == rest;
      } else {
        assert [] + rest == rest;
      }
    }
  }

  lemma UnpublishedIsUnchanged(c: Core, v: LocatedVar, m: nat, snap: seq<nat>, k: nat)
    requires ValidCore(c) && !v.area.Input? && !IsMemoryByte(v) && SlotOfVar(v) in c.cells
    requires k < |snap| && snap[k] == ImageRead(c, v) && !Publishes(v, m, snap, k)
    ensures OutValue(v, m) == c.cells[SlotOfVar(v)]
  {
    var x := c.cells[SlotOfVar(v)];
    assert x < Modulus(SlotOfVar(v).kind);
  }

  lemma SameSlotEitherWay(c: Core, lv: seq<LocatedVar>, m: seq<nat>, snap: seq<nat>, lo: nat, hi: nat, s: Slot)
    requires ValidCore(c) && lo <= hi <= |lv| == |m| && s in c.cells
    requires DistinctOutputs(lv, lo, hi) && SnapshotOf(snap, c, lv, lo, hi)
    ensures LastValue(OutWrites(lv, m, snap, lo, hi), s, c.cells[s]) ==
            LastValue(OutWrites(lv, m, [], lo, hi), s, c.cells[s])
  {
    if k :| lo <= k < hi && !lv[k].area.Input? && SlotOfVar(lv[k]) == s {
      OutputLands(lv, m, snap, lo, hi, k, c.cells[s]);
      OutputLands(lv, m, [], lo, hi, k, c.cells[s]);
      if !Publishes(lv[k], m[k], snap, k) {
        UnpublishedIsUnchanged(c, lv[k], m[k], snap, k);
      }
    } else {
      OtherSlotsUntouched(lv, m, snap, lo, hi, s, c.cells[s]);
      OtherSlotsUntouched(lv, m, [], lo, hi, s, c.cells[s]);
    }
  }

  /** Whatever the program body did to its members, committing only what changed
      leaves the same image as writing back every output, forced slots included. */
  lemma DirtyDiffEqualsWriteBack(c: Core, lv: seq<LocatedVar>, m: seq<nat>, snap: seq<nat>, lo: nat, hi: nat)
    requires ValidCore(c) && lo <= hi <= |lv| == |m|
    requires DistinctOutputs(lv, lo, hi) && SnapshotOf(snap, c, lv, lo, hi)
    ensures ApplyAll(c, OutWrites(lv, m, snap, lo, hi)) == ApplyAll(c, OutWrites(lv, m, [], lo, hi))
  {
    var dirty, full := OutWrites(lv, m, snap, lo, hi), OutWrites(lv, m, [], lo, hi);
    ApplyAllFrame(c, dirty);
    ApplyAllFrame(c, full);
    forall s | s in c.cells
      ensures ApplyAll(c, dirty).cells[s] == ApplyAll(c, full).cells[s]
    {
      LastWriterWins(c, dirty, s);
      LastWriterWins(c, full, s);
      SameSlotEitherWay(c, lv, m, snap, lo, hi, s);
    }
    assert ApplyAll(c, dirty).cells == ApplyAll(c, full).cells;
  }

  lemma {:induction false} OutWritesBounded(lv: seq<LocatedVar>, m: seq<nat>, snap: seq<nat>, lo: nat, hi: nat)
    requires lo <= hi <= |lv| == |m|
    ensures |OutWrites(lv, m, snap, lo, hi)| <= hi - lo
    decreases hi - lo
  {
    if lo < hi {
      OutWritesBounded(lv, m, snap, lo + 1, hi);
    }
  }

  /** A member's value as its slot holds it: a BOOL is 1 for anything but 0. */
  function Seeded(v: LocatedVar, initial: nat): nat {
    if v.size.Bit? then (if initial != 0 then 1 else 0) else initial
  }

  lemma OutValueOfMember(v: LocatedVar, m: nat)
    requires !v.area.Input? && v.bound && FitsMember(v, m) && !IsMemoryByte(v)
    ensures OutValue(v, m) == Seeded(v, m)
  {
    match v.size
    case Bit =>
    case Byte =>
    case Word =>
    case DWord =>
    case LWord =>
  }

  /** Every output and memory variable of the range that has storage, an unforced slot and a value its
      member can hold is what its slot holds. */
  ghost predicate WrittenBack(c: Core, after: Core, lv: seq<LocatedVar>, m: seq<nat>, lo: nat, hi: nat)
    requires lo <= hi <= |lv| == |m|
  {
    forall k :: lo <= k < hi && !lv[k].area.Input? && lv[k].bound && HasBit(lv[k]) && FitsMember(lv[k], m[k])
      && SlotOfVar(lv[k]) in c.cells && SlotOfVar(lv[k]) !in c.forced
      ==> SlotOfVar(lv[k]) in after.cells && after.cells[SlotOfVar(lv[k])] == Seeded(lv[k], m[k])
  }

  lemma FullWriteBack(c: Core, lv: seq<LocatedVar>, m: seq<nat>, lo: nat, hi: nat)
    requires ValidCore(c) && lo <= hi <= |lv| == |m| && DistinctOutputs(lv, lo, hi)
    ensures WrittenBack(c, ApplyAll(c, OutWrites(lv, m, [], lo, hi)), lv, m, lo, hi)
  {
    forall k | lo <= k < hi && !lv[k].area.Input? && lv[k].bound && HasBit(lv[k]) && FitsMember(lv[k], m[k])
               && SlotOfVar(lv[k]) in c.cells && SlotOfVar(lv[k]) !in c.forced
      ensures SlotOfVar(lv[k]) in ApplyAll(c, OutWrites(lv, m, [], lo, hi)).cells
      ensures ApplyAll(c, OutWrites(lv, m, [], lo, hi)).cells[SlotOfVar(lv[k])] == Seeded(lv[k], m[k])
    {
      LastWriterWins(c, OutWrites(lv, m, [], lo, hi), SlotOfVar(lv[k]));
      OutputLands(lv, m, [], lo, hi, k, c.cells[SlotOfVar(lv[k])]);
      OutValueOfMember(lv[k], m[k]);
    }
  }

  // ---- The scan --------------------------------------------------------------------

  /** The located variables, their storage in the program, the snapshot (null if it could not be
      allocated), the image, and the writes waiting in the journal: at most a bank's worth, as the
      lock-free journal keeps them. */
  class Scan {
    const lv: seq<LocatedVar>
    const members: array<nat>
    const snapshot: array?<nat>
    var image: Core
    var journal: seq<Entry>

    ghost predicate Valid()
      reads this, members, snapshot
    {
      && members.Length == |lv| && |journal| <= JOURNAL_MAX_ENTRIES
      && (snapshot != null ==> snapshot.Length == |lv| && snapshot != members)
    }

    function Snap(): seq<nat>
      reads snapshot
    {
      if snapshot == null then [] else snapshot[..]
    }

    constructor (lv: seq<LocatedVar>, members: array<nat>, snapshot: array?<nat>, image: Core)
      requires members.Length == |lv|
      requires snapshot != null ==> snapshot.Length == |lv| && snapshot != members
      ensures Valid() && this.lv == lv && this.members == members && this.snapshot == snapshot
      ensures this.image == image && journal == []
    {
      this.lv, this.members, this.snapshot, this.image, journal := lv, members, snapshot, image, [];
    }

    /** The end of a located range, added in 32 bits and cut to the variables there are. */
    function End(offset: nat, count: nat): (e: nat)
      ensures e <= |lv| && (offset + count < 0x1_0000_0000 ==> e <= offset + count && e in {offset + count, |lv|})
      ensures 0x1_0000_0000 <= offset + count < 0x2_0000_0000 ==>
        e + 0x1_0000_0000 <= offset + count && e in {offset + count - 0x1_0000_0000, |lv|}
    {
      var end := (offset + count) % 0x1_0000_0000;
      if end > |lv| then |lv| else end
    }

    method CopyIn(offset: nat, count: nat)
      requires Valid()
      modifies members, snapshot
      ensures Valid()
      ensures forall k :: 0 <= k < |lv| ==>
        members[k] ==
        if offset <= k < End(offset, count) then MemberAfter(lv[k], old(members[k]), ImageRead(image, lv[k]))
        else old(members[k])
      ensures snapshot != null ==> forall k :: 0 <= k < |lv| ==>
        snapshot[k] == if offset <= k < End(offset, count) then ImageRead(image, lv[k]) else old(snapshot[k])
      ensures ValidCore(image) ==> forall k :: 0 <= k < |lv| && offset <= k < End(offset, count) ==>
        && (lv[k].bound ==> Shows(image, lv[k], members[k]))
        && (!lv[k].bound ==> members[k] == old(members[k]))
        && (snapshot != null ==> Shows(image, lv[k], snapshot[k]))
    {
      var end := End(offset, count);
      var k := offset;
      while k < end
        invariant Valid() && offset <= k
        invariant k <= end || k == offset
        invariant forall i :: 0 <= i < |lv| ==>
          members[i] == if offset <= i < k && i < end then MemberAfter(lv[i], old(members[i]), ImageRead(image, lv[i]))
                        else old(members[i])
        invariant snapshot != null ==> forall i :: 0 <= i < |lv| ==>
          snapshot[i] == if offset <= i < k && i < end then ImageRead(image, lv[i]) else old(snapshot[i])
      {
        var x := ImageRead(image, lv[k]);
        members[k] := MemberAfter(lv[k], members[k], x);
        if snapshot != null {
          snapshot[k] := x;
        }
        k := k + 1;
      }
      if ValidCore(image) {
        CopiedShows(lv, image);
      }
    }

    /** A claim past a full bank is refused, and copy-out does not look. */
    method Add(e: Entry)
      modifies this`journal
      ensures journal == if |old(journal)| < JOURNAL_MAX_ENTRIES then old(journal) + [e] else old(journal)
    {
      if |journal| < JOURNAL_MAX_ENTRIES {
        journal := journal + [e];
      }
    }

    method CopyOutOne(k: nat)
      requires Valid() && k < |lv|
      modifies this`journal, snapshot
      ensures Valid()
      ensures journal == if Publishes(lv[k], members[k], old(Snap()), k) && |old(journal)| < JOURNAL_MAX_ENTRIES
                         then old(journal) + [OutEntry(lv[k], MemberRead(lv[k], members[k]))] else old(journal)
      ensures snapshot != null ==> forall i :: 0 <= i < |lv| ==>
        snapshot[i] == if i == k && !lv[k].area.Input? then MemberRead(lv[k], members[k]) else old(snapshot[i])
    {
      if !lv[k].area.Input? {
        var cur := MemberRead(lv[k], members[k]);
        if snapshot == null || cur != snapshot[k] {
          if snapshot != null {
            snapshot[k] := cur;
          }
          if HasBit(lv[k]) {
            Add(OutEntry(lv[k], cur));
          }
        }
      }
    }

    /** The copy-out of [lo, k) is done, out of members m, a snapshot and a journal as they were. */
    ghost predicate CopiedOut(lo: nat, k: nat, m: seq<nat>, snap: seq<nat>, queued: seq<Entry>)
      requires lo <= k <= |lv| == |m| && |queued| <= JOURNAL_MAX_ENTRIES
      requires snapshot != null ==> |snap| == |lv| == snapshot.Length
      reads this, members, snapshot
    {
      && members[..] == m && journal == Capped(queued + OutWrites(lv, m, snap, lo, k))
      && (snapshot != null ==> forall i :: 0 <= i < |lv| ==>
            snapshot[i] == if lo <= i < k && !lv[i].area.Input? then MemberRead(lv[i], m[i]) else snap[i])
    }

    method CopyOutNext(lo: nat, k: nat, ghost m: seq<nat>, ghost snap: seq<nat>, ghost queued: seq<Entry>)
      requires Valid() && lo <= k < |lv| == |m| && |queued| <= JOURNAL_MAX_ENTRIES
      requires if snapshot == null then snap == [] else |snap| == |lv|
      requires CopiedOut(lo, k, m, snap, queued)
      modifies this`journal, snapshot
      ensures Valid() && CopiedOut(lo, k + 1, m, snap, queued)
    {
      OneMoreOut(lv, m, snap, lo, k, queued);
      assert Publishes(lv[k], m[k], Snap(), k) == Publishes(lv[k], m[k], snap, k);
      CopyOutOne(k);
    }

    /** The range that is left when it has been cut to the variables there are. */
    method CopyOutTo(lo: nat, hi: nat)
      requires Valid() && lo <= hi <= |lv|
      modifies this`journal, snapshot
      ensures Valid() && CopiedOut(lo, hi, members[..], old(Snap()), old(journal))
    {
      ghost var m, snap, queued := members[..], Snap(), journal;
      assert queued + OutWrites(lv, m, snap, lo, lo) == queued;
      for k := lo to hi
        invariant Valid() && CopiedOut(lo, k, m, snap, queued)
      {
        CopyOutNext(lo, k, m, snap, queued);
      }
    }

    method CopyOut(offset: nat, count: nat)
      requires Valid()
      modifies this`journal, snapshot
      ensures Valid()
      ensures var end := if offset < End(offset, count) then End(offset, count) else offset;
              end <= |lv| ==>
              journal == Capped(old(journal) + OutWrites(lv, members[..], old(Snap()), offset, end))
      ensures offset > |lv| ==> journal == old(journal)
      ensures snapshot != null ==> forall k :: 0 <= k < |lv| ==>
        snapshot[k] == if offset <= k < End(offset, count) && !lv[k].area.Input? then MemberRead(lv[k], members[k])
                       else old(snapshot[k])
    {
      if offset < End(offset, count) {
        CopyOutTo(offset, End(offset, count));
      }
    }

    /** Start-up: every output and memory member goes to the image, and the journal is drained. */
    method Seed()
      requires Valid() && |lv| < 0x1_0000_0000
      modifies this`journal, this`image, snapshot
      ensures Valid() && journal == []
      ensures image == ApplyAll(old(image), Capped(old(journal) + OutWrites(lv, members[..], old(Snap()), 0, |lv|)))
    {
      CopyOut(0, |lv|);
      image := ApplyAll(image, journal);
      journal := [];
    }

    /** One task's scan with nobody else writing: copy in, run a body that may set its members to
        anything, copy out. As long as the bank held what this queued, draining it gives the image
        a write-back of every output would give. */
    method RunScan(offset: nat, count: nat, body: seq<nat>)
      requires Valid() && ValidCore(image) && journal == [] && |body| == |lv|
      requires offset <= End(offset, count) && DistinctOutputs(lv, offset, End(offset, count))
      modifies this`journal, members, snapshot
      ensures Valid()
      ensures |journal| < JOURNAL_MAX_ENTRIES || End(offset, count) - offset <= JOURNAL_MAX_ENTRIES ==>
                && ApplyAll(image, journal) == ApplyAll(image, OutWrites(lv, body, [], offset, End(offset, count)))
                && WrittenBack(image, ApplyAll(image, journal), lv, body, offset, End(offset, count))
    {
      var end := End(offset, count);
      CopyIn(offset, count);
      forall k | 0 <= k < |lv| {
        members[k] := body[k];
      }
      assert members[..] == body;
      ghost var snap := Snap();
      if snapshot != null {
        DirtyDiffEqualsWriteBack(image, lv, body, snapshot[..], offset, end);
      }
      CopyOut(offset, count);
      assert members[..] == body;
      OutWritesBounded(lv, body, snap, offset, end);
      assert journal == Capped([] + OutWrites(lv, body, snap, offset, end));
      assert [] + OutWrites(lv, body, snap, offset, end) == OutWrites(lv, body, snap, offset, end);
      FullWriteBack(image, lv, body, offset, end);
    }
  }

  // ---- Other writers ----------------------------------------------------------------

  /** es is some shuffle of a and b that keeps the order of each. */
  ghost predicate Interleaves(es: seq<Entry>, a: seq<Entry>, b: seq<Entry>)
    decreases es
  {
    if es == [] then a == [] && b == []
    else
      || (a != [] && es[0] == a[0] && Interleaves(es[1..], a[1..], b))
      || (b != [] && es[0] == b[0] && Interleaves(es[1..], a, b[1..]))
  }

  lemma {:induction false} OnlyTheirWritesCount(es: seq<Entry>, a: seq<Entry>, b: seq<Entry>, s: Slot, before: nat)
    requires Interleaves(es, a, b)
    requires forall i :: 0 <= i < |a| ==> Target(a[i]) != s
    ensures LastValue(es, s, before) == LastValue(b, s, before)
    decreases es
  {
    if es != [] {
      if a != [] && es[0] == a[0] && Interleaves(es[1..], a[1..], b) {
        OnlyTheirWritesCount(es[1..], a[1..], b, s, before);
      } else {
        var now := if Target(b[0]) == s then Narrow(b[0].kind, b[0].value) else before;
        OnlyTheirWritesCount(es[1..], a, b[1..], s, now);
      }
    }
  }

  lemma {:induction false} OutWritesTargets(lv: seq<LocatedVar>, m: seq<nat>, snap: seq<nat>, lo: nat, hi: nat, i: nat)
    requires lo <= hi <= |lv| == |m| && i < |OutWrites(lv, m, snap, lo, hi)|
    ensures exists k :: lo <= k < hi && Publishes(lv[k], m[k], snap, k) &&
              OutWrites(lv, m, snap, lo, hi)[i] == OutEntry(lv[k], MemberRead(lv[k], m[k]))
    decreases hi - lo
  {
    if lo < hi {
      var first := if Publishes(lv[lo], m[lo], snap, lo) then 1 else 0;
      if i >= first {
        OutWritesTargets(lv, m, snap, lo + 1, hi, i - first);
      } else {
        assert OutWrites(lv, m, snap, lo, hi)[i] == OutEntry(lv[lo], MemberRead(lv[lo], m[lo]));
      }
    }
  }

  /** From a copy-in on, an output whose variable the body left alone is published only when there
      is no storage for it and the image held something. */
  lemma UntouchedIsPublishedExactlyWhen(c: Core, v: LocatedVar, earlier: nat, snap: seq<nat>, k: nat)
    requires ValidCore(c) && !v.area.Input? && k < |snap| && snap[k] == ImageRead(c, v)
    ensures Publishes(v, MemberAfter(v, earlier, ImageRead(c, v)), snap, k) <==> !v.bound && ImageRead(c, v) != 0
  {
    if SlotOfVar(v) in c.cells {
      assert c.cells[SlotOfVar(v)] < Modulus(SlotOfVar(v).kind);
    }
  }

  /** Whatever others write to the slot, and wherever among these writes, the slot ends with it. */
  ghost predicate OthersWin(d: Core, out: seq<Entry>, s: Slot)
    requires s in d.cells
  {
    forall external, drained :: Interleaves(drained, out, external) ==>
      && s in ApplyAll(d, drained).cells && s in ApplyAll(d, external).cells
      && ApplyAll(d, drained).cells[s] == ApplyAll(d, external).cells[s]
  }

  lemma UnpublishedSlotIsNoTarget(lv: seq<LocatedVar>, m: seq<nat>, snap: seq<nat>, lo: nat, hi: nat, k: nat,
                                  out: seq<Entry>)
    requires lo <= k < hi <= |lv| == |m| && DistinctOutputs(lv, lo, hi)
    requires !lv[k].area.Input? && !Publishes(lv[k], m[k], snap, k) && out == OutWrites(lv, m, snap, lo, hi)
    ensures forall i :: 0 <= i < |out| ==> Target(out[i]) != SlotOfVar(lv[k])
  {
    forall i | 0 <= i < |out| ensures Target(out[i]) != SlotOfVar(lv[k]) {
      OutWritesTargets(lv, m, snap, lo, hi, i);
      var j :| lo <= j < hi && Publishes(lv[j], m[j], snap, j) && out[i] == OutEntry(lv[j], MemberRead(lv[j], m[j]));
      OutEntryTargetsItsSlot(lv[j], MemberRead(lv[j], m[j]));
    }
  }

  lemma UnpublishedSlotIsLeftToOthers(d: Core, lv: seq<LocatedVar>, m: seq<nat>, snap: seq<nat>, lo: nat, hi: nat,
                                      k: nat, external: seq<Entry>, drained: seq<Entry>)
    requires lo <= k < hi <= |lv| == |m| && DistinctOutputs(lv, lo, hi)
    requires !lv[k].area.Input? && !Publishes(lv[k], m[k], snap, k) && SlotOfVar(lv[k]) in d.cells
    requires Interleaves(drained, OutWrites(lv, m, snap, lo, hi), external)
    ensures SlotOfVar(lv[k]) in ApplyAll(d, drained).cells && SlotOfVar(lv[k]) in ApplyAll(d, external).cells
    ensures ApplyAll(d, drained).cells[SlotOfVar(lv[k])] == ApplyAll(d, external).cells[SlotOfVar(lv[k])]
  {
    var s, out := SlotOfVar(lv[k]), OutWrites(lv, m, snap, lo, hi);
    UnpublishedSlotIsNoTarget(lv, m, snap, lo, hi, k, out);
    OnlyTheirWritesCount(drained, out, external, s, d.cells[s]);
    LastWriterWins(d, drained, s);
    LastWriterWins(d, external, s);
  }

  lemma {:induction false} OneAfterTheOther(first: seq<Entry>, second: seq<Entry>)
    ensures Interleaves(first + second, second, first)
    decreases |first| + |second|
  {
    var es := first + second;
    if first != [] {
      assert es[1..] == first[1..] + second;
      OneAfterTheOther(first[1..], second);
    } else if second != [] {
      assert es[1..] == first + second[1..];
      OneAfterTheOther(first, second[1..]);
    }
  }

  /** A published output takes the slot back from a write queued before it. */
  lemma PublishedSlotIsNotLeftToOthers(d: Core, lv: seq<LocatedVar>, m: seq<nat>, snap: seq<nat>, lo: nat, hi: nat,
                                       k: nat)
    requires lo <= k < hi <= |lv| == |m| && DistinctOutputs(lv, lo, hi)
    requires !lv[k].area.Input? && Publishes(lv[k], m[k], snap, k)
    requires SlotOfVar(lv[k]) in d.cells && SlotOfVar(lv[k]) !in d.forced
    ensures !OthersWin(d, OutWrites(lv, m, snap, lo, hi), SlotOfVar(lv[k]))
  {
    var s, out := SlotOfVar(lv[k]), OutWrites(lv, m, snap, lo, hi);
    var theirs := if OutValue(lv[k], m[k]) == 0 then 1 else 0;
    var e := Entry(s.kind, s.index, s.bit, theirs);
    OneAfterTheOther([e], out);
    LastValueConcat([e], out, s, d.cells[s]);
    OutputLands(lv, m, snap, lo, hi, k, theirs);
    LastWriterWins(d, [e] + out, s);
    LastWriterWins(d, [e], s);
    assert [e][1..] == [];
    assert Target(e) == s && Narrow(e.kind, e.value) == theirs;
  }

  /** An output's slot is left to others exactly when the output is not published, or it is forced. */
  lemma OthersWinExactlyWhen(d: Core, lv: seq<LocatedVar>, m: seq<nat>, snap: seq<nat>, lo: nat, hi: nat, k: nat)
    requires lo <= k < hi <= |lv| == |m| && DistinctOutputs(lv, lo, hi)
    requires !lv[k].area.Input? && SlotOfVar(lv[k]) in d.cells
    ensures OthersWin(d, OutWrites(lv, m, snap, lo, hi), SlotOfVar(lv[k])) <==>
            !Publishes(lv[k], m[k], snap, k) || SlotOfVar(lv[k]) in d.forced
  {
    var s, out := SlotOfVar(lv[k]), OutWrites(lv, m, snap, lo, hi);
    if !Publishes(lv[k], m[k], snap, k) {
      forall external, drained | Interleaves(drained, out, external)
        ensures s in ApplyAll(d, drained).cells && s in ApplyAll(d, external).cells
        ensures ApplyAll(d, drained).cells[s] == ApplyAll(d, external).cells[s]
      {
        UnpublishedSlotIsLeftToOthers(d, lv, m, snap, lo, hi, k, external, drained);
      }
    } else if s in d.forced {
      forall external, drained | Interleaves(drained, out, external)
        ensures s in ApplyAll(d, drained).cells && s in ApplyAll(d, external).cells
        ensures ApplyAll(d, drained).cells[s] == ApplyAll(d, external).cells[s]
      {
        LastWriterWins(d, drained, s);
        LastWriterWins(d, external, s);
      }
    } else {
      PublishedSlotIsNotLeftToOthers(d, lv, m, snap, lo, hi, k);
    }
  }

  /** With plugins writing at the same time, in any order relative to the copy-out: the slot of an
      output that the body left alone since the copy-in from c ends, in whatever image the drain
      finds, with what the plugins wrote, exactly when the slot is forced, or there is a snapshot and
      the output has storage or its slot held 0 at the copy-in. With no snapshot every output is
      published, unless its bit does not exist. */
  lemma ExternalValueSurvives(c: Core, d: Core, lv: seq<LocatedVar>, m: seq<nat>, snap: seq<nat>, lo: nat, hi: nat,
                              k: nat, earlier: nat)
    requires ValidCore(c) && lo <= k < hi <= |lv| == |m| && DistinctOutputs(lv, lo, hi)
    requires snap == [] || SnapshotOf(snap, c, lv, lo, hi)
    requires m[k] == MemberAfter(lv[k], earlier, ImageRead(c, lv[k]))
    requires !lv[k].area.Input? && SlotOfVar(lv[k]) in d.cells
    ensures OthersWin(d, OutWrites(lv, m, snap, lo, hi), SlotOfVar(lv[k])) <==>
            || SlotOfVar(lv[k]) in d.forced
            || (if snap == [] then !HasBit(lv[k]) else lv[k].bound || ImageRead(c, lv[k]) == 0)
  {
    OthersWinExactlyWhen(d, lv, m, snap, lo, hi, k);
    if snap != [] {
      UntouchedIsPublishedExactlyWhen(c, lv[k], earlier, snap, k);
    }
  }

  /** Copy-out never publishes into an input table, nor a bit that no row has. */
  lemma InputsAreNeverPublished(lv: seq<LocatedVar>, m: seq<nat>, snap: seq<nat>, lo: nat, hi: nat, i: nat)
    requires lo <= hi <= |lv| == |m| && i < |OutWrites(lv, m, snap, lo, hi)|
    ensures var e := OutWrites(lv, m, snap, lo, hi)[i];
            e.kind in {1, 2, 4, 6, 7, 9, 10, 12, 13} && (e.kind <= 2 ==> e.bit < 8)
  {
    OutWritesTargets(lv, m, snap, lo, hi, i);
  }

  // ---- Seeding -----------------------------------------------------------------------

  /** What seeding leaves in a zeroed slot, and what a copy-in makes of it. */
  lemma SeededValue(v: LocatedVar, initial: nat, snap: seq<nat>, k: nat)
    requires !v.area.Input? && HasBit(v) && v.bound && FitsMember(v, initial) && !IsMemoryByte(v)
    requires k < |snap| && snap[k] == 0
    ensures (if Publishes(v, initial, snap, k) then OutValue(v, initial) else 0) == Seeded(v, initial)
    ensures MemberAfter(v, initial, Seeded(v, initial)) == Seeded(v, initial)
  {
    OutValueOfMember(v, initial);
  }

  /** Over a zeroed image and snapshot, seeding fits in one bank, puts every output and
      memory member's initial value into its slot, and the first copy-in gives each
      member that value back. */
  lemma SeedingSurvivesTheFirstCopyIn(c: Core, lv: seq<LocatedVar>, m: seq<nat>, k: nat)
    requires ValidCore(c) && c.forced == {} && (forall s :: s in c.cells ==> c.cells[s] == 0)
    requires |lv| == |m| <= JOURNAL_MAX_ENTRIES && DistinctOutputs(lv, 0, |lv|)
    requires k < |lv| && !lv[k].area.Input? && lv[k].bound && FitsMember(lv[k], m[k])
    requires SlotOfVar(lv[k]) in c.cells
    ensures var writes := OutWrites(lv, m, seq(|lv|, i => 0), 0, |lv|);
            var seeded := ApplyAll(c, writes);
            && |writes| <= JOURNAL_MAX_ENTRIES
            && SlotOfVar(lv[k]) in seeded.cells
            && seeded.cells[SlotOfVar(lv[k])] == Seeded(lv[k], m[k])
            && MemberAfter(lv[k], m[k], ImageRead(seeded, lv[k])) == Seeded(lv[k], m[k])
  {
    var snap := seq(|lv|, i => 0);
    var writes := OutWrites(lv, m, snap, 0, |lv|);
    OutWritesBounded(lv, m, snap, 0, |lv|);
    OutputLands(lv, m, snap, 0, |lv|, k, 0);
    SeededValue(lv[k], m[k], snap, k);
    LastWriterWins(c, writes, SlotOfVar(lv[k]));
  }
}
