/** The process image as the journal sees it: fourteen tables of slots, the
    writes addressed to them, the set of forced slots, and the meaning of one
    write, force or release. The imperative and the concurrent models are all
    proved against this module. */
module ImageModel {

  const JOURNAL_TYPE_COUNT: nat := 14
  const JOURNAL_MAX_ENTRIES: nat := 40960

  // The journal's own numbering of the tables.
  const BOOL_INPUT: nat := 0
  const BOOL_OUTPUT: nat := 1
  const BOOL_MEMORY: nat := 2
  const BYTE_INPUT: nat := 3
  const BYTE_OUTPUT: nat := 4
  const INT_INPUT: nat := 5
  const INT_OUTPUT: nat := 6
  const INT_MEMORY: nat := 7
  const DINT_INPUT: nat := 8
  const DINT_OUTPUT: nat := 9
  const DINT_MEMORY: nat := 10
  const LINT_INPUT: nat := 11
  const LINT_OUTPUT: nat := 12
  const LINT_MEMORY: nat := 13

  /** One journal entry: a table, an index, a bit (BOOL tables only), a value. */
  datatype Entry = Entry(kind: nat, index: nat, bit: nat, value: nat)

  /** One cell of the image. Only the BOOL tables have bits; elsewhere bit is 0. */
  datatype Slot = Slot(kind: nat, index: nat, bit: nat)

  predicate IsBool(kind: nat) {
    kind <= BOOL_MEMORY
  }

  /** How many values one element of the table can hold: the width mask plus one. */
  function Modulus(kind: nat): (m: nat)
    ensures m >= 2
  {
    if IsBool(kind) then 2
    else if kind <= BYTE_OUTPUT then 0x100
    else if kind <= INT_MEMORY then 0x1_0000
    else if kind <= DINT_MEMORY then 0x1_0000_0000
    else 0x1_0000_0000_0000_0000
  }

  /** A value cut down to the width of the table it is stored in. */
  function Narrow(kind: nat, value: nat): (v: nat)
    ensures v < Modulus(kind)
  {
    if IsBool(kind) then value % 2
    else if kind <= BYTE_OUTPUT then value % 0x100
    else if kind <= INT_MEMORY then value % 0x1_0000
    else if kind <= DINT_MEMORY then value % 0x1_0000_0000
    else value % 0x1_0000_0000_0000_0000
  }

  function SlotOf(kind: nat, index: nat, bit: nat): Slot {
    Slot(kind, index, if IsBool(kind) then bit else 0)
  }

  function Target(e: Entry): Slot {
    SlotOf(e.kind, e.index, e.bit)
  }

  /** BOOL tables are rows of eight cells, the others rows of one. */
  function Width(kind: nat): nat {
    if IsBool(kind) then 8 else 1
  }

  predicate InTable(caps: seq<nat>, s: Slot)
    requires |caps| == JOURNAL_TYPE_COUNT
  {
    s.kind < JOURNAL_TYPE_COUNT && s.index < caps[s.kind] && s.bit < Width(s.kind)
  }

  /** Table lengths, length of the forced-slot rows, cell values, forced slots. */
  datatype Core = Core(caps: seq<nat>, rowLen: nat, cells: map<Slot, nat>, forced: set<Slot>)

  ghost predicate ValidCore(c: Core) {
    && |c.caps| == JOURNAL_TYPE_COUNT
    && (forall s: Slot :: s in c.cells <==> InTable(c.caps, s))
    && (forall s: Slot :: s in c.cells ==> c.cells[s] < Modulus(s.kind))
    && (forall s: Slot :: s in c.forced ==> s in c.cells && s.index < c.rowLen)
  }

  /** Store a value in its own table, narrowed to that table's width. */
  function ApplyRaw(c: Core, e: Entry): Core {
    if Target(e) in c.cells
    then c.(cells := c.cells[Target(e) := Narrow(e.kind, e.value)])
    else c
  }

  /** One drained write: dropped when its slot is forced. */
  function ApplyEntry(c: Core, e: Entry): Core {
    if Target(e) in c.forced then c else ApplyRaw(c, e)
  }

  function ApplyAll(c: Core, es: seq<Entry>): Core
    decreases es
  {
    if es == [] then c else ApplyAll(ApplyEntry(c, es[0]), es[1..])
  }

  /** A force request is honoured only inside both the row and the table. */
  predicate Forceable(c: Core, kind: nat, index: nat, bit: nat) {
    SlotOf(kind, index, bit) in c.cells && index < c.rowLen
  }

  function ForceSet(c: Core, kind: nat, index: nat, bit: nat, value: nat): Core {
    if Forceable(c, kind, index, bit)
    then ApplyRaw(c.(forced := c.forced + {SlotOf(kind, index, bit)}), Entry(kind, index, bit, value))
    else c
  }

  function ForceClear(c: Core, kind: nat, index: nat, bit: nat): Core {
    if Forceable(c, kind, index, bit)
    then c.(forced := c.forced - {SlotOf(kind, index, bit)})
    else c
  }

  /** Everything that happens to the image under the image lock. */
  datatype Op =
    | Write(entry: Entry)
    | Force(kind: nat, index: nat, bit: nat, value: nat)
    | Unforce(kind: nat, index: nat, bit: nat)

  function Touches(op: Op): Slot {
    match op
    case Write(e) => Target(e)
    case Force(k, i, b, _) => SlotOf(k, i, b)
    case Unforce(k, i, b) => SlotOf(k, i, b)
  }

  function Apply(c: Core, op: Op): Core {
    match op
    case Write(e) => ApplyEntry(c, e)
    case Force(k, i, b, v) => ForceSet(c, k, i, b, v)
    case Unforce(k, i, b) => ForceClear(c, k, i, b)
  }

  function Run(c: Core, ops: seq<Op>): Core
    decreases ops
  {
    if ops == [] then c else Run(Apply(c, ops[0]), ops[1..])
  }

  lemma ApplyKeepsValid(c: Core, op: Op)
    requires ValidCore(c)
    ensures ValidCore(Apply(c, op))
    ensures Apply(c, op).caps == c.caps && Apply(c, op).rowLen == c.rowLen
    ensures Apply(c, op).cells.Keys == c.cells.Keys
  {
  }

  lemma {:induction false} RunKeepsValid(c: Core, ops: seq<Op>)
    requires ValidCore(c)
    ensures ValidCore(Run(c, ops))
    ensures Run(c, ops).caps == c.caps && Run(c, ops).rowLen == c.rowLen
    ensures Run(c, ops).cells.Keys == c.cells.Keys
    decreases ops
  {
    if ops != [] {
      ApplyKeepsValid(c, ops[0]);
      RunKeepsValid(Apply(c, ops[0]), ops[1..]);
    }
  }

  lemma {:induction false} RunConcat(c: Core, a: seq<Op>, b: seq<Op>)
    ensures Run(c, a + b) == Run(Run(c, a), b)
    decreases a
  {
    if a == [] {
      assert a + b == b;
    } else {
      assert (a + b)[1..] == a[1..] + b;
      RunConcat(Apply(c, a[0]), a[1..], b);
    }
  }

  lemma {:induction false} ApplyAllConcat(c: Core, a: seq<Entry>, b: seq<Entry>)
    ensures ApplyAll(c, a + b) == ApplyAll(ApplyAll(c, a), b)
    decreases a
  {
    if a == [] {
      assert a + b == b;
    } else {
      assert (a + b)[1..] == a[1..] + b;
      ApplyAllConcat(ApplyEntry(c, a[0]), a[1..], b);
    }
  }

  lemma {:induction false} ApplyAllFrame(c: Core, es: seq<Entry>)
    ensures ApplyAll(c, es).caps == c.caps && ApplyAll(c, es).rowLen == c.rowLen
    ensures ApplyAll(c, es).forced == c.forced
    ensures ApplyAll(c, es).cells.Keys == c.cells.Keys
    decreases es
  {
    if es != [] {
      ApplyAllFrame(ApplyEntry(c, es[0]), es[1..]);
    }
  }

  // ---- Histories --------------------------------------------------------------

  /** The writes of a history, in the order they reached the image. */
  function Writes(log: seq<Op>): seq<Entry> {
    if log == [] then []
    else Writes(log[..|log| - 1]) + if log[|log| - 1].Write? then [log[|log| - 1].entry] else []
  }

  lemma LogGrows(core: Core, log: seq<Op>, op: Op)
    ensures Run(core, log + [op]) == Apply(Run(core, log), op)
    ensures Writes(log + [op]) == Writes(log) + if op.Write? then [op.entry] else []
  {
    RunConcat(core, log, [op]);
    assert (log + [op])[..|log|] == log;
  }

  /** A history of writes alone is one long drain. */
  lemma {:induction false} WritesOnlyIsOneDrain(core: Core, log: seq<Op>)
    requires forall i :: 0 <= i < |log| ==> log[i].Write?
    ensures Run(core, log) == ApplyAll(core, Writes(log))
  {
    if log != [] {
      var last := |log| - 1;
      assert log == log[..last] + [log[last]];
      WritesOnlyIsOneDrain(core, log[..last]);
      LogGrows(core, log[..last], log[last]);
      ApplyAllConcat(core, Writes(log[..last]), [log[last].entry]);
    }
  }

  // ---- Forcing over whole runs ------------------------------------------------

  /** No later request re-forces or releases the slot; writes to it are allowed. */
  ghost predicate OnlyWritesTo(ops: seq<Op>, s: Slot) {
    forall i :: 0 <= i < |ops| && Touches(ops[i]) == s ==> ops[i].Write?
  }

  lemma {:induction false} ForcedSlotHolds(c: Core, ops: seq<Op>, s: Slot)
    requires s in c.forced && s in c.cells && OnlyWritesTo(ops, s)
    ensures s in Run(c, ops).forced
    ensures s in Run(c, ops).cells && Run(c, ops).cells[s] == c.cells[s]
    decreases ops
  {
    if ops != [] {
      assert OnlyWritesTo(ops[1..], s) by {
        forall i | 0 <= i < |ops[1..]| && Touches(ops[1..][i]) == s ensures ops[1..][i].Write? {
          assert ops[1..][i] == ops[i + 1];
        }
      }
      assert Touches(ops[0]) == s ==> ops[0].Write?;
      ForcedSlotHolds(Apply(c, ops[0]), ops[1..], s);
    }
  }

  /** From an accepted force to the next request on that slot, the slot holds the
      forced value at its table's width, whatever is written in between. */
  lemma ForceOwnsSlot(c: Core, kind: nat, index: nat, bit: nat, value: nat, ops: seq<Op>)
    requires Forceable(c, kind, index, bit) && OnlyWritesTo(ops, SlotOf(kind, index, bit))
    ensures var s := SlotOf(kind, index, bit);
            var after := Run(c, [Force(kind, index, bit, value)] + ops);
            s in after.forced && s in after.cells && after.cells[s] == Narrow(kind, value)
  {
    var ops' := [Force(kind, index, bit, value)] + ops;
    assert ops'[1..] == ops;
    ForcedSlotHolds(ForceSet(c, kind, index, bit, value), ops, SlotOf(kind, index, bit));
  }

  ghost predicate SameExceptAt(a: Core, b: Core, s: Slot) {
    && a.caps == b.caps && a.rowLen == b.rowLen && a.cells.Keys == b.cells.Keys
    && (forall t: Slot :: t != s ==> (t in a.forced <==> t in b.forced))
    && (forall t: Slot :: t != s && t in a.cells ==> a.cells[t] == b.cells[t])
  }

  lemma {:induction false} DifferenceStaysLocal(a: Core, b: Core, ops: seq<Op>, s: Slot)
    requires SameExceptAt(a, b, s)
    ensures SameExceptAt(Run(a, ops), Run(b, ops), s)
    decreases ops
  {
    if ops != [] {
      assert SameExceptAt(Apply(a, ops[0]), Apply(b, ops[0]), s);
      DifferenceStaysLocal(Apply(a, ops[0]), Apply(b, ops[0]), ops[1..], s);
    }
  }

  /** A force affects no other slot: any run with it and the same run without it
      agree everywhere else, on values and on what is forced. */
  lemma ForceAffectsOnlyItsSlot(c: Core, kind: nat, index: nat, bit: nat, value: nat, ops: seq<Op>)
    ensures SameExceptAt(Run(c, [Force(kind, index, bit, value)] + ops), Run(c, ops),
                         SlotOf(kind, index, bit))
  {
    var ops' := [Force(kind, index, bit, value)] + ops;
    assert ops'[1..] == ops;
    DifferenceStaysLocal(ForceSet(c, kind, index, bit, value), c, ops, SlotOf(kind, index, bit));
  }

  // ---- Last writer wins ---------------------------------------------------------

  /** The value the slot ends with after the writes, if any of them names it. */
  function LastValue(es: seq<Entry>, s: Slot, before: nat): nat {
    if es == [] then before
    else LastValue(es[1..], s, if Target(es[0]) == s then Narrow(es[0].kind, es[0].value) else before)
  }

  /** A drain leaves every unforced slot at the last write addressed to it and every
      forced slot as it was. */
  lemma {:induction false} LastWriterWins(c: Core, es: seq<Entry>, s: Slot)
    requires s in c.cells
    ensures s in ApplyAll(c, es).cells
    ensures ApplyAll(c, es).cells[s] ==
            if s in c.forced then c.cells[s] else LastValue(es, s, c.cells[s])
    decreases es
  {
    if es != [] {
      LastWriterWins(ApplyEntry(c, es[0]), es[1..], s);
    }
  }

  lemma {:induction false} LastValueConcat(a: seq<Entry>, b: seq<Entry>, s: Slot, before: nat)
    ensures LastValue(a + b, s, before) == LastValue(b, s, LastValue(a, s, before))
  {
    if a == [] {
      assert a + b == b;
    } else {
      assert (a + b)[1..] == a[1..] + b;
      LastValueConcat(a[1..], b, s, if Target(a[0]) == s then Narrow(a[0].kind, a[0].value) else before);
    }
  }

  lemma {:induction false} LastValueUntouched(es: seq<Entry>, s: Slot, before: nat)
    requires forall i :: 0 <= i < |es| ==> Target(es[i]) != s
    ensures LastValue(es, s, before) == before
  {
    if es != [] {
      LastValueUntouched(es[1..], s, before);
    }
  }

  // ---- What a cell holds --------------------------------------------------------

  /** What storing a value leaves in a cell of a table, by the table's number: one bit in the three
      BOOL tables, then two of bytes, and three each of 16, 32 and 64 bits. */
  ghost predicate Stores(kind: nat, value: nat, cell: nat) {
    && (kind in {0, 1, 2} ==> cell == value % 2)
    && (kind in {3, 4} ==> cell == value % 256)
    && (kind in {5, 6, 7} ==> cell == value % 65536)
    && (kind in {8, 9, 10} ==> cell == value % 4294967296)
    && (kind in {11, 12, 13} ==> cell == value % 18446744073709551616)
  }

  /** There is one such value for each of the fourteen tables. */
  lemma StoresOneValue(kind: nat, value: nat, x: nat, y: nat)
    requires kind < 14 && Stores(kind, value, x) && Stores(kind, value, y)
    ensures x == y
  {
  }

  /** The cell of a table that a write or a force names. */
  ghost predicate Names(kind: nat, index: nat, bit: nat, s: Slot) {
    s.kind == kind && s.index == index && s.bit == if kind in {0, 1, 2} then bit else 0
  }

  /** The widths of the fourteen tables: a value that fits is stored unchanged. */
  lemma TableWidths(kind: nat, value: nat)
    requires kind < 14
    ensures Stores(kind, value, Narrow(kind, value)) && Narrow(kind, value) == value % Modulus(kind)
    ensures Modulus(kind) == [2, 2, 2, 256, 256, 65536, 65536, 65536, 4294967296, 4294967296, 4294967296,
                              18446744073709551616, 18446744073709551616, 18446744073709551616][kind]
    ensures value < Modulus(kind) ==> Narrow(kind, value) == value
  {
  }

  ghost predicate IsLast(es: seq<Entry>, i: nat, s: Slot)
    requires i < |es|
  {
    && Names(es[i].kind, es[i].index, es[i].bit, s)
    && (forall j :: i < j < |es| ==> !Names(es[j].kind, es[j].index, es[j].bit, s))
  }

  /** The last entry that names the cell is what it holds; if none does, it holds what it held. */
  ghost predicate HoldsLast(es: seq<Entry>, s: Slot, before: nat, cell: nat) {
    && ((forall i :: 0 <= i < |es| ==> !Names(es[i].kind, es[i].index, es[i].bit, s)) ==> cell == before)
    && (forall i :: 0 <= i < |es| && IsLast(es, i, s) ==> Stores(es[i].kind, es[i].value, cell))
  }

  /** A drain leaves every unforced cell at the last write that names it, at the table's width. */
  lemma DrainedCellHoldsLast(c: Core, es: seq<Entry>, s: Slot)
    requires ValidCore(c) && s in c.cells && s !in c.forced
    ensures s in ApplyAll(c, es).cells && HoldsLast(es, s, c.cells[s], ApplyAll(c, es).cells[s])
  {
    LastWriterWins(c, es, s);
    if forall i :: 0 <= i < |es| ==> !Names(es[i].kind, es[i].index, es[i].bit, s) {
      LastValueUntouched(es, s, c.cells[s]);
    }
    forall i | 0 <= i < |es| && IsLast(es, i, s)
      ensures Stores(es[i].kind, es[i].value, LastValue(es, s, c.cells[s]))
    {
      var e, after := es[i], es[i + 1..];
      assert es == es[..i] + [e] + after;
      LastValueConcat(es[..i] + [e], after, s, c.cells[s]);
      LastValueConcat(es[..i], [e], s, c.cells[s]);
      LastValueUntouched(after, s, Narrow(e.kind, e.value));
      TableWidths(e.kind, e.value);
    }
  }

  /** Every cell that was not forced holds the last entry that names it. */
  ghost predicate HoldLast(es: seq<Entry>, before: Core, after: Core) {
    forall s: Slot :: s in before.cells && s !in before.forced ==>
      s in after.cells && HoldsLast(es, s, before.cells[s], after.cells[s])
  }

  lemma DrainedCellsHoldLast(c: Core, es: seq<Entry>)
    requires ValidCore(c)
    ensures HoldLast(es, c, ApplyAll(c, es))
  {
    forall s: Slot | s in c.cells && s !in c.forced
      ensures s in ApplyAll(c, es).cells && HoldsLast(es, s, c.cells[s], ApplyAll(c, es).cells[s])
    {
      DrainedCellHoldsLast(c, es, s);
    }
  }

  /** The slot is forced and holds the value. */
  ghost predicate HoldsForced(c: Core, kind: nat, index: nat, bit: nat, value: nat) {
    var s := Slot(kind, index, if kind <= 2 then bit else 0);
    s in c.forced && s in c.cells && Stores(kind, value, c.cells[s])
  }

  /** A forced value is what its cell holds, until the next force or release of it. */
  lemma ForcedValueIsHeld(c: Core, kind: nat, index: nat, bit: nat, value: nat, ops: seq<Op>)
    requires ValidCore(c) && kind < 14 && index < c.caps[kind] && index < c.rowLen && (kind <= 2 ==> bit < 8)
    requires OnlyWritesTo(ops, Slot(kind, index, if kind <= 2 then bit else 0))
    ensures HoldsForced(Run(c, [Force(kind, index, bit, value)] + ops), kind, index, bit, value)
  {
    ForceOwnsSlot(c, kind, index, bit, value, ops);
    TableWidths(kind, value);
  }

  lemma ForceSeeds(c: Core, kind: nat, index: nat, bit: nat, value: nat)
    requires ValidCore(c) && Forceable(c, kind, index, bit)
    ensures HoldsForced(ForceSet(c, kind, index, bit, value), kind, index, bit, value)
  {
    TableWidths(kind, value);
  }
}
