/** The applying half of the write journal as it is written: table arrays updated
    in place, the forced-slot bitmap with its counted fast path, and the two start-up
    sequences that size that bitmap. */
module JournalCore {
  import opened ImageModel

  /** One byte of the bitmap, as its eight bits: or-ing in and masking out a single
      bit are updates of one position. */
  type Bits = x: seq<bool> | |x| == 8 witness seq(8, i => false)

  const NO_BITS: Bits := seq(8, i => false)

  // ---- Where a slot lives ---------------------------------------------------------

  /** The longest table, which is how long every forced-slot row has to be. */
  function Longest(caps: seq<nat>): (m: nat)
    ensures forall i :: 0 <= i < |caps| ==> caps[i] <= m
    ensures caps == [] || m in caps
  {
    if caps == [] then 0
    else
      var rest := Longest(caps[1..]);
      if caps[0] > rest then caps[0] else rest
  }

  ghost predicate Wired(caps: seq<nat>, tables: seq<array2<nat>>) {
    && |caps| == JOURNAL_TYPE_COUNT && |tables| == JOURNAL_TYPE_COUNT
    && (forall k :: 0 <= k < JOURNAL_TYPE_COUNT ==> tables[k].Length0 == caps[k] && tables[k].Length1 == Width(k))
    && (forall k, l :: 0 <= k < l < JOURNAL_TYPE_COUNT ==> tables[k] != tables[l])
  }

  ghost predicate Holding(caps: seq<nat>, tables: seq<array2<nat>>, contents: map<Slot, nat>)
    requires Wired(caps, tables)
    reads tables
  {
    && (forall s: Slot :: s in contents <==> InTable(caps, s))
    && (forall s: Slot :: s in contents ==> tables[s.kind][s.index, s.bit] == contents[s])
    && (forall s: Slot :: s in contents ==> contents[s] < Modulus(s.kind))
  }

  /** The fourteen tables, each as long as its own entry of caps. */
  class ImageTables {
    const caps: seq<nat>
    const tables: seq<array2<nat>>
    ghost var cells: map<Slot, nat>  // what the tables hold

    ghost predicate Valid()
      reads this, tables
    {
      && Wired(caps, tables)
      && (forall s: Slot :: s in cells <==> InTable(caps, s))
      && (forall s: Slot :: s in cells ==> tables[s.kind][s.index, s.bit] == cells[s])
      && (forall s: Slot :: s in cells ==> cells[s] < Modulus(s.kind))
    }

    constructor (caps: seq<nat>, tables: seq<array2<nat>>, ghost contents: map<Slot, nat>)
      requires Wired(caps, tables) && Holding(caps, tables, contents)
      ensures Valid() && this.caps == caps && this.tables == tables && cells == contents
    {
      this.caps, this.tables, cells := caps, tables, contents;
    }

    /** Store an entry's value, past any force; outside its table it does nothing. */
    method WriteRaw(e: Entry)
      requires Valid()
      modifies this, tables
      ensures Valid()
      ensures cells == if Target(e) in old(cells) then old(cells)[Target(e) := Narrow(e.kind, e.value)]
                       else old(cells)
      ensures e.kind < 14 && e.index < caps[e.kind] ==>
        if e.kind <= 2 then e.bit < 8 ==> Stores(e.kind, e.value, tables[e.kind][e.index, e.bit])
        else Stores(e.kind, e.value, tables[e.kind][e.index, 0])
    {
      if e.kind >= JOURNAL_TYPE_COUNT || e.index >= caps[e.kind] {
        return;
      }
      if IsBool(e.kind) && e.bit >= 8 {
        return;
      }
      var s := SlotOf(e.kind, e.index, e.bit);
      var v := Narrow(e.kind, e.value);
      TableWidths(e.kind, e.value);
      tables[s.kind][s.index, s.bit] := v;
      forall t: Slot | t in cells && t != s
        ensures tables[t.kind][t.index, t.bit] == cells[t]
      {
        assert t.kind == s.kind ==> t.index != s.index || t.bit != s.bit;
      }
      cells := cells[s := v];
    }
  }

  /** The forced-slot bitmap: one row per table, all rows of one length, and the
      counter that lets an image with nothing forced skip the lookup. */
  class ForceMap {
    const size: nat
    const rows: array2<Bits>
    var count: nat
    ghost var marked: set<Slot>  // the set bits, as the slots they stand for

    ghost predicate Valid()
      reads this, rows
    {
      && rows.Length0 == JOURNAL_TYPE_COUNT && rows.Length1 == size
      && (forall s: Slot :: s in marked <==>
            s.kind < JOURNAL_TYPE_COUNT && s.index < size && s.bit < 8 && rows[s.kind, s.index][s.bit])
      && count == |marked|
    }

    /** Rows of the given length for every journal type, with nothing forced. */
    constructor (elements: nat)
      ensures Valid() && fresh(rows) && size == elements && marked == {} && count == 0
    {
      size := elements;
      rows := new Bits[JOURNAL_TYPE_COUNT, elements]((k, i) => NO_BITS);
      count := 0;
      marked := {};
    }

    method Set(s: Slot)
      requires Valid() && s.kind < JOURNAL_TYPE_COUNT && s.index < size && s.bit < 8
      modifies this, rows
      ensures Valid() && marked == old(marked) + {s}
    {
      if !rows[s.kind, s.index][s.bit] {
        rows[s.kind, s.index] := rows[s.kind, s.index][s.bit := true];
        count := count + 1;
        marked := marked + {s};
      }
      assert marked == old(marked) + {s};
    }

    method Clear(s: Slot)
      requires Valid() && s.kind < JOURNAL_TYPE_COUNT && s.index < size && s.bit < 8
      modifies this, rows
      ensures Valid() && marked == old(marked) - {s}
    {
      if rows[s.kind, s.index][s.bit] {
        rows[s.kind, s.index] := rows[s.kind, s.index][s.bit := false];
        if count > 0 {
          count := count - 1;
        }
        marked := marked - {s};
      }
      assert marked == old(marked) - {s};
    }
  }

  /** The refusals that are counted: outside the rows or outside the table. */
  predicate OutOfImage(c: Core, kind: nat, index: nat)
    requires |c.caps| == JOURNAL_TYPE_COUNT
  {
    kind >= JOURNAL_TYPE_COUNT || index >= c.rowLen || index >= c.caps[kind]
  }

  class Journal {
    var image: ImageTables
    var force: ForceMap
    var oobDrops: nat

    /** The counter is the number of set bits, and no bit is set outside its table. */
    ghost predicate Valid()
      reads this, image, image.tables, force, force.rows
    {
      && image.Valid() && force.Valid()
      && force.marked <= image.cells.Keys
      && (forall k :: 0 <= k < |image.tables| ==> image.tables[k] as object != force.rows)
    }

    ghost function View(): Core
      reads this, image, force
    {
      Core(image.caps, force.size, image.cells, force.marked)
    }

    lemma ViewIsValid()
      requires Valid()
      ensures ValidCore(View())
    {
    }

    method IsSlotForced(kind: nat, index: nat, bit: nat) returns (forced: bool)
      requires Valid()
      ensures forced <==> SlotOf(kind, index, bit) in View().forced
    {
      if force.count == 0 {
        return false;
      }
      if kind >= JOURNAL_TYPE_COUNT || index >= force.size || index >= image.caps[kind] {
        return false;
      }
      if IsBool(kind) {
        if bit >= 8 {
          return false;
        }
        return force.rows[kind, index][bit];
      }
      forced := force.rows[kind, index] != NO_BITS;
      assert forall b: nat :: 0 < b < 8 ==> Slot(kind, index, b) !in force.marked;
      assert forall b: nat :: 0 < b < 8 ==> !force.rows[kind, index][b] by {
        assert forall b: nat :: b < 8 ==> (Slot(kind, index, b) in force.marked <==> force.rows[kind, index][b]);
      }
    }

    method ApplyWriteRaw(e: Entry)
      requires Valid()
      modifies image, image.tables
      ensures Valid() && View() == ApplyRaw(old(View()), e)
    {
      image.WriteRaw(e);
    }

    method ApplyOne(e: Entry)
      requires Valid()
      modifies image, image.tables
      ensures Valid() && View() == ApplyEntry(old(View()), e)
    {
      var forced := IsSlotForced(e.kind, e.index, e.bit);
      if !forced {
        ApplyWriteRaw(e);
      }
    }

    /** The drain loop shared by both journal variants and the emergency flush. */
    method ApplyPending(entries: array<Entry>, count: nat)
      requires Valid() && count <= entries.Length
      modifies image, image.tables
      ensures Valid() && View() == ApplyAll(old(View()), entries[..count])
      ensures HoldLast(entries[..count], old(View()), View())
    {
      ViewIsValid();
      ghost var before := View();
      var i := 0;
      while i < count
        invariant 0 <= i <= count
        invariant Valid() && View() == ApplyAll(old(View()), entries[..i])
      {
        ApplyAllConcat(old(View()), entries[..i], [entries[i]]);
        assert entries[..i] + [entries[i]] == entries[..i + 1];
        ApplyOne(entries[i]);
        i := i + 1;
      }
      DrainedCellsHoldLast(before, entries[..count]);
    }

    method Pin(s: Slot)
      requires Valid() && s in View().cells && s.index < View().rowLen
      modifies force, force.rows
      ensures Valid() && View() == old(View()).(forced := old(View()).forced + {s})
    {
      force.Set(s);
    }

    method Unpin(s: Slot)
      requires Valid() && s in View().cells && s.index < View().rowLen
      modifies force, force.rows
      ensures Valid() && View() == old(View()).(forced := old(View()).forced - {s})
    {
      force.Clear(s);
    }

    method PinAndSeed(kind: nat, index: nat, bit: nat, value: nat)
      requires Valid() && Forceable(View(), kind, index, bit)
      modifies image, image.tables, force, force.rows
      ensures Valid() && View() == ForceSet(old(View()), kind, index, bit, value)
      ensures HoldsForced(View(), kind, index, bit, value)
    {
      ViewIsValid();
      ForceSeeds(View(), kind, index, bit, value);
      Pin(SlotOf(kind, index, bit));
      ApplyWriteRaw(Entry(kind, index, if IsBool(kind) then bit else 0xFF, value));
    }

    /** Pin a slot: mark it, count it once, and seed the value past the drop check. */
    method SetForce(kind: nat, index: nat, bit: nat, value: nat) returns (ok: bool)
      requires Valid()
      modifies this`oobDrops, image, image.tables, force, force.rows
      ensures Valid() && View() == ForceSet(old(View()), kind, index, bit, value)
      ensures ok <==> Forceable(old(View()), kind, index, bit)
      ensures ok ==> HoldsForced(View(), kind, index, bit, value)
      ensures oobDrops == old(oobDrops) + if OutOfImage(old(View()), kind, index) then 1 else 0
    {
      ok := false;
      if kind >= JOURNAL_TYPE_COUNT || index >= force.size || index >= image.caps[kind] {
        oobDrops := oobDrops + 1;
      } else if IsBool(kind) && bit >= 8 {
      } else {
        PinAndSeed(kind, index, bit, value);
        ok := true;
      }
    }

    method ClearForce(kind: nat, index: nat, bit: nat) returns (ok: bool)
      requires Valid()
      modifies this`oobDrops, force, force.rows
      ensures Valid() && View() == ForceClear(old(View()), kind, index, bit)
      ensures ok <==> Forceable(old(View()), kind, index, bit)
      ensures oobDrops == old(oobDrops) + if OutOfImage(old(View()), kind, index) then 1 else 0
    {
      ok := false;
      if kind >= JOURNAL_TYPE_COUNT || index >= force.size || index >= image.caps[kind] {
        oobDrops := oobDrops + 1;
      } else if IsBool(kind) && bit >= 8 {
      } else {
        Unpin(SlotOf(kind, index, bit));
        ok := true;
      }
    }

    /** Start-up with lock-free atomics: the table sizes are taken first, so the rows
        are as long as the longest table. */
    constructor LockFree(caps: seq<nat>, tables: seq<array2<nat>>, ghost contents: map<Slot, nat>)
      requires Wired(caps, tables) && Holding(caps, tables, contents)
      ensures Valid() && View() == Core(caps, Longest(caps), contents, {})
    {
      image := new ImageTables(caps, tables, contents);
      force := new ForceMap(Longest(caps));
      oobDrops := 0;
    }

    /** Start-up without them: the rows are allocated before the new table sizes are
        taken, so their length comes from the sizes held until then, which are all
        zero on a first start and after every clean-up. */
    constructor Mutex(heldCaps: seq<nat>, caps: seq<nat>, tables: seq<array2<nat>>, ghost contents: map<Slot, nat>)
      requires Wired(caps, tables) && Holding(caps, tables, contents)
      ensures Valid() && View() == Core(caps, Longest(heldCaps), contents, {})
    {
      force := new ForceMap(Longest(heldCaps));
      image := new ImageTables(caps, tables, contents);
      oobDrops := 0;
    }
  }

  /** Forcing reaches every slot of the image exactly when the rows are at least as
      long as the longest non-empty table. */
  lemma ForcingReachesEverySlot(c: Core)
    requires ValidCore(c)
    ensures (forall s: Slot :: s in c.cells ==> Forceable(c, s.kind, s.index, s.bit))
            <==> Longest(c.caps) <= c.rowLen
  {
    if Longest(c.caps) > c.rowLen {
      var k :| 0 <= k < |c.caps| && c.caps[k] == Longest(c.caps);
      var s := Slot(k, c.caps[k] - 1, 0);
      assert s in c.cells && !Forceable(c, s.kind, s.index, s.bit);
    }
    forall s: Slot | Longest(c.caps) <= c.rowLen && s in c.cells
      ensures Forceable(c, s.kind, s.index, s.bit)
    {
      assert SlotOf(s.kind, s.index, s.bit) == s;
    }
  }

  /** So on a first mutex start-up, over sizes that are still zero, every force of
      every slot is refused. */
  lemma FirstMutexStartRefusesEveryForce(c: Core, kind: nat, index: nat, bit: nat, value: nat)
    requires ValidCore(c) && c.rowLen == Longest(seq(JOURNAL_TYPE_COUNT, i => 0))
    ensures !Forceable(c, kind, index, bit) && ForceSet(c, kind, index, bit, value) == c
  {
    assert Longest(seq(JOURNAL_TYPE_COUNT, i => 0)) == 0;
  }
}
