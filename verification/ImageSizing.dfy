/** How long each image table becomes for a program, and the allocation itself: what the
    configuration asks for and what the program's located variables need, the larger of the two
    per table, all made equal for plugins that know one length only, and every slot backed. */
module ImageSizing {
  const TABLES: nat := 14
  const MIN_ELEMENTS: nat := 1

  datatype Area = Input | Output | Memory
  datatype Size = Bit | Byte | Word | DWord | LWord

  /** A located variable; its byte index is 16 bits wide. */
  datatype LocatedVar = LocatedVar(area: Area, size: Size, byteIndex: nat)

  /** The table that stores an address, in the order the image declares them. There is none for
      byte memory: the result is then TABLES. */
  function TableFor(area: Area, size: Size): (t: nat)
    ensures t <= TABLES && (t == TABLES <==> area == Memory && size == Byte)
  {
    match area
    case Input => (match size case Bit => 0 case Byte => 2 case Word => 4 case DWord => 6 case LWord => 8)
    case Output => (match size case Bit => 1 case Byte => 3 case Word => 5 case DWord => 7 case LWord => 9)
    case Memory => (match size case Bit => 13 case Byte => TABLES case Word => 10 case DWord => 11 case LWord => 12)
  }

  predicate IsBool(t: nat) { t == 0 || t == 1 || t == 13 }

  function BitsOf(t: nat): nat { if IsBool(t) then 8 else 1 }

  function Max(a: nat, b: nat): nat { if a > b then a else b }

  /** What the variables need of table t: one more than the highest index. */
  function Needed(vars: seq<LocatedVar>, t: nat): nat {
    if vars == [] then 0
    else
      var v := vars[|vars| - 1];
      Max(Needed(vars[..|vars| - 1], t), if TableFor(v.area, v.size) == t then v.byteIndex + 1 else 0)
  }

  /** Enough for every variable, and no more than some variable needs. */
  lemma {:induction false} NeededIsExact(vars: seq<LocatedVar>, t: nat)
    ensures forall i :: 0 <= i < |vars| && TableFor(vars[i].area, vars[i].size) == t ==>
              vars[i].byteIndex < Needed(vars, t)
    ensures Needed(vars, t) > 0 ==>
              exists i :: 0 <= i < |vars| && TableFor(vars[i].area, vars[i].size) == t &&
                          Needed(vars, t) == vars[i].byteIndex + 1
    decreases vars
  {
    if vars != [] {
      var rest, v := vars[..|vars| - 1], vars[|vars| - 1];
      NeededIsExact(rest, t);
      if Needed(vars, t) > 0 {
        if TableFor(v.area, v.size) == t && v.byteIndex + 1 >= Needed(rest, t) {
          assert Needed(vars, t) == vars[|vars| - 1].byteIndex + 1;
        } else {
          var i :| 0 <= i < |rest| && TableFor(rest[i].area, rest[i].size) == t &&
                   Needed(rest, t) == rest[i].byteIndex + 1;
          assert vars[i] == rest[i];
        }
      }
    }
  }

  /** The largest of the first n counts. */
  function Largest(s: seq<nat>, n: nat): (m: nat)
    requires n <= |s|
    ensures forall i :: 0 <= i < n ==> s[i] <= m
  {
    if n == 0 then 0 else Max(Largest(s, n - 1), s[n - 1])
  }

  lemma {:induction false} LargestIsThere(s: seq<nat>, n: nat)
    requires 0 < n <= |s|
    ensures exists i :: 0 <= i < n && Largest(s, n) == s[i]
    decreases n
  {
    if n > 1 {
      LargestIsThere(s, n - 1);
    }
    if s[n - 1] >= Largest(s, n - 1) {
      assert Largest(s, n) == s[n - 1];
    }
  }

  // ---- Sizes -------------------------------------------------------------------------------

  method DeriveFloor(vars: seq<LocatedVar>) returns (out: array<nat>)
    ensures fresh(out) && out.Length == TABLES
    ensures forall t :: 0 <= t < TABLES ==> out[t] == Needed(vars, t)
  {
    out := new nat[TABLES](_ => 0);
    for i := 0 to |vars|
      invariant forall t :: 0 <= t < TABLES ==> out[t] == Needed(vars[..i], t)
    {
      var id := TableFor(vars[i].area, vars[i].size);
      assert vars[..i + 1][..i] == vars[..i];
      if id < TABLES {
        var needed := vars[i].byteIndex + 1;
        if needed > out[id] {
          out[id] := needed;
        }
      }
    }
    assert vars[..|vars|] == vars;
  }

  method TakeMax(dst: array<nat>, other: array<nat>)
    requires dst.Length == TABLES && other.Length == TABLES && dst != other
    modifies dst
    ensures forall t :: 0 <= t < TABLES ==> dst[t] == Max(old(dst[t]), other[t])
  {
    for i := 0 to TABLES
      invariant forall t :: 0 <= t < i ==> dst[t] == Max(old(dst[t]), other[t])
      invariant forall t :: i <= t < TABLES ==> dst[t] == old(dst[t])
    {
      if other[i] > dst[i] {
        dst[i] := other[i];
      }
    }
  }

  method Flatten(sizes: array<nat>)
    requires sizes.Length == TABLES
    modifies sizes
    ensures forall t :: 0 <= t < TABLES ==> sizes[t] == Largest(old(sizes[..]), TABLES)
  {
    var largest := 0;
    for i := 0 to TABLES
      invariant largest == Largest(sizes[..], i) && sizes[..] == old(sizes[..])
    {
      if sizes[i] > largest {
        largest := sizes[i];
      }
    }
    for i := 0 to TABLES
      invariant forall t :: 0 <= t < i ==> sizes[t] == largest
    {
      sizes[i] := largest;
    }
  }

  /** The smallest of the fourteen, for those who read one number. */
  method Smallest(s: seq<nat>) returns (m: nat)
    requires |s| == TABLES
    ensures forall t :: 0 <= t < TABLES ==> m <= s[t]
    ensures exists t :: 0 <= t < TABLES && m == s[t]
  {
    m := s[0];
    ghost var at := 0;
    for i := 1 to TABLES
      invariant 0 <= at < TABLES && m == s[at]
      invariant forall t :: 0 <= t < i ==> m <= s[t]
    {
      if s[i] < m {
        m := s[i];
        at := i;
      }
    }
  }

  // ---- The image -----------------------------------------------------------------------------

  /** What a slot points to: nothing, or the cell that backs one slot. */
  datatype Address = Null | Cell(table: nat, row: nat, bit: nat)

  /** Gives every empty slot of one row its own cell, cleared. */
  method FillRow(table: array2<Address>, backing: array2<nat>, t: nat, i: nat)
    requires table.Length0 == backing.Length0 && table.Length1 == backing.Length1 && i < table.Length0
    modifies table, backing
    ensures forall r, b :: 0 <= r < table.Length0 && 0 <= b < table.Length1 ==>
              if r == i && old(table[r, b]) == Null then table[r, b] == Cell(t, i, b) && backing[r, b] == 0
              else table[r, b] == old(table[r, b]) && backing[r, b] == old(backing[r, b])
  {
    for b := 0 to table.Length1
      invariant forall r, c :: 0 <= r < table.Length0 && 0 <= c < table.Length1 ==>
        if r == i && c < b && old(table[r, c]) == Null then table[r, c] == Cell(t, i, c) && backing[r, c] == 0
        else table[r, c] == old(table[r, c]) && backing[r, c] == old(backing[r, c])
    {
      if table[i, b] == Null {
        backing[i, b] := 0;
        table[i, b] := Cell(t, i, b);
      }
    }
  }

  /** Slots that already point somewhere keep what they point to. */
  method FillTable(table: array2<Address>, backing: array2<nat>, t: nat)
    requires table.Length0 == backing.Length0 && table.Length1 == backing.Length1
    modifies table, backing
    ensures forall r, b :: 0 <= r < table.Length0 && 0 <= b < table.Length1 ==>
              if old(table[r, b]) == Null then table[r, b] == Cell(t, r, b) && backing[r, b] == 0
              else table[r, b] == old(table[r, b]) && backing[r, b] == old(backing[r, b])
  {
    for i := 0 to table.Length0
      invariant forall r, b :: 0 <= r < table.Length0 && 0 <= b < table.Length1 ==>
        if r < i && old(table[r, b]) == Null then table[r, b] == Cell(t, r, b) && backing[r, b] == 0
        else table[r, b] == old(table[r, b]) && backing[r, b] == old(backing[r, b])
    {
      FillRow(table, backing, t, i);
    }
  }

  /** The tables and their backing cells, as long as asked for, with nothing in them. */
  method NewTables(want: seq<nat>)
    returns (clamped: seq<nat>, next: seq<array2<Address>>, temps: seq<array2<nat>>)
    requires |want| == TABLES
    ensures |clamped| == |next| == |temps| == TABLES
    ensures forall s :: 0 <= s < TABLES ==> clamped[s] == Max(want[s], MIN_ELEMENTS)
    ensures forall s :: 0 <= s < TABLES ==>
              fresh(next[s]) && next[s].Length0 == clamped[s] && next[s].Length1 == BitsOf(s) &&
              fresh(temps[s]) && temps[s].Length0 == clamped[s] && temps[s].Length1 == BitsOf(s)
    ensures forall r, s :: 0 <= r < s < TABLES ==> next[r] != next[s] && temps[r] != temps[s]
    ensures forall s, i, b :: 0 <= s < TABLES && 0 <= i < next[s].Length0 && 0 <= b < next[s].Length1 ==>
              next[s][i, b] == Null
  {
    clamped, next, temps := [], [], [];
    for t := 0 to TABLES
      modifies {}
      invariant |clamped| == |next| == |temps| == t
      invariant forall s :: 0 <= s < t ==> clamped[s] == Max(want[s], MIN_ELEMENTS)
      invariant forall s :: 0 <= s < t ==>
        fresh(next[s]) && next[s].Length0 == clamped[s] && next[s].Length1 == BitsOf(s) &&
        fresh(temps[s]) && temps[s].Length0 == clamped[s] && temps[s].Length1 == BitsOf(s)
      invariant forall r, s :: 0 <= r < s < t ==> next[r] != next[s] && temps[r] != temps[s]
      invariant forall s, i, b :: 0 <= s < t && 0 <= i < next[s].Length0 && 0 <= b < next[s].Length1 ==>
        next[s][i, b] == Null
    {
      var n := if want[t] < MIN_ELEMENTS then MIN_ELEMENTS else want[t];
      var table := new Address[n, BitsOf(t)]((i, b) => Null);
      var backing := new nat[n, BitsOf(t)]((i, b) => 0);
      clamped, next, temps := clamped + [n], next + [table], temps + [backing];
    }
  }

  class Image {
    var sizes: seq<nat>
    var capacity: nat
    var slots: seq<array2<Address>>
    var cells: seq<array2<nat>>

    predicate Empty()
      reads this
    {
      slots == [] && cells == [] && capacity == 0
    }

    predicate Allocated()
      reads this
    {
      && |sizes| == TABLES && |slots| == TABLES && |cells| == TABLES
      && (forall t :: 0 <= t < TABLES ==>
            sizes[t] > 0 && slots[t].Length0 == sizes[t] && cells[t].Length0 == sizes[t] &&
            slots[t].Length1 == BitsOf(t) && cells[t].Length1 == BitsOf(t))
      && (forall s, t :: 0 <= s < t < TABLES ==> slots[s] != slots[t] && cells[s] != cells[t])
      && 0 < capacity
      && (forall t :: 0 <= t < TABLES ==> capacity <= sizes[t])
      && (exists t :: 0 <= t < TABLES && capacity == sizes[t])
    }

    constructor ()
      ensures Empty()
    {
      sizes, capacity, slots, cells := [], 0, [], [];
    }

    /** All twenty-eight allocations or none: granted says which of them succeed. */
    method Alloc(want: seq<nat>, granted: seq<bool>) returns (ok: bool)
      requires |want| == TABLES && |granted| == 2 * TABLES
      modifies this
      ensures ok <==> forall k :: 0 <= k < 2 * TABLES ==> granted[k]
      ensures !ok ==> sizes == old(sizes) && capacity == old(capacity) && slots == old(slots) && cells == old(cells)
      ensures ok ==> Allocated() && forall t :: 0 <= t < TABLES ==> sizes[t] == Max(want[t], MIN_ELEMENTS)
      ensures ok ==> forall t :: 0 <= t < TABLES ==> fresh(slots[t]) && fresh(cells[t])
      ensures ok ==> forall t, i, b :: 0 <= t < TABLES && 0 <= i < slots[t].Length0 && 0 <= b < slots[t].Length1 ==>
                       slots[t][i, b] == Null
    {
      var clamped, next, temps := NewTables(want);
      ok := forall k :: 0 <= k < 2 * TABLES ==> granted[k];
      if ok {
        slots, cells, sizes := next, temps, clamped;
        capacity := Smallest(clamped);
      }
    }

    /** Every slot has a cell of its own. */
    predicate Backed()
      requires Allocated()
      reads this, slots
    {
      forall t, i, b :: 0 <= t < TABLES && 0 <= i < sizes[t] && 0 <= b < BitsOf(t) ==> slots[t][i, b] == Cell(t, i, b)
    }

    /** Every table walked to its own length: each empty slot gets its own cell, cleared, and a slot
        that points somewhere keeps what it points to. */
    method FillNullPointers()
      requires Allocated()
      modifies slots, cells
      ensures forall t, i, b :: 0 <= t < TABLES && 0 <= i < sizes[t] && 0 <= b < BitsOf(t) ==>
                if old(slots[t][i, b]) == Null then slots[t][i, b] == Cell(t, i, b) && cells[t][i, b] == 0
                else slots[t][i, b] == old(slots[t][i, b]) && cells[t][i, b] == old(cells[t][i, b])
    {
      for t := 0 to TABLES
        invariant forall s, i, b :: 0 <= s < TABLES && 0 <= i < sizes[s] && 0 <= b < BitsOf(s) ==>
          if s < t && old(slots[s][i, b]) == Null then slots[s][i, b] == Cell(s, i, b) && cells[s][i, b] == 0
          else slots[s][i, b] == old(slots[s][i, b]) && cells[s][i, b] == old(cells[s][i, b])
      {
        FillTable(slots[t], cells[t], t);
      }
    }
  }

  /** Two slots of a backed image never share a cell. */
  lemma BackedSlotsAreDistinct(image: Image, t: nat, i: nat, b: nat, u: nat, j: nat, c: nat)
    requires image.Allocated() && image.Backed()
    requires t < TABLES && i < image.sizes[t] && b < BitsOf(t) && u < TABLES && j < image.sizes[u] && c < BitsOf(u)
    requires image.slots[t][i, b] == image.slots[u][j, c]
    ensures t == u && i == j && b == c && image.slots[t][i, b] != Null
  {
  }

  // ---- Loading a program -----------------------------------------------------------------------

  /** The length a table is given. */
  function Wanted(conf: seq<nat>, vars: seq<LocatedVar>, t: nat): nat
    requires |conf| == TABLES && t < TABLES
  {
    Max(conf[t], Needed(vars, t))
  }

  /** The counts asked for: per table, or the largest of them for every table. */
  method Counts(conf: seq<nat>, vars: seq<LocatedVar>, uniform: bool) returns (counts: array<nat>)
    requires |conf| == TABLES
    ensures fresh(counts) && counts.Length == TABLES
    ensures !uniform ==> forall t :: 0 <= t < TABLES ==> counts[t] == Wanted(conf, vars, t)
    ensures uniform ==> forall t :: 0 <= t < TABLES ==> counts[t] == counts[0] >= Wanted(conf, vars, t)
    ensures uniform ==> exists t :: 0 <= t < TABLES && counts[0] == Wanted(conf, vars, t)
  {
    counts := new nat[TABLES];
    forall t | 0 <= t < TABLES {
      counts[t] := conf[t];
    }
    var derived := DeriveFloor(vars);
    TakeMax(counts, derived);
    if uniform {
      ghost var wanted := counts[..];
      Flatten(counts);
      LargestIsThere(wanted, TABLES);
      ghost var top :| 0 <= top < TABLES && Largest(wanted, TABLES) == wanted[top];
      assert counts[0] == Wanted(conf, vars, top);
    }
  }

  /** Tables as long as wanted hold every variable that has a table. */
  lemma EveryVariableFits(conf: seq<nat>, vars: seq<LocatedVar>, sizes: seq<nat>, v: LocatedVar)
    requires |conf| == TABLES && |sizes| == TABLES
    requires forall t :: 0 <= t < TABLES ==> Wanted(conf, vars, t) <= sizes[t]
    requires v in vars && TableFor(v.area, v.size) < TABLES
    ensures v.byteIndex < sizes[TableFor(v.area, v.size)]
  {
    NeededIsExact(vars, TableFor(v.area, v.size));
  }

  /** Sizes, allocation and backing as a program is loaded. Whatever the configuration says:
      every storable variable fits its own table, the one number plugins are given is positive
      and no table is shorter, every slot has its own cell; and a failed allocation changes
      nothing. */
  method LoadProgram(image: Image, conf: seq<nat>, vars: seq<LocatedVar>, uniform: bool, granted: seq<bool>)
    returns (ok: bool)
    requires |conf| == TABLES && |granted| == 2 * TABLES
    modifies image
    ensures !ok ==> image.sizes == old(image.sizes) && image.capacity == old(image.capacity) &&
                    image.slots == old(image.slots) && image.cells == old(image.cells)
    ensures ok ==> image.Allocated() && image.Backed()
    ensures ok ==> |image.slots| == |image.sizes| == 14 && 0 < image.capacity
    ensures ok ==> forall t :: 0 <= t < 14 ==>
              image.slots[t].Length1 == (if t in {0, 1, 13} then 8 else 1) && image.capacity <= image.sizes[t]
    ensures ok ==> forall t :: 0 <= t < 14 ==> Wanted(conf, vars, t) <= image.sizes[t]
    ensures ok ==> forall v :: v in vars && TableFor(v.area, v.size) < TABLES ==>
              v.byteIndex < image.sizes[TableFor(v.area, v.size)]
    ensures ok && !uniform ==> forall t :: 0 <= t < 14 ==> image.sizes[t] == Max(Wanted(conf, vars, t), 1)
    ensures ok && uniform ==> forall t :: 0 <= t < 14 ==> image.sizes[t] == image.capacity
    ensures ok && uniform ==> exists t :: 0 <= t < 14 && image.capacity == Max(Wanted(conf, vars, t), 1)
  {
    var counts := Counts(conf, vars, uniform);
    ok := image.Alloc(counts[..], granted);
    if ok {
      image.FillNullPointers();
      forall v | v in vars && TableFor(v.area, v.size) < TABLES
        ensures v.byteIndex < image.sizes[TableFor(v.area, v.size)]
      {
        EveryVariableFits(conf, vars, image.sizes, v);
      }
    }
  }
}
