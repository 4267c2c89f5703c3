/** The journal numbers the fourteen tables differently from the image; the map between the two
    numberings, against the addresses both are for. */
module TableOrders {
  import opened Bytes
  import opened ImageModel
  import I = ImageSizing
  import S = ScanCycle
  import Q = DebugQueue
  import F = ImageConf

  /** The image's number of a journal table. */
  function ToImage(kind: nat): nat
    requires kind < JOURNAL_TYPE_COUNT
  {
    match kind
    case 0 => 0 case 1 => 1 case 2 => 13 case 3 => 2 case 4 => 3 case 5 => 4 case 6 => 5
    case 7 => 10 case 8 => 6 case 9 => 7 case 10 => 11 case 11 => 8 case 12 => 9 case _ => 12
  }

  function AreaOf(a: S.Area): I.Area {
    match a case Input => I.Input case Output => I.Output case Memory => I.Memory
  }

  function SizeOf(s: S.Size): I.Size {
    match s case Bit => I.Bit case Byte => I.Byte case Word => I.Word case DWord => I.DWord case LWord => I.LWord
  }

  /** No two journal tables are one image table, and BOOL tables are BOOL tables. */
  lemma ToImageIsOneToOne(k: nat, l: nat)
    requires k < JOURNAL_TYPE_COUNT && l < JOURNAL_TYPE_COUNT
    ensures ToImage(k) < I.TABLES && (ToImage(k) == ToImage(l) ==> k == l)
    ensures IsBool(k) <==> I.IsBool(ToImage(k))
  {
  }

  /** Every address is stored, sized and journalled in one and the same table: the one copy-in reads
      and the one the allocator sized; copy-out writes it too, but for byte memory, which has none. */
  lemma OneTablePerAddress(v: S.LocatedVar)
    ensures I.TableFor(AreaOf(v.area), SizeOf(v.size)) ==
            if S.IsMemoryByte(v) then I.TABLES else ToImage(S.ReadKind(v))
    ensures !v.area.Input? ==> (S.WriteKind(v) == S.ReadKind(v) <==> !S.IsMemoryByte(v))
  {
  }

  /** The file's keys are in the image's order: each names the size and the area its table is for. */
  lemma KeyNamesItsAddress(v: I.LocatedVar)
    requires I.TableFor(v.area, v.size) < I.TABLES
    ensures F.Key(I.TableFor(v.area, v.size)) ==
            match v.area
            case Input =>
              (match v.size case Bit => "bool_input" case Byte => "byte_input" case Word => "int_input"
                            case DWord => "dint_input" case LWord => "lint_input")
            case Output =>
              (match v.size case Bit => "bool_output" case Byte => "byte_output" case Word => "int_output"
                            case DWord => "dint_output" case LWord => "lint_output")
            case Memory =>
              (match v.size case Bit => "bool_memory" case Byte => "" case Word => "int_memory"
                            case DWord => "dint_memory" case LWord => "lint_memory")
    ensures F.Unit(I.TableFor(v.area, v.size)) ==
            match v.size case Bit => "bits" case Byte => "bytes" case Word => "words" case DWord => "dwords"
                         case LWord => "lwords"
  {
  }

  /** The address of a variable as the program reports it: areas and sizes by number. */
  function LocationOf(v: S.LocatedVar): Q.Location {
    Q.Location(match v.area case Input => 0 case Output => 1 case Memory => 2,
               match v.size case Bit => 0 case Byte => 1 case Word => 2 case DWord => 3 case LWord => 4,
               v.byteIndex, v.bitIndex)
  }

  /** The debugger's queue writes and forces in the very table copy-in reads; where it does not, for
      byte memory, it uses the one copy-out writes. */
  lemma QueueUsesTheSameTable(v: S.LocatedVar)
    ensures Q.JournalKind(LocationOf(v).area, LocationOf(v).size) ==
            Q.Kind(if S.IsMemoryByte(v) then S.WriteKind(v) else S.ReadKind(v))
    ensures !S.IsMemoryByte(v) ==> Q.SlotOfLocation(LocationOf(v)) == S.SlotOfVar(v)
  {
  }

  lemma {:induction false} PayloadFits(bytes: seq<byte>, n: nat)
    requires |bytes| <= n
    ensures Little(bytes) < Pow256(n)
  {
    if bytes != [] {
      PayloadFits(bytes[1..], n - 1);
    }
  }

  lemma DecodedFits(bytes: seq<byte>, v: S.LocatedVar)
    requires !S.IsMemoryByte(v)
    ensures Q.Decoded(bytes, LocationOf(v).size) < Modulus(S.ReadKind(v))
  {
    var size := LocationOf(v).size;
    var n := if Q.PayloadBytes(size) > |bytes| then |bytes| else Q.PayloadBytes(size);
    PayloadFits(bytes[..n], Q.PayloadBytes(size));
    assert Pow256(0) == 1 && Pow256(1) == 256 && Pow256(2) == 65536;
    assert Pow256(4) == 256 * (256 * Pow256(2)) && Pow256(8) == 256 * (256 * (256 * (256 * Pow256(4))));
  }

  /** An external write to a located variable lands, when the journal is drained, as its whole
      payload in the slot that the next copy-in reads. */
  lemma WriteReachesItsVariable(p: Q.Program, w: Q.World, r: Q.Request, v: S.LocatedVar)
    requires ValidCore(w.core) && r.leaf in p.located && p.located[r.leaf] == LocationOf(v) && r.op == 0
    requires S.SlotOfVar(v) in w.core.cells && S.SlotOfVar(v) !in w.core.forced
    ensures var t := Q.Handle(p, w, r);
            && |t.journalled| == |w.journalled| + 1 && w.journalled <= t.journalled
            && var e := t.journalled[|w.journalled|];
               && S.ImageRead(ApplyEntry(w.core, e), v) == Q.Decoded(r.bytes, LocationOf(v).size)
               && e.bit == if v.size.Bit? then v.bitIndex else 0xFF
  {
    QueueUsesTheSameTable(v);
    DecodedFits(r.bytes, v);
    TableWidths(S.ReadKind(v), Q.Decoded(r.bytes, LocationOf(v).size));
  }

  /** A bit that no row has is neither written nor forced. */
  lemma NoSuchBit(p: Q.Program, w: Q.World, r: Q.Request, v: S.LocatedVar)
    requires ValidCore(w.core) && r.leaf in p.located && p.located[r.leaf] == LocationOf(v)
    requires v.size.Bit? && v.bitIndex >= 8 && r.op != 2
    ensures Q.Handle(p, w, r) == w
  {
  }

  /** A force that is accepted is what the next copy-in reads. */
  lemma ForceReachesItsVariable(p: Q.Program, w: Q.World, r: Q.Request, v: S.LocatedVar)
    requires ValidCore(w.core) && r.leaf in p.located && p.located[r.leaf] == LocationOf(v) && r.op == 1
    requires S.SlotOfVar(v) in w.core.cells && v.byteIndex < w.core.rowLen
    ensures var t := Q.Handle(p, w, r);
            S.SlotOfVar(v) in t.core.forced && S.ImageRead(t.core, v) == Q.Decoded(r.bytes, LocationOf(v).size)
  {
    QueueUsesTheSameTable(v);
    DecodedFits(r.bytes, v);
    TableWidths(S.ReadKind(v), Q.Decoded(r.bytes, LocationOf(v).size));
  }
}
