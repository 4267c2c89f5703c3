/** External writes and forces from the debugger and OPC-UA: a bounded queue filled by
    any thread and drained by the dispatcher, which routes each request either to the
    program's variable or to its image slot, or, for a force, to both. */
module DebugQueue {
  import opened Bytes
  import opened ImageModel

  const DBGW_MAX_ENTRIES: nat := 128
  const DBGW_MAX_BYTES: nat := 256

  const OP_WRITE: nat := 0
  const OP_FORCE: nat := 1
  const OP_UNFORCE: nat := 2

  const SZ_BIT: nat := 0
  const SZ_BYTE: nat := 1
  const SZ_WORD: nat := 2
  const SZ_DWORD: nat := 3
  const SZ_LWORD: nat := 4

  const AREA_INPUT: nat := 0
  const AREA_OUTPUT: nat := 1

  /** A debug leaf, and where a located one lives. */
  datatype Leaf = Leaf(arr: nat, elem: nat)
  datatype Location = Location(area: nat, size: nat, byteIndex: nat, bitIndex: nat)

  datatype Request = Request(leaf: Leaf, op: nat, bytes: seq<byte>)

  /** The journal table of an address; no answer for a size there is no table for. */
  datatype Mapped = Unmappable | Kind(kind: nat)

  function JournalKind(area: nat, size: nat): Mapped {
    if size == SZ_BIT then
      Kind(if area == AREA_INPUT then BOOL_INPUT else if area == AREA_OUTPUT then BOOL_OUTPUT else BOOL_MEMORY)
    else if size == SZ_BYTE then
      Kind(if area == AREA_INPUT then BYTE_INPUT else BYTE_OUTPUT)
    else if size == SZ_WORD then
      Kind(if area == AREA_INPUT then INT_INPUT else if area == AREA_OUTPUT then INT_OUTPUT else INT_MEMORY)
    else if size == SZ_DWORD then
      Kind(if area == AREA_INPUT then DINT_INPUT else if area == AREA_OUTPUT then DINT_OUTPUT else DINT_MEMORY)
    else if size == SZ_LWORD then
      Kind(if area == AREA_INPUT then LINT_INPUT else if area == AREA_OUTPUT then LINT_OUTPUT else LINT_MEMORY)
    else Unmappable
  }

  // ---- Payloads ----------------------------------------------------------------------

  /** How many payload bytes a located size reads. */
  function PayloadBytes(size: nat): nat {
    if size == SZ_BIT || size == SZ_BYTE then 1
    else if size == SZ_WORD then 2
    else if size == SZ_DWORD then 4
    else 8
  }

  /** The value of a payload: little-endian over the width, short payloads read as
      far as they go, and one bit for a BOOL. */
  function Decoded(bytes: seq<byte>, size: nat): nat {
    var n := if PayloadBytes(size) > |bytes| then |bytes| else PayloadBytes(size);
    if size == SZ_BIT then Little(bytes[..n]) % 2 else Little(bytes[..n])
  }

  /** A payload is read in full over the width of its size, lowest byte first; of a BOOL, one bit. */
  lemma PayloadByWidth(bytes: seq<byte>)
    ensures |bytes| >= 1 ==> Decoded(bytes, 0) == bytes[0] as int % 2 && Decoded(bytes, 1) == bytes[0] as int
    ensures |bytes| >= 2 ==> Decoded(bytes, 2) == bytes[0] as int + 256 * bytes[1] as int
    ensures |bytes| >= 4 ==> Decoded(bytes, 3) == Little(bytes[..4])
    ensures |bytes| >= 8 ==> Decoded(bytes, 4) == Little(bytes[..8])
    ensures |bytes| < 2 ==> Decoded(bytes, 2) == Little(bytes)
    ensures |bytes| < 4 ==> Decoded(bytes, 3) == Little(bytes)
    ensures |bytes| < 8 ==> Decoded(bytes, 4) == Little(bytes)
  {
    if |bytes| >= 1 {
      assert bytes[..1][1..] == [];
      assert Little(bytes[..1]) == bytes[0] as int;
    }
    if |bytes| >= 2 {
      assert bytes[..2][1..] == [bytes[1]] && [bytes[1]][1..] == [];
    }
    assert bytes[..|bytes|] == bytes;
  }

  method DecodeValue(bytes: seq<byte>, size: nat) returns (v: nat)
    ensures v == Decoded(bytes, size)
  {
    var n := PayloadBytes(size);
    if n > |bytes| {
      n := |bytes|;
    }
    v := 0;
    var scale: nat := 1;
    var i := 0;
    while i < n && i < 8
      invariant 0 <= i <= n <= |bytes| && n <= 8
      invariant scale == Pow256(i) && v == Little(bytes[..i])
    {
      LittleSnoc(bytes[..i], bytes[i]);
      assert bytes[..i] + [bytes[i]] == bytes[..i + 1];
      v := v + scale * bytes[i];
      scale := 256 * scale;
      i := i + 1;
    }
    if size == SZ_BIT {
      v := v % 2;
    }
  }

  // ---- What a request does -------------------------------------------------------------

  /** The program around the queue: where leaves are located, and what its setter turns down:
      which leaf, whether a force or a release, and with what payload. */
  datatype Program = Program(located: map<Leaf, Location>, refuses: (Leaf, bool, seq<byte>) -> bool)

  /** The image, the variables pinned in the program, the located writes handed to the
      journal, and the variable writes handed to the program. */
  datatype World = World(core: Core, pinned: set<Leaf>, journalled: seq<Entry>, written: seq<Request>)

  /** A release is passed on without a payload. */
  function SetForced(p: Program, w: World, leaf: Leaf, forcing: bool, bytes: seq<byte>): World {
    if p.refuses(leaf, forcing, bytes) then w
    else if forcing then w.(pinned := w.pinned + {leaf})
    else w.(pinned := w.pinned - {leaf})
  }

  function ApplyLocated(p: Program, w: World, r: Request, at: Location): World {
    match JournalKind(at.area, at.size)
    case Unmappable => w
    case Kind(kind) =>
      var value := Decoded(r.bytes, at.size);
      if r.op == OP_WRITE then
        if IsBool(kind) && at.bitIndex > 7 then w
        else
          var bit := if IsBool(kind) then at.bitIndex else 0xFF;
          w.(journalled := w.journalled + [Entry(kind, at.byteIndex, bit, value)])
      else if r.op == OP_FORCE then
        if Forceable(w.core, kind, at.byteIndex, at.bitIndex)
        then SetForced(p, w.(core := ForceSet(w.core, kind, at.byteIndex, at.bitIndex, value)), r.leaf, true, r.bytes)
        else w
      else if r.op == OP_UNFORCE then
        SetForced(p, w.(core := ForceClear(w.core, kind, at.byteIndex, at.bitIndex)), r.leaf, false, [])
      else w
  }

  function ApplyGlobal(p: Program, w: World, r: Request): World {
    if r.op == OP_WRITE then w.(written := w.written + [r])
    else if r.op == OP_FORCE then SetForced(p, w, r.leaf, true, r.bytes)
    else if r.op == OP_UNFORCE then SetForced(p, w, r.leaf, false, [])
    else w
  }

  function Handle(p: Program, w: World, r: Request): World {
    if r.leaf in p.located then ApplyLocated(p, w, r, p.located[r.leaf]) else ApplyGlobal(p, w, r)
  }

  function HandleAll(p: Program, w: World, rs: seq<Request>): World
    decreases rs
  {
    if rs == [] then w else HandleAll(p, Handle(p, w, rs[0]), rs[1..])
  }

  lemma {:induction false} HandleAllConcat(p: Program, w: World, a: seq<Request>, b: seq<Request>)
    ensures HandleAll(p, w, a + b) == HandleAll(p, HandleAll(p, w, a), b)
    decreases a
  {
    if a == [] {
      assert a + b == b;
    } else {
      assert (a + b)[1..] == a[1..] + b;
      HandleAllConcat(p, Handle(p, w, a[0]), a[1..], b);
    }
  }

  /** A request as the queue keeps it: a payload longer than its field is cut to fit. */
  function Stored(leaf: Leaf, op: nat, bytes: seq<byte>): (r: Request)
    ensures r.leaf == leaf && r.op == op && r.bytes <= bytes
    ensures |r.bytes| <= 256 && (|bytes| <= 256 ==> r.bytes == bytes) && (|bytes| > 256 ==> |r.bytes| == 256)
  {
    Request(leaf, op, if |bytes| > DBGW_MAX_BYTES then bytes[..DBGW_MAX_BYTES] else bytes)
  }

  class Queue {
    const entries: array<Request>
    var count: nat
    var overflowLogged: bool

    ghost predicate Valid()
      reads this
    {
      entries.Length == DBGW_MAX_ENTRIES && count <= DBGW_MAX_ENTRIES
    }

    ghost function Pending(): seq<Request>
      requires Valid()
      reads this, entries
    {
      entries[..count]
    }

    constructor ()
      ensures Valid() && fresh(entries) && Pending() == []
    {
      entries := new Request[DBGW_MAX_ENTRIES](i => Request(Leaf(0, 0), OP_WRITE, []));
      count := 0;
      overflowLogged := false;
    }

    method Enqueue(leaf: Leaf, op: nat, bytes: seq<byte>) returns (ok: bool)
      requires Valid()
      modifies this, entries
      ensures Valid()
      ensures ok <==> |old(Pending())| < 128
      ensures Pending() == old(Pending()) + if ok then [Stored(leaf, op, bytes)] else []
    {
      if count >= DBGW_MAX_ENTRIES {
        overflowLogged := true;
        return false;
      }
      entries[count] := Stored(leaf, op, bytes);
      count := count + 1;
      ok := true;
    }

    /** Everything accepted since the last drain is applied once, oldest first. */
    method Drain(p: Program, w: World) returns (w': World)
      requires Valid()
      modifies this
      ensures Valid() && Pending() == []
      ensures w' == HandleAll(p, w, old(Pending()))
    {
      w' := w;
      if count == 0 {
        return;
      }
      var i := 0;
      while i < count
        invariant 0 <= i <= count && Valid() && count == old(count)
        invariant w' == HandleAll(p, w, entries[..i])
      {
        HandleAllConcat(p, w, entries[..i], [entries[i]]);
        assert entries[..i] + [entries[i]] == entries[..i + 1];
        w' := Handle(p, w', entries[i]);
        i := i + 1;
      }
      count := 0;
      overflowLogged := false;
    }
  }

  // ---- The two pins -----------------------------------------------------------------------

  function SlotOfLocation(at: Location): Slot {
    match JournalKind(at.area, at.size)
    case Unmappable => Slot(JOURNAL_TYPE_COUNT, at.byteIndex, at.bitIndex)
    case Kind(kind) => SlotOf(kind, at.byteIndex, at.bitIndex)
  }

  predicate CanBeForced(c: Core, at: Location) {
    SlotOfLocation(at) in c.cells && at.byteIndex < c.rowLen
  }

  /** No two located leaves share an image slot. */
  ghost predicate DistinctAddresses(p: Program) {
    forall a, b :: a in p.located && b in p.located && a != b ==>
      SlotOfLocation(p.located[a]) != SlotOfLocation(p.located[b])
  }

  /** One step of the dispatcher under the image lock: a request, or a drained write. */
  datatype Step = Serve(request: Request) | Land(entry: Entry)

  /** The requests of a run are as the queue keeps them. */
  predicate AsQueued(steps: seq<Step>) {
    forall s :: s in steps && s.Serve? ==> |s.request.bytes| <= DBGW_MAX_BYTES
  }

  /** The setter turns down neither a release of the leaf nor any force of it that the queue can
      hold. */
  ghost predicate Obeys(p: Program, leaf: Leaf) {
    && !p.refuses(leaf, false, [])
    && forall bytes :: |bytes| <= DBGW_MAX_BYTES ==> !p.refuses(leaf, true, bytes)
  }

  function Take(p: Program, w: World, s: Step): World {
    match s
    case Serve(r) => Handle(p, w, r)
    case Land(e) => w.(core := ApplyEntry(w.core, e))
  }

  function TakeAll(p: Program, w: World, steps: seq<Step>): World
    decreases steps
  {
    if steps == [] then w else TakeAll(p, Take(p, w, steps[0]), steps[1..])
  }

  /** The debugger's pin and the image's pin say the same thing about a leaf. */
  predicate PinsAgree(p: Program, w: World, leaf: Leaf)
    requires leaf in p.located
  {
    leaf in w.pinned <==> SlotOfLocation(p.located[leaf]) in w.core.forced
  }

  ghost predicate CoreKept(w: World, w': World) {
    w'.core.cells.Keys == w.core.cells.Keys && w'.core.rowLen == w.core.rowLen && w'.core.caps == w.core.caps
  }

  /** Only a force or release of a leaf's own slot changes whether it is forced, and
      only a request for the leaf itself changes whether it is pinned. */
  lemma RequestKeepsAgreement(p: Program, w: World, r: Request, leaf: Leaf)
    requires DistinctAddresses(p) && leaf in p.located && PinsAgree(p, w, leaf)
    requires |r.bytes| <= DBGW_MAX_BYTES
    requires Obeys(p, leaf) || !CanBeForced(w.core, p.located[leaf])
    requires forall s :: s in w.core.forced ==> s in w.core.cells && s.index < w.core.rowLen
    ensures PinsAgree(p, Handle(p, w, r), leaf)
  {
    if r.leaf in p.located && r.leaf != leaf {
      assert SlotOfLocation(p.located[r.leaf]) != SlotOfLocation(p.located[leaf]);
    }
  }

  /** What a request does to the image is at most one force or release. */
  function ImageOp(p: Program, r: Request): Op {
    if r.leaf !in p.located then Write(Entry(JOURNAL_TYPE_COUNT, 0, 0, 0))
    else
      var at := p.located[r.leaf];
      match JournalKind(at.area, at.size)
      case Unmappable => Write(Entry(JOURNAL_TYPE_COUNT, 0, 0, 0))
      case Kind(k) =>
        if r.op == OP_FORCE then Force(k, at.byteIndex, at.bitIndex, Decoded(r.bytes, at.size))
        else if r.op == OP_UNFORCE then Unforce(k, at.byteIndex, at.bitIndex)
        else Write(Entry(JOURNAL_TYPE_COUNT, 0, 0, 0))
  }

  lemma RequestActsOnImage(p: Program, w: World, r: Request)
    requires ValidCore(w.core)
    ensures Handle(p, w, r).core == Apply(w.core, ImageOp(p, r))
  {
  }

  function OpOf(p: Program, s: Step): Op {
    match s
    case Serve(r) => ImageOp(p, r)
    case Land(e) => Write(e)
  }

  function Ops(p: Program, steps: seq<Step>): seq<Op> {
    if steps == [] then [] else [OpOf(p, steps[0])] + Ops(p, steps[1..])
  }

  /** What a run does to the image is the run of its forces, releases and drained writes. */
  lemma {:induction false} RunActsOnImage(p: Program, w: World, steps: seq<Step>)
    requires ValidCore(w.core)
    ensures TakeAll(p, w, steps).core == Run(w.core, Ops(p, steps))
    decreases steps
  {
    if steps != [] {
      var op, rest := OpOf(p, steps[0]), Ops(p, steps[1..]);
      if steps[0].Serve? {
        RequestActsOnImage(p, w, steps[0].request);
      }
      ApplyKeepsValid(w.core, op);
      RunActsOnImage(p, Take(p, w, steps[0]), steps[1..]);
      assert ([op] + rest)[1..] == rest;
    }
  }

  lemma StepKeepsAgreement(p: Program, w: World, s: Step, leaf: Leaf)
    requires DistinctAddresses(p) && ValidCore(w.core) && leaf in p.located && PinsAgree(p, w, leaf)
    requires Obeys(p, leaf) || !CanBeForced(w.core, p.located[leaf])
    requires s.Serve? ==> |s.request.bytes| <= DBGW_MAX_BYTES
    ensures ValidCore(Take(p, w, s).core) && CoreKept(w, Take(p, w, s)) && PinsAgree(p, Take(p, w, s), leaf)
  {
    match s {
      case Serve(r) =>
        RequestActsOnImage(p, w, r);
        ApplyKeepsValid(w.core, ImageOp(p, r));
        RequestKeepsAgreement(p, w, r, leaf);
      case Land(e) =>
        ApplyKeepsValid(w.core, Write(e));
    }
  }

  lemma {:induction false} RunKeepsAgreement(p: Program, w: World, steps: seq<Step>, leaf: Leaf)
    requires DistinctAddresses(p) && ValidCore(w.core) && leaf in p.located && PinsAgree(p, w, leaf)
    requires Obeys(p, leaf) || !CanBeForced(w.core, p.located[leaf])
    requires AsQueued(steps)
    ensures PinsAgree(p, TakeAll(p, w, steps), leaf)
    decreases steps
  {
    if steps != [] {
      assert steps[0] in steps;
      StepKeepsAgreement(p, w, steps[0], leaf);
      RunKeepsAgreement(p, Take(p, w, steps[0]), steps[1..], leaf);
    }
  }

  /** A write goes to the image's journal or to the program and nowhere else, and changes neither the
      image nor a pin; a force or a release queues nothing; any other operation does nothing. */
  lemma RequestStaysInItsLane(p: Program, w: World, r: Request)
    ensures var t := Handle(p, w, r);
            && (r.op == 0 ==> t.core == w.core && t.pinned == w.pinned)
            && (r.op == 0 && r.leaf !in p.located ==> t.journalled == w.journalled && t.written == w.written + [r])
            && (r.op == 0 && r.leaf in p.located ==> w.journalled <= t.journalled && t.written == w.written)
            && (r.op in {1, 2} ==> t.journalled == w.journalled && t.written == w.written)
            && (r.op > 2 ==> t == w)
  {
  }

  /** A force pins exactly when the image took it, if the variable has a slot, and the setter does not
      refuse; a release unpins exactly when the setter does not refuse. */
  lemma RequestPinsExactlyWhen(p: Program, w: World, r: Request)
    requires r.leaf in p.located ==> JournalKind(p.located[r.leaf].area, p.located[r.leaf].size).Kind?
    ensures var t := Handle(p, w, r);
            && t.pinned - {r.leaf} == w.pinned - {r.leaf}
            && (r.op == 1 ==> (r.leaf in t.pinned <==>
                  || r.leaf in w.pinned
                  || (!p.refuses(r.leaf, true, r.bytes) &&
                      (r.leaf in p.located ==> CanBeForced(w.core, p.located[r.leaf])))))
            && (r.op == 2 ==> (r.leaf in t.pinned <==> r.leaf in w.pinned && p.refuses(r.leaf, false, [])))
  {
  }

  /** A force that the setter turns down stays in the image; so does a pin whose release it turns
      down stay in the program. */
  lemma DisobedienceShows(p: Program, w: World, leaf: Leaf) returns (steps: seq<Step>)
    requires ValidCore(w.core) && leaf in p.located && w.pinned == {} && w.core.forced == {}
    requires !Obeys(p, leaf) && CanBeForced(w.core, p.located[leaf])
    ensures AsQueued(steps) && !PinsAgree(p, TakeAll(p, w, steps), leaf)
  {
    if bytes :| |bytes| <= DBGW_MAX_BYTES && p.refuses(leaf, true, bytes) {
      steps := [Serve(Request(leaf, OP_FORCE, bytes))];
      assert steps[1..] == [];
      assert TakeAll(p, w, steps) == Take(p, w, steps[0]);
    } else {
      var force, release := Serve(Request(leaf, OP_FORCE, [])), Serve(Request(leaf, OP_UNFORCE, []));
      steps := [force, release];
      var w1 := Take(p, w, force);
      assert steps[1..] == [release] && [release][1..] == [];
      assert TakeAll(p, w, steps) == TakeAll(p, w1, [release]) == Take(p, w1, release);
    }
  }

  /** The addresses have to be distinct for that: where two leaves share a slot, forcing one pins the
      slot of the other. */
  lemma SharedSlotSplitsPins(p: Program, w: World) returns (leaf: Leaf, steps: seq<Step>)
    requires ValidCore(w.core) && w.pinned == {} && w.core.forced == {} && !DistinctAddresses(p)
    requires forall l :: l in p.located ==> Obeys(p, l) && CanBeForced(w.core, p.located[l])
    ensures leaf in p.located && AsQueued(steps) && !PinsAgree(p, TakeAll(p, w, steps), leaf)
  {
    var a, b :| a in p.located && b in p.located && a != b
                && SlotOfLocation(p.located[a]) == SlotOfLocation(p.located[b]);
    leaf := b;
    steps := [Serve(Request(a, OP_FORCE, []))];
    assert steps[1..] == [];
    assert TakeAll(p, w, steps) == Take(p, w, steps[0]);
  }

  /** From a start with nothing forced, the two pins of a located leaf agree after every run of
      requests and drained writes exactly when its setter obeys or its slot is outside the image:
      a force goes to the image first, but a refusal by the setter afterwards is not undone. */
  lemma TwoPinsAgreeExactlyWhen(p: Program, w: World, leaf: Leaf)
    requires DistinctAddresses(p) && ValidCore(w.core) && leaf in p.located
    requires w.pinned == {} && w.core.forced == {}
    ensures (forall steps :: AsQueued(steps) ==> PinsAgree(p, TakeAll(p, w, steps), leaf))
            <==> (Obeys(p, leaf) || !CanBeForced(w.core, p.located[leaf]))
  {
    if Obeys(p, leaf) || !CanBeForced(w.core, p.located[leaf]) {
      forall steps | AsQueued(steps) ensures PinsAgree(p, TakeAll(p, w, steps), leaf) {
        RunKeepsAgreement(p, w, steps, leaf);
      }
    } else {
      var steps := DisobedienceShows(p, w, leaf);
    }
  }
}
