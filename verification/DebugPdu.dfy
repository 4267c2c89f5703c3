/** The debugger's request handler. A request arrives in a frame buffer and the response is
    built in the same buffer; reads that do not fit are cut off, and the client resumes. */
module DebugPdu {
  import opened Options
  import opened Bytes

  const MAX_FRAME: nat := 4096
  const HDR: nat := 10
  const MAX_ENTRIES: nat := 1024
  const MD5_LEN: nat := 32

  const FC_INFO: byte := 0x41
  const FC_SET: byte := 0x42
  const FC_GET: byte := 0x43
  const FC_GET_LIST: byte := 0x44
  const FC_GET_MD5: byte := 0x45

  const SUCCESS: byte := 0x7E
  const OUT_OF_BOUNDS: byte := 0x81
  const OUT_OF_MEMORY: byte := 0x82
  const NOT_LOADED: byte := 0x83

  /** A debug address: array and element. */
  datatype Address = Address(arr: nat, elem: nat)

  /** What the loaded program exports: the element count of each array, the declared size of
      a variable and the bytes a read of it gives now. */
  datatype Program = Program(
    loaded: bool,
    counts: seq<nat>,
    size: Address -> nat,
    bytes: Address -> seq<byte>,
    md5: Option<seq<byte>>)

  /** Counts and sizes fit their C types, and no read is longer than the declared size. */
  ghost predicate Behaves(p: Program) {
    && |p.counts| < 256
    && (forall i :: 0 <= i < |p.counts| ==> p.counts[i] < 0x1_0000)
    && (forall a :: |p.bytes(a)| <= p.size(a) < 0x1_0000)
  }

  function U16(hi: byte, lo: byte): (n: nat)
    ensures n < 0x1_0000
  {
    hi * 256 + lo
  }

  lemma TwoBytesAreBigEndian()
    ensures U16(0x12, 0x34) == 0x1234
  {
  }

  // ---- What a batch of reads collects ------------------------------------------------------

  /** Zero for an array the program does not have. */
  function Size(p: Program, a: Address): nat {
    if a.arr < |p.counts| then p.size(a) else 0
  }

  /** The bytes collected, and the index of the last item dealt with. */
  datatype Batch = Batch(data: seq<byte>, last: nat)

  /** Reads the items in order and stops at the first whose declared size does not fit. */
  function Collect(p: Program, items: seq<Address>, i: nat, data: seq<byte>, last: nat): Batch
    requires i <= |items|
    decreases |items| - i
  {
    if i == |items| then Batch(data, last)
    else if Size(p, items[i]) == 0 then Collect(p, items, i + 1, data, i)
    else if HDR + |data| + Size(p, items[i]) > MAX_FRAME then Batch(data, last)
    else Collect(p, items, i + 1, data + p.bytes(items[i]), i)
  }

  /** A variable no response has room for. */
  predicate Oversize(p: Program, a: Address) { a.arr < |p.counts| && p.size(a) > 4086 }

  function ValueOf(p: Program, a: Address): seq<byte> {
    if a.arr < |p.counts| && p.size(a) > 0 then p.bytes(a) else []
  }

  /** Every readable variable once, in order. */
  function Readable(p: Program, items: seq<Address>): seq<byte> {
    if items == [] then [] else Readable(p, items[..|items| - 1]) + ValueOf(p, items[|items| - 1])
  }

  function Part(p: Program, a: Address): seq<byte> {
    if Oversize(p, a) then [] else ValueOf(p, a)
  }

  /** The same without the oversize ones. */
  function Fitting(p: Program, items: seq<Address>): seq<byte> {
    if items == [] then [] else Fitting(p, items[..|items| - 1]) + Part(p, items[|items| - 1])
  }

  /** Reading stopped because the next item does not fit, or the first one fits no response. */
  predicate StoppedForRoom(p: Program, items: seq<Address>, b: Batch) {
    || (b.last + 1 < |items| && items[b.last + 1].arr < |p.counts| && |b.data| + p.size(items[b.last + 1]) > 4086)
    || (b.last == 0 < |items| && Oversize(p, items[0]))
  }

  /** The items up to the last one dealt with have been read, all but the oversize, and no more are
      left than there is room for. */
  lemma {:induction false} CollectReadsAPrefix(p: Program, items: seq<Address>, i: nat, data: seq<byte>, last: nat)
    requires Behaves(p) && i <= |items| && items != [] && HDR + |data| <= MAX_FRAME
    requires data == Fitting(p, items[..i]) && last == (if i == 0 then 0 else i - 1)
    ensures var b := Collect(p, items, i, data, last);
            b.last < |items| && HDR + |b.data| <= MAX_FRAME && b.data == Fitting(p, items[..b.last + 1])
            && (b.last + 1 == |items| || StoppedForRoom(p, items, b))
    decreases |items| - i
  {
    if i < |items| {
      var a := items[i];
      assert items[..i + 1][..i] == items[..i];
      if Size(p, a) == 0 {
        CollectReadsAPrefix(p, items, i + 1, data, i);
      } else if HDR + |data| + Size(p, a) <= MAX_FRAME {
        CollectReadsAPrefix(p, items, i + 1, data + p.bytes(a), i);
      } else if i == 0 {
        assert data == [] && Oversize(p, a);
      }
    }
  }

  lemma {:induction false} FittingConcat(p: Program, first: seq<Address>, second: seq<Address>)
    ensures Fitting(p, first + second) == Fitting(p, first) + Fitting(p, second)
    decreases second
  {
    var whole := first + second;
    if second == [] {
      assert whole == first;
    } else {
      var rest, part := second[..|second| - 1], Part(p, second[|second| - 1]);
      FittingConcat(p, first, rest);
      assert whole[..|whole| - 1] == first + rest && whole[|whole| - 1] == second[|second| - 1];
      assert Fitting(p, first) + (Fitting(p, rest) + part) == (Fitting(p, first) + Fitting(p, rest)) + part;
    }
  }

  /** A client's whole session: ask, take the data, ask again after the last item. */
  function Session(p: Program, items: seq<Address>): seq<byte>
    requires Behaves(p)
    decreases |items|
  {
    if items == [] then []
    else
      var b := Collect(p, items, 0, [], 0);
      CollectReadsAPrefix(p, items, 0, [], 0);
      b.data + Session(p, items[b.last + 1..])
  }

  /** Resuming terminates and gives every variable that fits a response exactly once, in order. */
  lemma {:induction false} SessionReadsAllThatFit(p: Program, items: seq<Address>)
    requires Behaves(p)
    ensures Session(p, items) == Fitting(p, items)
    decreases |items|
  {
    if items != [] {
      var b := Collect(p, items, 0, [], 0);
      CollectReadsAPrefix(p, items, 0, [], 0);
      SessionReadsAllThatFit(p, items[b.last + 1..]);
      FittingConcat(p, items[..b.last + 1], items[b.last + 1..]);
      assert items[..b.last + 1] + items[b.last + 1..] == items;
    }
  }

  lemma {:induction false} SkippedOrNot(p: Program, items: seq<Address>)
    ensures |Fitting(p, items)| <= |Readable(p, items)|
    ensures |Fitting(p, items)| == |Readable(p, items)| <==>
            forall i :: 0 <= i < |items| && Oversize(p, items[i]) ==> ValueOf(p, items[i]) == []
    ensures |Fitting(p, items)| == |Readable(p, items)| ==> Fitting(p, items) == Readable(p, items)
    decreases |items|
  {
    if items != [] {
      var rest, a := items[..|items| - 1], items[|items| - 1];
      SkippedOrNot(p, rest);
      if forall i :: 0 <= i < |items| && Oversize(p, items[i]) ==> ValueOf(p, items[i]) == [] {
        assert forall i :: 0 <= i < |rest| ==> rest[i] == items[i];
        assert Oversize(p, a) ==> ValueOf(p, a) == [];
      }
    }
  }

  /** A session reads every readable variable exactly when none of them is oversize. */
  lemma SessionIsCompleteExactlyWhen(p: Program, items: seq<Address>)
    requires Behaves(p)
    ensures Session(p, items) == Readable(p, items) <==>
            forall i :: 0 <= i < |items| && Oversize(p, items[i]) ==> ValueOf(p, items[i]) == []
  {
    SessionReadsAllThatFit(p, items);
    SkippedOrNot(p, items);
  }

  // ---- Responses, as functions of the request ------------------------------------------------

  function Refusal(fc: byte, status: byte): seq<byte> { [fc, status] }

  function Header(fc: byte, last: nat, tick: nat, size: nat): (h: seq<byte>)
    ensures |h| == HDR
  {
    [fc, SUCCESS] + ToBig(last, 2) + ToBig(tick, 4) + ToBig(size, 2)
  }

  /** Elements first, first + 1, ... of one array, n of them. */
  function Range(arr: nat, first: nat, n: nat): (r: seq<Address>)
    ensures |r| == n
  {
    seq(n, i requires 0 <= i < n => Address(arr, first + i))
  }

  predicate RangeInBounds(p: Program, arr: nat, start: nat, end: nat) {
    arr < |p.counts| && start <= end < p.counts[arr]
  }

  function RangeResponse(p: Program, arr: nat, start: nat, end: nat, tick: nat): seq<byte>
    requires start <= end
  {
    var b := Collect(p, Range(arr, start, end + 1 - start), 0, [], 0);
    Header(FC_GET, start + b.last, tick, |b.data|) + b.data
  }

  function GetResponse(p: Program, req: seq<byte>, tick: nat): seq<byte> {
    if !p.loaded then Refusal(FC_GET, NOT_LOADED)
    else if |req| < 6 then Refusal(FC_GET, OUT_OF_BOUNDS)
    else
      var arr, start, end := req[1], U16(req[2], req[3]), U16(req[4], req[5]);
      if !RangeInBounds(p, arr, start, end) then Refusal(FC_GET, OUT_OF_BOUNDS)
      else RangeResponse(p, arr, start, end, tick)
  }

  function Entry(local: seq<byte>, i: nat): Address
    requires 3 * i + 2 < |local|
  {
    Address(local[3 * i], U16(local[3 * i + 1], local[3 * i + 2]))
  }

  function Entries(local: seq<byte>, n: nat): (r: seq<Address>)
    requires 3 * n <= |local|
    ensures |r| == n
  {
    seq(n, i requires 0 <= i < n => Entry(local, i))
  }

  function ListResponse(p: Program, req: seq<byte>, tick: nat): seq<byte> {
    if !p.loaded then Refusal(FC_GET_LIST, NOT_LOADED)
    else if |req| < 3 then Refusal(FC_GET_LIST, OUT_OF_BOUNDS)
    else
      var n := U16(req[1], req[2]);
      if n == 0 then Refusal(FC_GET_LIST, OUT_OF_BOUNDS)
      else if n > MAX_ENTRIES then Refusal(FC_GET_LIST, OUT_OF_MEMORY)
      else if |req| < 3 + 3 * n then Refusal(FC_GET_LIST, OUT_OF_BOUNDS)
      else
        var b := Collect(p, Entries(req[3..], n), 0, [], 0);
        Header(FC_GET_LIST, b.last, tick, |b.data|) + b.data
  }

  function Counts(counts: seq<nat>, n: nat): (r: seq<byte>)
    requires n <= |counts|
    ensures |r| == 2 * n
  {
    if n == 0 then [] else Counts(counts, n - 1) + ToBig(counts[n - 1], 2)
  }

  /** The room for counts, as the 8-bit variable it is kept in: 254, not 2046. */
  const MAX_ARRAYS: nat := ((MAX_FRAME - 3) / 2) % 256

  function Min(a: nat, b: nat): nat { if a < b then a else b }

  function InfoResponse(p: Program): seq<byte> {
    if !p.loaded then Refusal(FC_INFO, NOT_LOADED)
    else
      var n := Min(|p.counts|, MAX_ARRAYS);
      [FC_INFO, n % 256, SUCCESS] + Counts(p.counts, n)
  }

  /** All arrays are listed exactly when there are at most 254 of them. */
  lemma InfoListsEveryArrayExactlyWhen(p: Program)
    requires Behaves(p) && p.loaded
    ensures InfoResponse(p) == [FC_INFO, |p.counts|, SUCCESS] + Counts(p.counts, |p.counts|) <==> |p.counts| <= 254
  {
    if |p.counts| > 254 {
      assert InfoResponse(p)[1] == 254;
    }
  }

  /** A forcing request, and what it asks of the write queue. */
  datatype Forcing = Refused(status: byte) | Queue(address: Address, force: bool, value: seq<byte>)

  function SetRequest(p: Program, req: seq<byte>): Forcing {
    if !p.loaded then Refused(NOT_LOADED)
    else if |req| < 7 then Refused(OUT_OF_BOUNDS)
    else
      var arr, elem, n := req[1], U16(req[2], req[3]), U16(req[5], req[6]);
      if arr >= |p.counts| || n > MAX_FRAME - 7 || |req| < 7 + n then Refused(OUT_OF_BOUNDS)
      else Queue(Address(arr, elem), req[4] != 0, if req[4] != 0 then req[7..7 + n] else [])
  }

  function SetResponse(p: Program, req: seq<byte>, accepted: bool): seq<byte> {
    match SetRequest(p, req)
    case Refused(status) => Refusal(FC_SET, status)
    case Queue(_, _, _) => Refusal(FC_SET, if accepted then SUCCESS else OUT_OF_MEMORY)
  }

  /** Where a text ends: at its terminator, or after 32 characters. */
  function TextEnd(md5: seq<byte>, i: nat): (e: nat)
    requires i <= |md5| && i <= MD5_LEN
    ensures i <= e <= |md5| && e <= MD5_LEN
    decreases |md5| - i
  {
    if i < MD5_LEN && i < |md5| && md5[i] != 0 then TextEnd(md5, i + 1) else i
  }

  function Md5Text(md5: seq<byte>): seq<byte> {
    md5[..TextEnd(md5, 0)]
  }

  function Sentinel(bigEndian: bool): seq<byte> { if bigEndian then [0xDE, 0xAD] else [0xAD, 0xDE] }

  function Md5Response(p: Program, req: seq<byte>, bigEndian: bool): seq<byte> {
    if |req| < 3 || p.md5.None? then Refusal(FC_GET_MD5, NOT_LOADED)
    else [FC_GET_MD5, SUCCESS] + Md5Text(p.md5.value) + Sentinel(bigEndian)
  }

  /** The response to any frame; none to an empty or unknown one. */
  function Response(p: Program, req: seq<byte>, tick: nat, accepted: bool, bigEndian: bool): seq<byte> {
    if req == [] then []
    else if req[0] == FC_INFO then InfoResponse(p)
    else if req[0] == FC_SET then SetResponse(p, req, accepted)
    else if req[0] == FC_GET then GetResponse(p, req, tick)
    else if req[0] == FC_GET_LIST then ListResponse(p, req, tick)
    else if req[0] == FC_GET_MD5 then Md5Response(p, req, bigEndian)
    else []
  }

  lemma RangeFits(p: Program, arr: nat, start: nat, end: nat, tick: nat)
    requires Behaves(p) && start <= end
    ensures |RangeResponse(p, arr, start, end, tick)| <= MAX_FRAME
  {
    CollectReadsAPrefix(p, Range(arr, start, end + 1 - start), 0, [], 0);
  }

  lemma GetFits(p: Program, req: seq<byte>, tick: nat)
    requires Behaves(p)
    ensures |GetResponse(p, req, tick)| <= MAX_FRAME
  {
    if p.loaded && |req| >= 6 && RangeInBounds(p, req[1], U16(req[2], req[3]), U16(req[4], req[5])) {
      RangeFits(p, req[1], U16(req[2], req[3]), U16(req[4], req[5]), tick);
    }
  }

  lemma ListFits(p: Program, req: seq<byte>, tick: nat)
    requires Behaves(p)
    ensures |ListResponse(p, req, tick)| <= MAX_FRAME
  {
    if p.loaded && |req| >= 3 {
      var n := U16(req[1], req[2]);
      if 0 < n <= MAX_ENTRIES && |req| >= 3 + 3 * n {
        CollectReadsAPrefix(p, Entries(req[3..], n), 0, [], 0);
      }
    }
  }

  /** Every response fits the frame. */
  lemma ResponseFits(p: Program, req: seq<byte>, tick: nat, accepted: bool, bigEndian: bool)
    requires Behaves(p)
    ensures |Response(p, req, tick, accepted, bigEndian)| <= MAX_FRAME
  {
    GetFits(p, req, tick);
    ListFits(p, req, tick);
  }

  // ---- What a client finds in a response, byte by byte -----------------------------------------

  lemma BigPair(x: nat)
    requires x < 0x1_0000
    ensures var b := ToBig(x, 2); U16(b[0], b[1]) == x
  {
    var b := ToBig(x, 2);
    assert b == ToBig(x / 256, 1) + [x % 256];
    assert ToBig(x / 256, 1) == ToBig(x / 256 / 256, 0) + [x / 256 % 256];
  }

  lemma BigQuad(x: nat)
    ensures var b := ToBig(x, 4);
            U16(b[0], b[1]) * 0x1_0000 + U16(b[2], b[3]) == x % 0x1_0000_0000
  {
    var b := ToBig(x, 4);
    BigOfToBig(x, 4);
    assert Pow256(4) == 256 * Pow256(3) && Pow256(3) == 256 * Pow256(2) && Pow256(2) == 256 * Pow256(1);
    assert b[..3][..2] == b[..2] && b[..2][..1] == b[..1];
    assert Big(b[..1]) == b[0] && Big(b[..2]) == 256 * Big(b[..1]) + b[1];
    assert Big(b[..3]) == 256 * Big(b[..2]) + b[2] && Big(b) == 256 * Big(b[..3]) + b[3];
  }

  /** A served read of these items: the function code, success, the number of the last item dealt with,
      the tick modulo 2^32, the number of data bytes, and the data, as far as there was room. */
  ghost predicate ReadServed(p: Program, code: byte, items: seq<Address>, base: nat, tick: nat, r: seq<byte>) {
    && 10 <= |r| <= 4096 && r[0] == code && r[1] == 0x7E
    && base <= U16(r[2], r[3]) < base + |items|
    && U16(r[4], r[5]) * 0x1_0000 + U16(r[6], r[7]) == tick % 0x1_0000_0000
    && U16(r[8], r[9]) == |r| - 10
    && var last := U16(r[2], r[3]) - base;
       && r[10..] == Fitting(p, items[..last + 1])
       && (last + 1 == |items| || StoppedForRoom(p, items, Batch(r[10..], last)))
  }

  lemma ReadIsServed(p: Program, code: byte, items: seq<Address>, base: nat, tick: nat)
    requires Behaves(p) && items != [] && base + |items| <= 0x1_0000
    ensures var b := Collect(p, items, 0, [], 0);
            ReadServed(p, code, items, base, tick, Header(code, base + b.last, tick, |b.data|) + b.data)
  {
    var b := Collect(p, items, 0, [], 0);
    CollectReadsAPrefix(p, items, 0, [], 0);
    var h := Header(code, base + b.last, tick, |b.data|);
    BigPair(base + b.last);
    BigPair(|b.data|);
    BigQuad(tick);
    var last, t, size := ToBig(base + b.last, 2), ToBig(tick, 4), ToBig(|b.data|, 2);
    assert h[0] == code && h[1] == 0x7E && h[2] == last[0] && h[3] == last[1];
    assert h[4] == t[0] && h[5] == t[1] && h[6] == t[2] && h[7] == t[3] && h[8] == size[0] && h[9] == size[1];
    assert (h + b.data)[10..] == b.data;
  }

  /** Request 0x43: array, first and last element. */
  ghost predicate GetServed(p: Program, req: seq<byte>, tick: nat, r: seq<byte>) {
    if !p.loaded then r == [0x43, 0x83]
    else if |req| < 6 then r == [0x43, 0x81]
    else
      var arr, start, end := req[1], U16(req[2], req[3]), U16(req[4], req[5]);
      if arr < |p.counts| && start <= end < p.counts[arr]
      then ReadServed(p, 0x43, Range(arr, start, end + 1 - start), start, tick, r)
      else r == [0x43, 0x81]
  }

  /** The addresses of a list are those of its bytes, three for each. */
  ghost predicate Lists(req: seq<byte>, items: seq<Address>)
    requires |req| >= 3 + 3 * |items|
  {
    forall i :: 0 <= i < |items| ==> items[i] == Address(req[3 + 3 * i], U16(req[4 + 3 * i], req[5 + 3 * i]))
  }

  /** Request 0x44: a number of addresses, at most 1024, and the addresses. */
  ghost predicate ListServed(p: Program, req: seq<byte>, tick: nat, r: seq<byte>) {
    if !p.loaded then r == [0x44, 0x83]
    else if |req| < 3 then r == [0x44, 0x81]
    else
      var n := U16(req[1], req[2]);
      if n > 1024 then r == [0x44, 0x82]
      else if n == 0 || |req| < 3 + 3 * n then r == [0x44, 0x81]
      else exists items :: |items| == n && Lists(req, items) && ReadServed(p, 0x44, items, 0, tick, r)
  }

  /** The number of counts, and each in two bytes. */
  ghost predicate CountsServed(counts: seq<nat>, n: byte, r: seq<byte>) {
    && n <= |counts| && |r| == 3 + 2 * (n as int) && r[0] == 0x41 && r[1] == n && r[2] == 0x7E
    && forall a :: 0 <= a < n ==> U16(r[3 + 2 * a], r[4 + 2 * a]) == counts[a]
  }

  /** Request 0x41: the number of arrays, at most 254, and the length of each. */
  ghost predicate InfoServed(p: Program, r: seq<byte>) {
    if !p.loaded then r == [0x41, 0x83]
    else CountsServed(p.counts, if |p.counts| > 254 then 254 else |p.counts|, r)
  }

  /** Request 0x42: array, element, force or not, the length of a value and the value. */
  ghost predicate SetServed(p: Program, req: seq<byte>, accepted: bool, r: seq<byte>) {
    if !p.loaded then r == [0x42, 0x83]
    else if |req| < 7 || req[1] >= |p.counts| then r == [0x42, 0x81]
    else
      var n := U16(req[5], req[6]);
      if n > 4089 || |req| < 7 + n then r == [0x42, 0x81] else r == [0x42, if accepted then 0x7E else 0x82]
  }

  /** What a request that is not refused hands to the queue: a release carries no value. */
  ghost predicate HandsOver(req: seq<byte>, f: Forcing) {
    f.Queue? ==>
      && |req| >= 7 && |req| >= 7 + U16(req[5], req[6])
      && f == Queue(Address(req[1], U16(req[2], req[3])), req[4] != 0,
                    if req[4] != 0 then req[7..7 + U16(req[5], req[6])] else [])
  }

  /** Request 0x45: the text up to its terminator or 32 characters, and a mark of the byte order. */
  ghost predicate Md5Served(p: Program, req: seq<byte>, bigEndian: bool, r: seq<byte>) {
    if |req| < 3 || p.md5.None? then r == [0x45, 0x83]
    else
      && 4 <= |r| <= 36 && r[0] == 0x45 && r[1] == 0x7E
      && r[|r| - 2..] == (if bigEndian then [0xDE, 0xAD] else [0xAD, 0xDE])
      && var text := r[2..|r| - 2];
         && text <= p.md5.value && 0 !in text
         && (|text| == 32 || |text| == |p.md5.value| || p.md5.value[|text|] == 0)
  }

  /** What a client finds in the answer to a frame; there is none to an empty or unknown one. */
  ghost predicate Served(p: Program, req: seq<byte>, tick: nat, accepted: bool, bigEndian: bool, r: seq<byte>) {
    if req == [] || !(0x41 <= req[0] <= 0x45) then r == []
    else
      && (req[0] == 0x41 ==> InfoServed(p, r))
      && (req[0] == 0x42 ==> SetServed(p, req, accepted, r))
      && (req[0] == 0x43 ==> GetServed(p, req, tick, r))
      && (req[0] == 0x44 ==> ListServed(p, req, tick, r))
      && (req[0] == 0x45 ==> Md5Served(p, req, bigEndian, r))
  }

  lemma RangeIsServed(p: Program, arr: nat, start: nat, end: nat, tick: nat)
    requires Behaves(p) && RangeInBounds(p, arr, start, end)
    ensures ReadServed(p, 0x43, Range(arr, start, end + 1 - start), start, tick,
                       RangeResponse(p, arr, start, end, tick))
  {
    ReadIsServed(p, 0x43, Range(arr, start, end + 1 - start), start, tick);
  }

  lemma RangeRequestIsServed(p: Program, req: seq<byte>, tick: nat)
    requires Behaves(p) && p.loaded && |req| >= 6
    requires RangeInBounds(p, req[1], U16(req[2], req[3]), U16(req[4], req[5]))
    ensures GetServed(p, req, tick, GetResponse(p, req, tick))
  {
    RangeIsServed(p, req[1], U16(req[2], req[3]), U16(req[4], req[5]), tick);
  }

  lemma GetIsServed(p: Program, req: seq<byte>, tick: nat)
    requires Behaves(p)
    ensures GetServed(p, req, tick, GetResponse(p, req, tick))
  {
    if p.loaded && |req| >= 6 && RangeInBounds(p, req[1], U16(req[2], req[3]), U16(req[4], req[5])) {
      RangeRequestIsServed(p, req, tick);
    }
  }

  lemma ListIsServed(p: Program, req: seq<byte>, tick: nat)
    requires Behaves(p)
    ensures ListServed(p, req, tick, ListResponse(p, req, tick))
  {
    if p.loaded && |req| >= 3 {
      var n := U16(req[1], req[2]);
      if 0 < n <= 1024 && |req| >= 3 + 3 * n {
        var items := Entries(req[3..], n);
        assert Lists(req, items);
        ReadIsServed(p, 0x44, items, 0, tick);
      }
    }
  }

  lemma {:induction false} CountsAt(counts: seq<nat>, n: nat, a: nat)
    requires a < n <= |counts| && forall i :: 0 <= i < |counts| ==> counts[i] < 0x1_0000
    ensures U16(Counts(counts, n)[2 * a], Counts(counts, n)[2 * a + 1]) == counts[a]
    decreases n
  {
    if a < n - 1 {
      CountsAt(counts, n - 1, a);
    } else {
      BigPair(counts[a]);
    }
  }

  lemma Behind(head: seq<byte>, tail: seq<byte>, i: nat)
    requires i < |tail|
    ensures (head + tail)[|head| + i] == tail[i]
  {
  }

  lemma CountBehind(counts: seq<nat>, n: byte, a: nat)
    requires a < n <= |counts| && forall i :: 0 <= i < |counts| ==> counts[i] < 0x1_0000
    ensures var r := [0x41, n, 0x7E] + Counts(counts, n); U16(r[3 + 2 * a], r[4 + 2 * a]) == counts[a]
  {
    CountsAt(counts, n, a);
    Behind([0x41, n, 0x7E], Counts(counts, n), 2 * a);
    Behind([0x41, n, 0x7E], Counts(counts, n), 2 * a + 1);
  }

  lemma CountsBehind(counts: seq<nat>, n: byte)
    requires n <= |counts| && forall i :: 0 <= i < |counts| ==> counts[i] < 0x1_0000
    ensures CountsServed(counts, n, [0x41, n, 0x7E] + Counts(counts, n))
  {
    forall a | 0 <= a < n
      ensures var r := [0x41, n, 0x7E] + Counts(counts, n); U16(r[3 + 2 * a], r[4 + 2 * a]) == counts[a]
    {
      CountBehind(counts, n, a);
    }
  }

  lemma InfoIsServed(p: Program)
    requires Behaves(p)
    ensures InfoServed(p, InfoResponse(p))
  {
    if p.loaded {
      var n := Min(|p.counts|, MAX_ARRAYS);
      assert n % 256 == n;
      CountsBehind(p.counts, n);
    }
  }

  lemma SetIsServed(p: Program, req: seq<byte>, accepted: bool)
    ensures SetServed(p, req, accepted, SetResponse(p, req, accepted))
    ensures HandsOver(req, SetRequest(p, req))
  {
  }

  lemma {:induction false} TextEndsThere(md5: seq<byte>, i: nat)
    requires i <= |md5| && i <= 32 && 0 !in md5[..i]
    ensures var e := TextEnd(md5, i);
            0 !in md5[..e] && (e == 32 || e == |md5| || md5[e] == 0)
    decreases |md5| - i
  {
    if i < 32 && i < |md5| && md5[i] != 0 {
      assert md5[..i + 1] == md5[..i] + [md5[i]];
      TextEndsThere(md5, i + 1);
    }
  }

  lemma Md5IsServed(p: Program, req: seq<byte>, bigEndian: bool)
    ensures Md5Served(p, req, bigEndian, Md5Response(p, req, bigEndian))
  {
    if |req| >= 3 && p.md5.Some? {
      var r, text := Md5Response(p, req, bigEndian), Md5Text(p.md5.value);
      TextEndsThere(p.md5.value, 0);
      assert r[2..|r| - 2] == text && r[|r| - 2..] == Sentinel(bigEndian);
    }
  }

  /** Every response says, in the bytes a client reads, what was asked for. */
  lemma ResponseIsServed(p: Program, req: seq<byte>, tick: nat, accepted: bool, bigEndian: bool)
    requires Behaves(p)
    ensures Served(p, req, tick, accepted, bigEndian, Response(p, req, tick, accepted, bigEndian))
  {
    InfoIsServed(p);
    SetIsServed(p, req, accepted);
    GetIsServed(p, req, tick);
    ListIsServed(p, req, tick);
    Md5IsServed(p, req, bigEndian);
  }

  // ---- The handler, in the frame it was given --------------------------------------------------

  method PutBytes(frame: array<byte>, at: nat, bytes: seq<byte>)
    requires at + |bytes| <= frame.Length
    modifies frame
    ensures frame[..at + |bytes|] == old(frame[..at]) + bytes
    ensures frame[at + |bytes|..] == old(frame[at + |bytes|..])
  {
    forall k | 0 <= k < |bytes| {
      frame[at + k] := bytes[k];
    }
  }

  method PutHeader(frame: array<byte>, fc: byte, last: nat, tick: nat, size: nat)
    requires frame.Length >= HDR
    modifies frame
    ensures frame[..HDR] == Header(fc, last, tick, size) && frame[HDR..] == old(frame[HDR..])
  {
    frame[0], frame[1] := fc, SUCCESS;
    PutBytes(frame, 2, ToBig(last, 2));
    PutBytes(frame, 4, ToBig(tick, 4));
    PutBytes(frame, 8, ToBig(size, 2));
  }

  method RespondShort(frame: array<byte>, fc: byte, status: byte) returns (n: nat)
    requires frame.Length >= 2
    modifies frame
    ensures n == 2 && frame[..n] == Refusal(fc, status)
  {
    frame[0], frame[1] := fc, status;
    n := 2;
  }

  /** Reads the items into the frame behind the header, then writes the header. */
  method CollectInto(p: Program, frame: array<byte>, fc: byte, items: seq<Address>, base: nat, tick: nat)
    returns (n: nat)
    requires Behaves(p) && frame.Length >= MAX_FRAME && items != []
    modifies frame
    ensures n <= MAX_FRAME
    ensures var b := Collect(p, items, 0, [], 0);
            frame[..n] == Header(fc, base + b.last, tick, |b.data|) + b.data
  {
    ghost var data: seq<byte> := [];
    ghost var whole := Collect(p, items, 0, [], 0);
    var last, size := 0, 0;
    var i := 0;
    var stopped := false;
    while i < |items| && !stopped
      invariant i <= |items| && HDR + size <= MAX_FRAME
      invariant size == |data| && frame[HDR..HDR + size] == data
      invariant stopped ==> whole == Batch(data, last)
      invariant !stopped ==> whole == Collect(p, items, i, data, last)
      decreases |items| - i, !stopped
    {
      var varSize := Size(p, items[i]);
      if varSize == 0 {
        last := i;
        i := i + 1;
      } else if HDR + size + varSize > MAX_FRAME {
        stopped := true;
      } else {
        var value := p.bytes(items[i]);
        PutBytes(frame, HDR + size, value);
        assert frame[HDR..HDR + size + |value|] == frame[..HDR + size + |value|][HDR..];
        data := data + value;
        size := size + |value|;
        last := i;
        i := i + 1;
      }
    }
    ghost var body := frame[HDR..];
    assert body[..size] == data;
    PutHeader(frame, fc, base + last, tick, size);
    n := HDR + size;
    assert frame[HDR..n] == body[..size];
    assert frame[..n] == frame[..HDR] + frame[HDR..n];
  }

  method GetTrace(p: Program, tick: nat, frame: array<byte>, length: nat) returns (n: nat)
    requires Behaves(p) && length <= frame.Length && frame.Length >= MAX_FRAME
    modifies frame
    ensures n <= MAX_FRAME && frame[..n] == GetResponse(p, old(frame[..length]), tick)
  {
    if !p.loaded {
      n := RespondShort(frame, FC_GET, NOT_LOADED);
      return;
    }
    if length < 6 {
      n := RespondShort(frame, FC_GET, OUT_OF_BOUNDS);
      return;
    }
    var arr, start, end := frame[1], U16(frame[2], frame[3]), U16(frame[4], frame[5]);
    if arr >= |p.counts| || p.counts[arr] == 0 || start >= p.counts[arr] || end >= p.counts[arr] || start > end {
      n := RespondShort(frame, FC_GET, OUT_OF_BOUNDS);
      return;
    }
    assert GetResponse(p, frame[..length], tick) == RangeResponse(p, arr, start, end, tick);
    n := CollectInto(p, frame, FC_GET, Range(arr, start, end + 1 - start), start, tick);
  }

  /** The request is copied out first: the response overwrites it. */
  method GetTraceList(p: Program, tick: nat, frame: array<byte>, length: nat) returns (n: nat)
    requires Behaves(p) && length <= frame.Length && frame.Length >= MAX_FRAME
    modifies frame
    ensures n <= MAX_FRAME && frame[..n] == ListResponse(p, old(frame[..length]), tick)
  {
    if !p.loaded {
      n := RespondShort(frame, FC_GET_LIST, NOT_LOADED);
      return;
    }
    if length < 3 {
      n := RespondShort(frame, FC_GET_LIST, OUT_OF_BOUNDS);
      return;
    }
    var count := U16(frame[1], frame[2]);
    if count == 0 {
      n := RespondShort(frame, FC_GET_LIST, OUT_OF_BOUNDS);
      return;
    }
    if count > MAX_ENTRIES {
      n := RespondShort(frame, FC_GET_LIST, OUT_OF_MEMORY);
      return;
    }
    if length < 3 + 3 * count {
      n := RespondShort(frame, FC_GET_LIST, OUT_OF_BOUNDS);
      return;
    }
    var local := frame[3..3 + 3 * count];
    ghost var req := frame[..length];
    assert Entries(local, count) == Entries(req[3..], count) by {
      forall i | 0 <= i < count ensures Entry(local, i) == Entry(req[3..], i) { }
    }
    n := CollectInto(p, frame, FC_GET_LIST, Entries(local, count), 0, tick);
  }

  lemma CountsSnoc(head: seq<byte>, counts: seq<nat>, a: nat)
    requires a < |counts|
    ensures (head + Counts(counts, a)) + ToBig(counts[a], 2) == head + Counts(counts, a + 1)
  {
  }

  method PutCount(counts: seq<nat>, frame: array<byte>, a: nat, ghost head: seq<byte>)
    requires a < |counts| && |head| == 3 && 3 + 2 * a + 2 <= frame.Length
    requires frame[..3 + 2 * a] == head + Counts(counts, a)
    modifies frame
    ensures frame[..3 + 2 * a + 2] == head + Counts(counts, a + 1)
  {
    CountsSnoc(head, counts, a);
    PutBytes(frame, 3 + 2 * a, ToBig(counts[a], 2));
  }

  method Info(p: Program, frame: array<byte>) returns (n: nat)
    requires Behaves(p) && frame.Length >= MAX_FRAME
    modifies frame
    ensures n <= MAX_FRAME && frame[..n] == InfoResponse(p)
  {
    if !p.loaded {
      n := RespondShort(frame, FC_INFO, NOT_LOADED);
      return;
    }
    var count := if |p.counts| > MAX_ARRAYS then MAX_ARRAYS else |p.counts|;
    frame[0], frame[1], frame[2] := FC_INFO, count, SUCCESS;
    n := 3;
    ghost var head := frame[..3];
    assert count == Min(|p.counts|, MAX_ARRAYS) && head == [FC_INFO, count % 256, SUCCESS];
    for a := 0 to count
      invariant n == 3 + 2 * a
      invariant frame[..n] == head + Counts(p.counts, a)
    {
      PutCount(p.counts, frame, a, head);
      n := n + 2;
    }
  }

  /** Validates and hands over; the variable itself is written later. queue says whether the
      queue has room. */
  method SetTrace(p: Program, frame: array<byte>, length: nat, queue: bool) returns (n: nat, forcing: Forcing)
    requires Behaves(p) && length <= frame.Length && frame.Length >= MAX_FRAME
    modifies frame
    ensures n <= MAX_FRAME && frame[..n] == SetResponse(p, old(frame[..length]), queue)
    ensures forcing == SetRequest(p, old(frame[..length]))
    ensures HandsOver(old(frame[..length]), forcing)
  {
    SetIsServed(p, frame[..length], queue);
    var status := OUT_OF_BOUNDS;
    if !p.loaded {
      status := NOT_LOADED;
      forcing := Refused(status);
    } else if length < 7 {
      forcing := Refused(status);
    } else {
      var arr, elem, force := frame[1], U16(frame[2], frame[3]), frame[4];
      var valLen := U16(frame[5], frame[6]);
      if arr >= |p.counts| || valLen > MAX_FRAME - 7 || length < 7 + valLen {
        forcing := Refused(status);
      } else {
        forcing := Queue(Address(arr, elem), force != 0, if force != 0 then frame[7..7 + valLen] else []);
        status := if queue then SUCCESS else OUT_OF_MEMORY;
        assert frame[..length][7..7 + valLen] == frame[7..7 + valLen];
      }
    }
    n := RespondShort(frame, FC_SET, status);
  }

  /** Copies the text behind what is there already. */
  method CopyText(md5: seq<byte>, frame: array<byte>, at: nat) returns (n: nat)
    requires frame.Length >= MAX_FRAME && at + MD5_LEN <= MAX_FRAME - 2
    modifies frame
    ensures at <= n <= at + MD5_LEN && frame[..n] == old(frame[..at]) + Md5Text(md5)
  {
    n := at;
    var i := 0;
    while i < MD5_LEN && i < |md5| && md5[i] != 0 && n < MAX_FRAME - 2
      invariant i <= MD5_LEN && i <= |md5| && n == at + i
      invariant frame[..n] == old(frame[..at]) + md5[..i]
      invariant TextEnd(md5, i) == TextEnd(md5, 0)
    {
      frame[n] := md5[i];
      n, i := n + 1, i + 1;
    }
  }

  method GetMd5(p: Program, frame: array<byte>, length: nat, bigEndian: bool) returns (n: nat)
    requires length <= frame.Length && frame.Length >= MAX_FRAME
    modifies frame
    ensures n <= MAX_FRAME && frame[..n] == Md5Response(p, old(frame[..length]), bigEndian)
  {
    if length < 3 || p.md5.None? {
      n := RespondShort(frame, FC_GET_MD5, NOT_LOADED);
      return;
    }
    frame[0], frame[1] := FC_GET_MD5, SUCCESS;
    n := CopyText(p.md5.value, frame, 2);
    PutBytes(frame, n, Sentinel(bigEndian));
    n := n + 2;
  }

  /** The response replaces the request in the frame, and is the one computed from the request
      as it was. */
  method Process(p: Program, tick: nat, frame: array<byte>, length: nat, queue: bool, bigEndian: bool)
    returns (n: nat)
    requires Behaves(p) && length <= frame.Length && frame.Length >= MAX_FRAME
    modifies frame
    ensures n <= MAX_FRAME && frame[..n] == Response(p, old(frame[..length]), tick, queue, bigEndian)
    ensures Served(p, old(frame[..length]), tick, queue, bigEndian, frame[..n])
  {
    ResponseIsServed(p, frame[..length], tick, queue, bigEndian);
    if length < 1 {
      return 0;
    }
    var code := frame[0];
    if code == FC_INFO {
      n := Info(p, frame);
    } else if code == FC_SET {
      var forcing;
      n, forcing := SetTrace(p, frame, length, queue);
    } else if code == FC_GET {
      n := GetTrace(p, tick, frame, length);
    } else if code == FC_GET_LIST {
      n := GetTraceList(p, tick, frame, length);
    } else if code == FC_GET_MD5 {
      n := GetMd5(p, frame, length, bigEndian);
    } else {
      n := 0;
    }
  }

  // ---- A client reading a range over the wire ----------------------------------------------------

  lemma RangeSuffix(arr: nat, start: nat, n: nat, k: nat)
    requires k <= n
    ensures Range(arr, start, n)[k..] == Range(arr, start + k, n - k)
  {
  }

  /** A range request, as the handler decodes it. */
  predicate IsRequest(req: seq<byte>, arr: byte, start: nat, end: nat) {
    |req| == 6 && req[0] == FC_GET && req[1] == arr && U16(req[2], req[3]) == start && U16(req[4], req[5]) == end
  }

  /** What a client decodes from a response to a range request. */
  lemma ResponseDecodes(last: nat, tick: nat, data: seq<byte>)
    requires last < 0x1_0000 && |data| < 0x1_0000
    ensures var r := Header(FC_GET, last, tick, |data|) + data;
            U16(r[2], r[3]) == last && U16(r[8], r[9]) == |data| && r[HDR..] == data
  {
    var h := Header(FC_GET, last, tick, |data|);
    BigPair(last);
    BigPair(|data|);
    assert h[2] == ToBig(last, 2)[0] && h[3] == ToBig(last, 2)[1];
    assert h[8] == ToBig(|data|, 2)[0] && h[9] == ToBig(|data|, 2)[1];
  }

  lemma FrameDecodes(frame: seq<byte>, n: nat, last: nat, tick: nat, data: seq<byte>)
    requires last < 0x1_0000 && |data| < 0x1_0000 && n <= |frame|
    requires frame[..n] == Header(FC_GET, last, tick, |data|) + data
    ensures n == HDR + |data| && U16(frame[2], frame[3]) == last && U16(frame[8], frame[9]) == |data|
    ensures frame[HDR..HDR + |data|] == data
  {
    ResponseDecodes(last, tick, data);
    var r := frame[..n];
    assert frame[2] == r[2] && frame[3] == r[3] && frame[8] == r[8] && frame[9] == r[9];
    assert frame[HDR..HDR + |data|] == r[HDR..];
  }

  method PutRequest(frame: array<byte>, arr: byte, start: nat, end: nat)
    requires frame.Length >= MAX_FRAME && start < 0x1_0000 && end < 0x1_0000
    modifies frame
    ensures IsRequest(frame[..6], arr, start, end)
  {
    BigPair(start);
    BigPair(end);
    var first, second := ToBig(start, 2), ToBig(end, 2);
    frame[0], frame[1] := FC_GET, arr;
    frame[2], frame[3] := first[0], first[1];
    frame[4], frame[5] := second[0], second[1];
  }

  lemma GetIsRouted(p: Program, req: seq<byte>, tick: nat, accepted: bool, bigEndian: bool)
    requires req != [] && req[0] == FC_GET
    ensures Response(p, req, tick, accepted, bigEndian) == GetResponse(p, req, tick)
  {
  }

  lemma RangeIsAnswered(p: Program, req: seq<byte>, arr: byte, start: nat, end: nat, tick: nat)
    requires Behaves(p) && p.loaded && RangeInBounds(p, arr, start, end)
    requires IsRequest(req, arr, start, end)
    ensures var b := Collect(p, Range(arr, start, end + 1 - start), 0, [], 0);
            GetResponse(p, req, tick) == Header(FC_GET, start + b.last, tick, |b.data|) + b.data
  {
  }

  lemma RequestIsAnswered(p: Program, req: seq<byte>, arr: byte, start: nat, end: nat, tick: nat,
                          accepted: bool, bigEndian: bool)
    requires Behaves(p) && p.loaded && RangeInBounds(p, arr, start, end)
    requires IsRequest(req, arr, start, end)
    ensures var b := Collect(p, Range(arr, start, end + 1 - start), 0, [], 0);
            Response(p, req, tick, accepted, bigEndian) == Header(FC_GET, start + b.last, tick, |b.data|) + b.data
  {
    GetIsRouted(p, req, tick, accepted, bigEndian);
    RangeIsAnswered(p, req, arr, start, end, tick);
  }

  method Exchange(p: Program, tick: nat, frame: array<byte>, arr: byte, start: nat, end: nat, bigEndian: bool)
    returns (n: nat)
    requires Behaves(p) && p.loaded && RangeInBounds(p, arr, start, end) && frame.Length >= MAX_FRAME
    requires IsRequest(frame[..6], arr, start, end)
    modifies frame
    ensures n <= MAX_FRAME
    ensures var b := Collect(p, Range(arr, start, end + 1 - start), 0, [], 0);
            frame[..n] == Header(FC_GET, start + b.last, tick, |b.data|) + b.data
  {
    RequestIsAnswered(p, frame[..6], arr, start, end, tick, true, bigEndian);
    n := Process(p, tick, frame, 6, true, bigEndian);
  }

  /** One request: the data it brought and the last element it dealt with. */
  method Ask(p: Program, tick: nat, frame: array<byte>, arr: byte, start: nat, end: nat, bigEndian: bool)
    returns (data: seq<byte>, last: nat)
    requires Behaves(p) && p.loaded && RangeInBounds(p, arr, start, end) && frame.Length >= MAX_FRAME
    modifies frame
    ensures last >= start
    ensures Batch(data, last - start) == Collect(p, Range(arr, start, end + 1 - start), 0, [], 0)
  {
    ghost var b := Collect(p, Range(arr, start, end + 1 - start), 0, [], 0);
    CollectReadsAPrefix(p, Range(arr, start, end + 1 - start), 0, [], 0);
    PutRequest(frame, arr, start, end);
    var n := Exchange(p, tick, frame, arr, start, end, bigEndian);
    FrameDecodes(frame[..], n, start + b.last, tick, b.data);
    var size := U16(frame[8], frame[9]);
    data := frame[HDR..HDR + size];
    last := U16(frame[2], frame[3]);
  }

  lemma SessionGoesOn(p: Program, arr: nat, next: nat, n: nat)
    requires Behaves(p) && n > 0
    ensures var b := Collect(p, Range(arr, next, n), 0, [], 0);
            b.last < n &&
            Session(p, Range(arr, next, n)) == b.data + Session(p, Range(arr, next + b.last + 1, n - b.last - 1))
  {
    var items := Range(arr, next, n);
    CollectReadsAPrefix(p, items, 0, [], 0);
    RangeSuffix(arr, next, n, Collect(p, items, 0, [], 0).last + 1);
  }

  /** Asking for the rest from last + 1 on until the end is reached gives exactly a session. */
  method ReadRange(p: Program, tick: nat, frame: array<byte>, arr: byte, start: nat, end: nat, bigEndian: bool)
    returns (data: seq<byte>)
    requires Behaves(p) && p.loaded && RangeInBounds(p, arr, start, end) && frame.Length >= MAX_FRAME
    modifies frame
    ensures data == Fitting(p, Range(arr, start, end + 1 - start))
  {
    data := [];
    var next := start;
    while next <= end
      invariant start <= next <= end + 1
      invariant data + Session(p, Range(arr, next, end + 1 - next)) == Session(p, Range(arr, start, end + 1 - start))
    {
      SessionGoesOn(p, arr, next, end + 1 - next);
      var more, last := Ask(p, tick, frame, arr, next, end, bigEndian);
      ghost var rest := Session(p, Range(arr, last + 1, end - last));
      assert (data + more) + rest == data + (more + rest);
      data := data + more;
      next := last + 1;
    }
    SessionReadsAllThatFit(p, Range(arr, start, end + 1 - start));
    assert data + [] == data;
  }

  // ---- Requests as a client writes them -----------------------------------------------------------

  function EncodeSet(a: Address, force: bool, value: seq<byte>): seq<byte>
    requires a.arr < 256
  {
    [FC_SET, a.arr] + ToBig(a.elem, 2) + [if force then 1 else 0] + ToBig(|value|, 2) + value
  }

  /** A forcing request reaches the queue as it was written exactly when its array exists and its
      value fits the frame; releasing carries no value. */
  lemma SetRequestRoundTrip(p: Program, a: Address, force: bool, value: seq<byte>,
                            tick: nat, accepted: bool, bigEndian: bool)
    requires p.loaded && a.arr < 256 && a.elem < 0x1_0000 && |value| < 0x1_0000
    ensures SetRequest(p, EncodeSet(a, force, value)) ==
            if a.arr < |p.counts| && |value| <= MAX_FRAME - 7 then Queue(a, force, if force then value else [])
            else Refused(OUT_OF_BOUNDS)
    ensures Response(p, EncodeSet(a, force, value), tick, accepted, bigEndian) ==
            [0x42, if a.arr < |p.counts| && |value| <= 4089 then (if accepted then 0x7E else 0x82) else 0x81]
  {
    var req := EncodeSet(a, force, value);
    BigPair(a.elem);
    BigPair(|value|);
    assert req[2] == ToBig(a.elem, 2)[0] && req[3] == ToBig(a.elem, 2)[1];
    assert req[5] == ToBig(|value|, 2)[0] && req[6] == ToBig(|value|, 2)[1];
    assert req[7..7 + |value|] == value;
  }

  function EncodeEntries(items: seq<Address>): (b: seq<byte>)
    requires forall i :: 0 <= i < |items| ==> items[i].arr < 256
    ensures |b| == 3 * |items|
  {
    if items == [] then []
    else EncodeEntries(items[..|items| - 1]) + [items[|items| - 1].arr] + ToBig(items[|items| - 1].elem, 2)
  }

  predicate Addressable(items: seq<Address>) {
    forall i :: 0 <= i < |items| ==> items[i].arr < 256 && items[i].elem < 0x1_0000
  }

  lemma {:induction false} EntryRoundTrip(items: seq<Address>, i: nat)
    requires Addressable(items) && i < |items|
    ensures Entry(EncodeEntries(items), i) == items[i]
    decreases items
  {
    var rest, last := items[..|items| - 1], items[|items| - 1];
    var b, head := EncodeEntries(items), EncodeEntries(rest);
    if i < |rest| {
      EntryRoundTrip(rest, i);
      assert b[3 * i] == head[3 * i] && b[3 * i + 1] == head[3 * i + 1] && b[3 * i + 2] == head[3 * i + 2];
    } else {
      BigPair(last.elem);
      assert b[3 * i] == last.arr;
      assert b[3 * i + 1] == ToBig(last.elem, 2)[0] && b[3 * i + 2] == ToBig(last.elem, 2)[1];
    }
  }

  function EncodeList(items: seq<Address>): seq<byte>
    requires Addressable(items)
  {
    [FC_GET_LIST] + ToBig(|items|, 2) + EncodeEntries(items)
  }

  /** A list request of at most 1024 addresses is answered with those reads in that order. */
  lemma ListRequestRoundTrip(p: Program, items: seq<Address>, tick: nat, accepted: bool, bigEndian: bool)
    requires p.loaded && Addressable(items) && 0 < |items| <= MAX_ENTRIES
    ensures var b := Collect(p, items, 0, [], 0);
            Response(p, EncodeList(items), tick, accepted, bigEndian) ==
            Header(FC_GET_LIST, b.last, tick, |b.data|) + b.data
  {
    var req := EncodeList(items);
    BigPair(|items|);
    assert req[1] == ToBig(|items|, 2)[0] && req[2] == ToBig(|items|, 2)[1];
    assert req[3..] == EncodeEntries(items);
    forall i | 0 <= i < |items| ensures Entries(req[3..], |items|)[i] == items[i] {
      EntryRoundTrip(items, i);
    }
    assert Entries(req[3..], |items|) == items;
  }
}
