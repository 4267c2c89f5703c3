/** Hashing by blocks, for any compression function: a message is padded to whole 64-byte
    blocks, which are folded into a state one after the other. FIPS 180-4, sections 5.1.1 and
    5.2.1, and what a byte-by-byte implementation holds at each point of a message. */
module BlockHash {
  import opened Bytes

  const BLOCK_LEN: nat := 64

  /** The length field counts bits modulo 2^64. */
  const BITS_WRAP: nat := 0x1_0000_0000_0000_0000

  /** The number of zero bytes after the 0x80: the least that leaves room for the
      eight-byte length at the end of a block. */
  function ZeroCount(len: nat): (k: nat)
    ensures k < BLOCK_LEN && (len + 1 + k) % BLOCK_LEN == 56
  {
    (119 - len % BLOCK_LEN) % BLOCK_LEN
  }

  function Zeros(n: nat): seq<byte> { seq(n, i => 0) }

  function BitLength(len: nat): nat {
    8 * len % BITS_WRAP
  }

  /** Below 2^61 bytes the length field is the exact number of bits. */
  lemma BitLengthIsExactBelow(len: nat)
    ensures BitLength(len) == 8 * len <==> len < 0x2000_0000_0000_0000
  {
  }

  lemma RoomForLength(n: nat)
    requires n % BLOCK_LEN == 56
    ensures (n + 8) % BLOCK_LEN == 0
  {
  }

  function Pad(m: seq<byte>): (p: seq<byte>)
    ensures |p| % BLOCK_LEN == 0
  {
    RoomForLength(|m| + 1 + ZeroCount(|m|));
    m + [0x80] + Zeros(ZeroCount(|m|)) + ToBig(BitLength(|m|), 8)
  }

  /** Whole blocks, folded into h in order. */
  function Fold<S>(f: (S, seq<byte>) -> S, h: S, data: seq<byte>): S
    requires |data| % BLOCK_LEN == 0
    decreases |data|
  {
    if data == [] then h
    else f(Fold(f, h, data[..|data| - BLOCK_LEN]), data[|data| - BLOCK_LEN..])
  }

  function Digest<S>(f: (S, seq<byte>) -> S, h: S, m: seq<byte>): S {
    Fold(f, h, Pad(m))
  }

  lemma OneBlockMore(n: nat)
    requires n % BLOCK_LEN == 0
    ensures (n + BLOCK_LEN) % BLOCK_LEN == 0
  {
  }

  lemma FoldOneMore<S>(f: (S, seq<byte>) -> S, h: S, data: seq<byte>, block: seq<byte>)
    requires |data| % BLOCK_LEN == 0 && |block| == BLOCK_LEN
    ensures |data + block| % BLOCK_LEN == 0
    ensures Fold(f, h, data + block) == f(Fold(f, h, data), block)
  {
    var d := data + block;
    OneBlockMore(|data|);
    assert d[..|d| - BLOCK_LEN] == data && d[|d| - BLOCK_LEN..] == block;
  }

  // ---- Where the padding falls -------------------------------------------------------------

  /** The part of a message already compressed, and the part still in the buffer. */
  function Full(m: seq<byte>): (f: seq<byte>)
    ensures |f| % BLOCK_LEN == 0
  {
    m[..|m| - |m| % BLOCK_LEN]
  }

  function Tail(m: seq<byte>): (t: seq<byte>)
    ensures |t| == |m| % BLOCK_LEN && Full(m) + t == m
  {
    m[|m| - |m| % BLOCK_LEN..]
  }

  /** A tail of at most 55 bytes: the whole padding fits in the last block. */
  lemma PadInOneBlock(m: seq<byte>)
    requires |m| % BLOCK_LEN < 56
    ensures |Tail(m) + [0x80] + Zeros(55 - |Tail(m)|) + ToBig(BitLength(|m|), 8)| == BLOCK_LEN
    ensures Pad(m) == Full(m) + (Tail(m) + [0x80] + Zeros(55 - |Tail(m)|) + ToBig(BitLength(|m|), 8))
  {
    assert ZeroCount(|m|) == 55 - |Tail(m)|;
  }

  /** A longer tail: the zeros run over into a block of their own. */
  lemma PadInTwoBlocks(m: seq<byte>)
    requires |m| % BLOCK_LEN >= 56
    ensures |Tail(m) + [0x80] + Zeros(63 - |Tail(m)|)| == BLOCK_LEN
    ensures |Zeros(56) + ToBig(BitLength(|m|), 8)| == BLOCK_LEN
    ensures Pad(m) == Full(m) + (Tail(m) + [0x80] + Zeros(63 - |Tail(m)|)) + (Zeros(56) + ToBig(BitLength(|m|), 8))
  {
    assert ZeroCount(|m|) == (63 - |Tail(m)|) + 56;
    assert Zeros(63 - |Tail(m)|) + Zeros(56) == Zeros(ZeroCount(|m|));
  }

  lemma NextResidue(n: nat)
    ensures (n + 1) % BLOCK_LEN == if n % BLOCK_LEN == BLOCK_LEN - 1 then 0 else n % BLOCK_LEN + 1
  {
  }

  lemma AppendByte(m: seq<byte>, x: byte)
    ensures |m| % BLOCK_LEN < BLOCK_LEN - 1 ==> Full(m + [x]) == Full(m) && Tail(m + [x]) == Tail(m) + [x]
    ensures |m| % BLOCK_LEN == BLOCK_LEN - 1 ==> Full(m + [x]) == Full(m) + (Tail(m) + [x]) && Tail(m + [x]) == []
  {
    var at := |m| - |m| % BLOCK_LEN;
    NextResidue(|m|);
    if |m| % BLOCK_LEN == BLOCK_LEN - 1 {
      assert m[..at] + (m[at..] + [x]) == m + [x];
    } else {
      assert (m + [x])[..at] == m[..at] && (m + [x])[at..] == m[at..] + [x];
    }
  }

  /** The bit counter wraps at 64 bits without losing the length modulo 2^64. */
  lemma CounterAddsUp(full: nat, more: nat)
    ensures (BitLength(full) + 8 * more) % BITS_WRAP == BitLength(full + more)
  {
    var q := 8 * full / BITS_WRAP;
    assert 8 * full == BITS_WRAP * q + BitLength(full);
    assert 8 * (full + more) == BITS_WRAP * q + (BitLength(full) + 8 * more);
  }

  // ---- What the implementation holds after the bytes m ----------------------------------------

  ghost predicate Holds<S>(f: (S, seq<byte>) -> S, h: S, state: S, buffered: seq<byte>, bits: nat, m: seq<byte>) {
    && buffered == Tail(m)
    && state == Fold(f, h, Full(m))
    && bits == BitLength(|Full(m)|)
  }

  lemma HoldsAtStart<S>(f: (S, seq<byte>) -> S, h: S)
    ensures Holds(f, h, h, [], 0, [])
  {
    assert Full([]) == [] && Tail([]) == [];
  }

  lemma AppendToBuffer<S>(f: (S, seq<byte>) -> S, h: S, state: S, buffered: seq<byte>, bits: nat, m: seq<byte>, x: byte)
    requires Holds(f, h, state, buffered, bits, m) && |buffered| < BLOCK_LEN - 1
    ensures Holds(f, h, state, buffered + [x], bits, m + [x])
  {
    AppendByte(m, x);
  }

  lemma CompleteBlock<S>(f: (S, seq<byte>) -> S, h: S, state: S, buffered: seq<byte>, bits: nat, m: seq<byte>, x: byte)
    requires Holds(f, h, state, buffered, bits, m) && |buffered| == BLOCK_LEN - 1
    ensures Holds(f, h, f(state, buffered + [x]), [], (bits + 512) % BITS_WRAP, m + [x])
  {
    AppendByte(m, x);
    FoldOneMore(f, h, Full(m), buffered + [x]);
    CounterAddsUp(|Full(m)|, BLOCK_LEN);
    assert |Full(m + [x])| == |Full(m)| + BLOCK_LEN;
  }

  /** The finish within one block, and over two. */
  lemma FinishInOneBlock<S>(f: (S, seq<byte>) -> S, h: S, state: S, buffered: seq<byte>, bits: nat, m: seq<byte>)
    requires Holds(f, h, state, buffered, bits, m) && |buffered| < 56
    ensures Digest(f, h, m) == f(state, buffered + [0x80] + Zeros(55 - |buffered|) + ToBig(BitLength(|m|), 8))
    ensures (bits + 8 * |buffered|) % BITS_WRAP == BitLength(|m|)
  {
    PadInOneBlock(m);
    FoldOneMore(f, h, Full(m), Tail(m) + [0x80] + Zeros(55 - |Tail(m)|) + ToBig(BitLength(|m|), 8));
    CounterAddsUp(|Full(m)|, |buffered|);
  }

  lemma FinishInTwoBlocks<S>(f: (S, seq<byte>) -> S, h: S, state: S, buffered: seq<byte>, bits: nat, m: seq<byte>)
    requires Holds(f, h, state, buffered, bits, m) && |buffered| >= 56
    ensures Digest(f, h, m) ==
            f(f(state, buffered + [0x80] + Zeros(63 - |buffered|)), Zeros(56) + ToBig(BitLength(|m|), 8))
    ensures (bits + 8 * |buffered|) % BITS_WRAP == BitLength(|m|)
  {
    PadInTwoBlocks(m);
    var first := Tail(m) + [0x80] + Zeros(63 - |Tail(m)|);
    FoldOneMore(f, h, Full(m), first);
    var last := Zeros(56) + ToBig(BitLength(|m|), 8);
    FoldOneMore(f, h, Full(m) + first, last);
    assert Pad(m) == Full(m) + first + last;
    CounterAddsUp(|Full(m)|, |buffered|);
  }

  /** The padding and the last one or two compressions. */
  function LastBlocks<S>(f: (S, seq<byte>) -> S, state: S, buffered: seq<byte>, length: seq<byte>): S
    requires |buffered| < BLOCK_LEN
  {
    if |buffered| < 56 then f(state, buffered + [0x80] + Zeros(55 - |buffered|) + length)
    else f(f(state, buffered + [0x80] + Zeros(63 - |buffered|)), Zeros(56) + length)
  }

  lemma LengthInTheEnd<S>(f: (S, seq<byte>) -> S, h: S, state: S, buffered: seq<byte>, bits: nat, m: seq<byte>)
    requires Holds(f, h, state, buffered, bits, m)
    ensures (bits + 8 * |buffered|) % BITS_WRAP == BitLength(|m|)
  {
    CounterAddsUp(|Full(m)|, |buffered|);
  }

  lemma LastBlocksFinish<S>(f: (S, seq<byte>) -> S, h: S, state: S, buffered: seq<byte>, bits: nat, m: seq<byte>)
    requires Holds(f, h, state, buffered, bits, m) && |buffered| < BLOCK_LEN
    ensures Digest(f, h, m) == LastBlocks(f, state, buffered, ToBig(BitLength(|m|), 8))
  {
    if |buffered| < 56 {
      FinishInOneBlock(f, h, state, buffered, bits, m);
    } else {
      FinishInTwoBlocks(f, h, state, buffered, bits, m);
    }
  }
}
