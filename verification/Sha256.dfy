/** SHA-256 as the runtime computes it for a plugin's integrity seal: bytes buffered
    one by one into a 64-byte block, eight state words updated in place. Proved equal,
    for every way of cutting the input into chunks, to the definition in FIPS 180-4. */
module Sha256 {
  import opened Bytes
  import opened BlockHash

  type word = bv32

  // ---- FIPS 180-4, section 4.1.2: functions on words ------------------------------

  function ROTR(x: word, n: bv32): word
    requires n <= 32
  {
    (x >> n) | (x << (32 - n))
  }

  /** Addition modulo 2^32. */
  function Add(x: word, y: word): word { x + y }

  function Sum4(x: word, y: word, z: word, u: word): word { x + y + z + u }

  function Ch(x: word, y: word, z: word): word { (x & y) ^ (!x & z) }

  function Maj(x: word, y: word, z: word): word { (x & y) ^ (x & z) ^ (y & z) }

  function BigSigma0(x: word): word { ROTR(x, 2) ^ ROTR(x, 13) ^ ROTR(x, 22) }

  function BigSigma1(x: word): word { ROTR(x, 6) ^ ROTR(x, 11) ^ ROTR(x, 25) }

  function SmallSigma0(x: word): word { ROTR(x, 7) ^ ROTR(x, 18) ^ (x >> 3) }

  function SmallSigma1(x: word): word { ROTR(x, 17) ^ ROTR(x, 19) ^ (x >> 10) }

  // ---- Section 4.2.2: constants -----------------------------------------------------

  const ROUNDS: nat := 64

  function Row<T>(i: nat, a: T, b: T, c: T, d: T, e: T, f: T, g: T, h: T): T
    requires i < 8
  {
    match i case 0 => a case 1 => b case 2 => c case 3 => d case 4 => e case 5 => f case 6 => g case _ => h
  }

  /** The constants, in rows of eight. */
  function K(t: nat): word
    requires t < ROUNDS
  {
    match t / 8
    case 0 => Row(t % 8, 0x428a2f98, 0x71374491, 0xb5c0fbcf, 0xe9b5dba5, 0x3956c25b, 0x59f111f1, 0x923f82a4, 0xab1c5ed5)
    case 1 => Row(t % 8, 0xd807aa98, 0x12835b01, 0x243185be, 0x550c7dc3, 0x72be5d74, 0x80deb1fe, 0x9bdc06a7, 0xc19bf174)
    case 2 => Row(t % 8, 0xe49b69c1, 0xefbe4786, 0x0fc19dc6, 0x240ca1cc, 0x2de92c6f, 0x4a7484aa, 0x5cb0a9dc, 0x76f988da)
    case 3 => Row(t % 8, 0x983e5152, 0xa831c66d, 0xb00327c8, 0xbf597fc7, 0xc6e00bf3, 0xd5a79147, 0x06ca6351, 0x14292967)
    case 4 => Row(t % 8, 0x27b70a85, 0x2e1b2138, 0x4d2c6dfc, 0x53380d13, 0x650a7354, 0x766a0abb, 0x81c2c92e, 0x92722c85)
    case 5 => Row(t % 8, 0xa2bfe8a1, 0xa81a664b, 0xc24b8b70, 0xc76c51a3, 0xd192e819, 0xd6990624, 0xf40e3585, 0x106aa070)
    case 6 => Row(t % 8, 0x19a4c116, 0x1e376c08, 0x2748774c, 0x34b0bcb5, 0x391c0cb3, 0x4ed8aa4a, 0x5b9cca4f, 0x682e6ff3)
    case _ => Row(t % 8, 0x748f82ee, 0x78a5636f, 0x84c87814, 0x8cc70208, 0x90befffa, 0xa4506ceb, 0xbef9a3f7, 0xc67178f2)
  }

  /** The eight words of a hash value, or the eight working variables. */
  datatype Eight = Eight(a: word, b: word, c: word, d: word, e: word, f: word, g: word, h: word)

  /** Section 5.3.3: the initial hash value. */
  const H0 := Eight(0x6a09e667, 0xbb67ae85, 0x3c6ef372, 0xa54ff53a, 0x510e527f, 0x9b05688c, 0x1f83d9ab, 0x5be0cd19)

  // ---- Sections 5.2.1 and 6.2.2: parsing and the hash computation ----------------------

  /** The 16 words of a block, each from four bytes, most significant first. */
  function BlockWord(block: seq<byte>, t: nat): word
    requires |block| == BLOCK_LEN && t < 16
  {
    ((block[4 * t] as bv32) << 24) | ((block[4 * t + 1] as bv32) << 16)
    | ((block[4 * t + 2] as bv32) << 8) | (block[4 * t + 3] as bv32)
  }

  function Parse(block: seq<byte>): (m: seq<word>)
    requires |block| == BLOCK_LEN
  {
    seq(16, t requires 0 <= t < 16 => BlockWord(block, t))
  }

  /** The message schedule: word t of the 64 computed from the 16 words of a block. */
  function W(m: seq<word>, t: nat): word
    requires |m| == 16
  {
    if t < 16 then m[t]
    else Sum4(SmallSigma1(W(m, t - 2)), W(m, t - 7), SmallSigma0(W(m, t - 15)), W(m, t - 16))
  }

  function Schedule(m: seq<word>, n: nat): (w: seq<word>)
    requires |m| == 16
    ensures |w| == n
  {
    seq(n, t requires 0 <= t < n => W(m, t))
  }

  function Round(r: Eight, k: word, w: word): Eight {
    var t1 := Add(Add(Add(Add(r.h, BigSigma1(r.e)), Ch(r.e, r.f, r.g)), k), w);
    var t2 := Add(BigSigma0(r.a), Maj(r.a, r.b, r.c));
    Eight(Add(t1, t2), r.a, r.b, r.c, Add(r.d, t1), r.e, r.f, r.g)
  }

  /** One round for each word of the schedule. */
  function Rounds(h: Eight, w: seq<word>): Eight
    requires |w| <= ROUNDS
  {
    if w == [] then h else Round(Rounds(h, w[..|w| - 1]), K(|w| - 1), w[|w| - 1])
  }

  function Sum(x: Eight, y: Eight): Eight {
    Eight(Add(x.a, y.a), Add(x.b, y.b), Add(x.c, y.c), Add(x.d, y.d),
          Add(x.e, y.e), Add(x.f, y.f), Add(x.g, y.g), Add(x.h, y.h))
  }

  function Compress(h: Eight, block: seq<byte>): Eight
    requires |block| == BLOCK_LEN
  {
    Sum(h, Rounds(h, Schedule(Parse(block), ROUNDS)))
  }

  /** Compress, extended to all byte strings so that it can be folded. */
  function Step(h: Eight, block: seq<byte>): Eight {
    if |block| == BLOCK_LEN then Compress(h, block) else h
  }

  /** The hash of a message. */
  function Hash(m: seq<byte>): Eight {
    Digest(Step, H0, m)
  }

  /** The streaming code is proved for any function that compresses blocks as above. */
  ghost predicate Compresses(f: (Eight, seq<byte>) -> Eight) {
    forall h: Eight, b: seq<byte> {:trigger Compress(h, b)} :: |b| == BLOCK_LEN ==> f(h, b) == Compress(h, b)
  }

  // ---- Hexadecimal ----------------------------------------------------------------------

  function HexDigit(n: word): char {
    if n == 0 then '0' else if n == 1 then '1' else if n == 2 then '2' else if n == 3 then '3'
    else if n == 4 then '4' else if n == 5 then '5' else if n == 6 then '6' else if n == 7 then '7'
    else if n == 8 then '8' else if n == 9 then '9' else if n == 10 then 'a' else if n == 11 then 'b'
    else if n == 12 then 'c' else if n == 13 then 'd' else if n == 14 then 'e' else 'f'
  }

  /** The k-th group of four bits, from the most significant. */
  function Nibble(w: word, k: nat): word
    requires k < 8
  {
    if k == 0 then (w >> 28) & 0xf else if k == 1 then (w >> 24) & 0xf
    else if k == 2 then (w >> 20) & 0xf else if k == 3 then (w >> 16) & 0xf
    else if k == 4 then (w >> 12) & 0xf else if k == 5 then (w >> 8) & 0xf
    else if k == 6 then (w >> 4) & 0xf else w & 0xf
  }

  /** Eight digits, most significant first. */
  function HexWord(w: word): (s: seq<char>)
    ensures |s| == 8
  {
    seq(8, k requires 0 <= k < 8 => HexDigit(Nibble(w, k)))
  }

  function WordAt(h: Eight, w: nat): word
    requires w < 8
  {
    if w == 0 then h.a else if w == 1 then h.b else if w == 2 then h.c else if w == 3 then h.d
    else if w == 4 then h.e else if w == 5 then h.f else if w == 6 then h.g else h.h
  }

  /** The first n words of a hash value, in hexadecimal. */
  function HexOf(h: Eight, n: nat): (s: seq<char>)
    requires n <= 8
    ensures |s| == 8 * n
  {
    if n == 0 then [] else HexOf(h, n - 1) + HexWord(WordAt(h, n - 1))
  }

  function Hex(h: Eight): (s: seq<char>)
    ensures |s| == 64
  {
    HexOf(h, 8)
  }

  lemma DigitsDiffer(x: word, y: word)
    requires x < 16 && y < 16 && HexDigit(x) == HexDigit(y)
    ensures x == y
  {
  }

  lemma NibblesDetermineWord(x: word, y: word)
    requires Nibble(x, 0) == Nibble(y, 0) && Nibble(x, 1) == Nibble(y, 1)
    requires Nibble(x, 2) == Nibble(y, 2) && Nibble(x, 3) == Nibble(y, 3)
    requires Nibble(x, 4) == Nibble(y, 4) && Nibble(x, 5) == Nibble(y, 5)
    requires Nibble(x, 6) == Nibble(y, 6) && Nibble(x, 7) == Nibble(y, 7)
    ensures x == y
  {
  }

  lemma NibbleIsSmall(x: word, k: nat)
    requires k < 8
    ensures Nibble(x, k) < 16
  {
  }

  lemma SameNibble(x: word, y: word, k: nat)
    requires k < 8 && HexWord(x) == HexWord(y)
    ensures Nibble(x, k) == Nibble(y, k)
  {
    assert HexWord(x)[k] == HexWord(y)[k];
    NibbleIsSmall(x, k);
    NibbleIsSmall(y, k);
    DigitsDiffer(Nibble(x, k), Nibble(y, k));
  }

  /** Different words print differently: nothing of the hash is lost in its text. */
  lemma HexWordIsInjective(x: word, y: word)
    requires HexWord(x) == HexWord(y)
    ensures x == y
  {
    SameNibble(x, y, 0);
    SameNibble(x, y, 1);
    SameNibble(x, y, 2);
    SameNibble(x, y, 3);
    SameNibble(x, y, 4);
    SameNibble(x, y, 5);
    SameNibble(x, y, 6);
    SameNibble(x, y, 7);
    NibblesDetermineWord(x, y);
  }

  /** Byte b of a word, counted from the least significant. */
  function WordByte(w: word, b: nat): word
    requires b < 4
  {
    if b == 0 then w & 0xff else if b == 1 then (w >> 8) & 0xff
    else if b == 2 then (w >> 16) & 0xff else (w >> 24) & 0xff
  }

  lemma ByteThenNibble(w: word)
    ensures (w & 0xff) >> 4 == (w >> 4) & 0xf && (w & 0xff) & 0xf == w & 0xf
    ensures ((w >> 8) & 0xff) >> 4 == (w >> 12) & 0xf && ((w >> 8) & 0xff) & 0xf == (w >> 8) & 0xf
    ensures ((w >> 16) & 0xff) >> 4 == (w >> 20) & 0xf && ((w >> 16) & 0xff) & 0xf == (w >> 16) & 0xf
    ensures ((w >> 24) & 0xff) >> 4 == (w >> 28) & 0xf && ((w >> 24) & 0xff) & 0xf == (w >> 24) & 0xf
  {
  }

  lemma TwoNibblesOfByte(w: word, b: nat)
    requires b < 4
    ensures WordByte(w, b) >> 4 == Nibble(w, 6 - 2 * b)
    ensures WordByte(w, b) & 0xf == Nibble(w, 7 - 2 * b)
  {
    ByteThenNibble(w);
    if b == 0 { } else if b == 1 { } else if b == 2 { } else { }
  }

  // ---- The streaming computation ---------------------------------------------------------------

  function Words(s: seq<word>): Eight
    requires |s| == 8
  {
    Eight(s[0], s[1], s[2], s[3], s[4], s[5], s[6], s[7])
  }

  lemma AnyOrder(a: word, b: word, c: word, d: word)
    ensures Sum4(a, b, c, d) == Sum4(d, c, b, a)
  {
  }

  /** The first 16 words of the schedule are the block's own. */
  method LoadBlock(block: seq<byte>, w: array<word>)
    requires |block| == BLOCK_LEN && w.Length >= 16
    modifies w
    ensures w[..16] == Parse(block)
  {
    for i := 0 to 16
      invariant forall t :: 0 <= t < i ==> w[t] == BlockWord(block, t)
    {
      w[i] := BlockWord(block, i);
    }
  }

  /** The rest of the schedule, each word from four earlier ones. */
  method ExtendSchedule(w: array<word>)
    requires w.Length >= 16
    modifies w
    ensures w[..] == Schedule(old(w[..16]), w.Length)
  {
    ghost var m := w[..16];
    for i := 16 to w.Length
      invariant forall t :: 0 <= t < i ==> w[t] == W(m, t)
    {
      var s0 := SmallSigma0(w[i - 15]);
      var s1 := SmallSigma1(w[i - 2]);
      AnyOrder(w[i - 16], s0, w[i - 7], s1);
      w[i] := Sum4(w[i - 16], s0, w[i - 7], s1);
    }
  }

  /** One round: two temporaries, and every variable moved down by one. */
  method OneRound(x: Eight, ki: word, wi: word) returns (r: Eight)
    ensures r == Round(x, ki, wi)
  {
    var a, b, c, d := x.a, x.b, x.c, x.d;
    var e, f, g, h := x.e, x.f, x.g, x.h;
    var s1 := BigSigma1(e);
    var ch := Ch(e, f, g);
    var temp1 := Add(Add(Add(Add(h, s1), ch), ki), wi);
    var s0 := BigSigma0(a);
    var maj := Maj(a, b, c);
    var temp2 := Add(s0, maj);
    h := g;
    g := f;
    f := e;
    e := Add(d, temp1);
    d := c;
    c := b;
    b := a;
    a := Add(temp1, temp2);
    r := Eight(a, b, c, d, e, f, g, h);
  }

  lemma RoundsSnoc(h: Eight, w: seq<word>, t: nat)
    requires t < |w| <= ROUNDS
    ensures Rounds(h, w[..t + 1]) == Round(Rounds(h, w[..t]), K(t), w[t])
  {
    assert w[..t + 1][..t] == w[..t];
  }

  method Mix(start: Eight, w: array<word>) returns (r: Eight)
    requires w.Length == ROUNDS
    ensures r == Rounds(start, w[..])
  {
    r := start;
    for i := 0 to ROUNDS
      invariant r == Rounds(start, w[..i])
    {
      RoundsSnoc(start, w[..], i);
      assert w[..][..i] == w[..i] && w[..][..i + 1] == w[..i + 1];
      r := OneRound(r, K(i), w[i]);
    }
    assert w[..ROUNDS] == w[..];
  }

  function HexPair(byt: word): seq<char> { [HexDigit(byt >> 4), HexDigit(byt & 0xf)] }

  lemma PairOfByte(w: word, k: nat)
    requires k < 4
    ensures HexPair(WordByte(w, 3 - k)) == [HexDigit(Nibble(w, 2 * k)), HexDigit(Nibble(w, 2 * k + 1))]
  {
    TwoNibblesOfByte(w, 3 - k);
    assert Nibble(w, 6 - 2 * (3 - k)) == Nibble(w, 2 * k) && Nibble(w, 7 - 2 * (3 - k)) == Nibble(w, 2 * k + 1);
  }

  lemma PairOfWord(w: word, k: nat)
    requires k < 4
    ensures HexWord(w)[2 * k..2 * k + 2] == [HexDigit(Nibble(w, 2 * k)), HexDigit(Nibble(w, 2 * k + 1))]
  {
  }

  lemma NextSlice<T>(s: seq<T>, i: nat, j: nat)
    requires i <= j <= |s|
    ensures s[..i] + s[i..j] == s[..j]
  {
  }

  /** The hexadecimal form of one word: byte by byte, high digit first. */
  method WordHex(w: word) returns (hex: seq<char>)
    ensures hex == HexWord(w)
  {
    hex := [];
    for k := 0 to 4
      invariant hex == HexWord(w)[..2 * k]
    {
      var pair := HexPair(WordByte(w, 3 - k));
      PairOfByte(w, k);
      PairOfWord(w, k);
      NextSlice(HexWord(w), 2 * k, 2 * k + 2);
      hex := hex + pair;
    }
  }

  lemma OneMoreByte(m: seq<byte>, data: seq<byte>, i: nat)
    requires i < |data|
    ensures (m + data[..i]) + [data[i]] == m + data[..i + 1]
  {
  }

  class Context {
    const state: array<word>
    const buffer: array<byte>
    var bitLen: nat
    var bufferLen: nat

    /** The compression function, and every byte given to Update so far. */
    ghost const f: (Eight, seq<byte>) -> Eight
    ghost var msg: seq<byte>

    ghost predicate Valid()
      reads this, state, buffer
    {
      && state.Length == 8 && buffer.Length == BLOCK_LEN
      && bufferLen < BLOCK_LEN
      && Compresses(f)
      && Holds(f, H0, Words(state[..]), buffer[..bufferLen], bitLen, msg)
    }

    constructor (ghost compress: (Eight, seq<byte>) -> Eight)
      requires Compresses(compress)
      ensures Valid() && f == compress && msg == [] && fresh(state) && fresh(buffer)
    {
      state := new word[8];
      buffer := new byte[BLOCK_LEN];
      bitLen := 0;
      bufferLen := 0;
      f := compress;
      msg := [];
      new;
      Begin();
    }

    /** The initial hash value, over an empty message. */
    method Begin()
      requires state.Length == 8 && buffer.Length == BLOCK_LEN && Compresses(f)
      requires bufferLen == 0 && bitLen == 0 && msg == []
      modifies state
      ensures Valid()
    {
      SetState(H0);
      HoldsAtStart(f, H0);
      assert buffer[..bufferLen] == [];
    }

    method SetState(h: Eight)
      requires state.Length == 8
      modifies state
      ensures Words(state[..]) == h
    {
      state[0], state[1], state[2], state[3] := h.a, h.b, h.c, h.d;
      state[4], state[5], state[6], state[7] := h.e, h.f, h.g, h.h;
    }

    method AddToState(r: Eight)
      requires state.Length == 8
      modifies state
      ensures Words(state[..]) == Sum(old(Words(state[..])), r)
    {
      state[0] := Add(state[0], r.a);
      state[1] := Add(state[1], r.b);
      state[2] := Add(state[2], r.c);
      state[3] := Add(state[3], r.d);
      state[4] := Add(state[4], r.e);
      state[5] := Add(state[5], r.f);
      state[6] := Add(state[6], r.g);
      state[7] := Add(state[7], r.h);
    }

    /** Adds one 64-byte block, the buffer's, into the state. */
    method CompressBuffer()
      requires state.Length == 8 && buffer.Length == BLOCK_LEN && Compresses(f)
      modifies state
      ensures Words(state[..]) == f(old(Words(state[..])), buffer[..])
    {
      ghost var h, block := Words(state[..]), buffer[..];
      var w := new word[ROUNDS];
      LoadBlock(buffer[..], w);
      ExtendSchedule(w);
      var r := Mix(Words(state[..]), w);
      assert Sum(h, r) == Compress(h, block);
      AddToState(r);
    }

    method UpdateByte(x: byte)
      requires Valid()
      modifies this`bitLen, this`bufferLen, this`msg, state, buffer
      ensures Valid() && msg == old(msg) + [x]
    {
      if bufferLen == BLOCK_LEN - 1 {
        CompleteBlock(f, H0, Words(state[..]), buffer[..bufferLen], bitLen, msg, x);
      } else {
        AppendToBuffer(f, H0, Words(state[..]), buffer[..bufferLen], bitLen, msg, x);
      }
      Buffer(x);
      msg := msg + [x];
    }

    /** The byte goes into the buffer; a full buffer is compressed and emptied. */
    method Buffer(x: byte)
      requires state.Length == 8 && buffer.Length == BLOCK_LEN && Compresses(f) && bufferLen < BLOCK_LEN
      modifies this`bitLen, this`bufferLen, state, buffer
      ensures old(bufferLen) < BLOCK_LEN - 1 ==>
                bufferLen == old(bufferLen) + 1 && buffer[..bufferLen] == old(buffer[..bufferLen]) + [x] &&
                Words(state[..]) == old(Words(state[..])) && bitLen == old(bitLen)
      ensures old(bufferLen) == BLOCK_LEN - 1 ==>
                bufferLen == 0 && buffer[..bufferLen] == [] && bitLen == (old(bitLen) + 512) % BITS_WRAP &&
                Words(state[..]) == f(old(Words(state[..])), old(buffer[..bufferLen]) + [x])
    {
      ghost var buffered := buffer[..bufferLen];
      buffer[bufferLen] := x;
      bufferLen := bufferLen + 1;
      assert buffer[..bufferLen] == buffered + [x];
      if bufferLen == BLOCK_LEN {
        assert buffer[..] == buffered + [x];
        CompressBuffer();
        bitLen := (bitLen + 512) % BITS_WRAP;
        bufferLen := 0;
      }
    }

    /** Takes in a chunk of any length. */
    method Update(data: seq<byte>)
      requires Valid()
      modifies this`bitLen, this`bufferLen, this`msg, state, buffer
      ensures Valid() && msg == old(msg) + data
    {
      for i := 0 to |data|
        invariant Valid() && msg == old(msg) + data[..i]
      {
        OneMoreByte(old(msg), data, i);
        UpdateByte(data[i]);
      }
      assert data[..|data|] == data;
    }

    /** buffer[i..limit] is overwritten with zeros. */
    method ZeroFill(i: nat, limit: nat)
      requires i <= limit <= buffer.Length
      modifies buffer
      ensures buffer[..limit] == old(buffer[..i]) + Zeros(limit - i)
    {
      var j := i;
      while j < limit
        invariant i <= j <= limit
        invariant buffer[..i] == old(buffer[..i])
        invariant forall k :: i <= k < j ==> buffer[k] == 0
      {
        buffer[j] := 0;
        j := j + 1;
      }
    }

    /** The eight length bytes at the end of the last block, most significant first. */
    method PutLength()
      requires buffer.Length == BLOCK_LEN
      modifies buffer
      ensures buffer[..] == old(buffer[..56]) + ToBig(bitLen, 8)
    {
      var i := 56;
      while i < BLOCK_LEN
        invariant 56 <= i <= BLOCK_LEN
        invariant buffer[..56] == old(buffer[..56])
        invariant forall k :: 56 <= k < i ==> buffer[k] == ToBig(bitLen, 8)[k - 56]
      {
        ToBigAt(bitLen, 8, i - 56);
        buffer[i] := (bitLen / Pow256(BLOCK_LEN - 1 - i)) % 256;
        i := i + 1;
      }
    }

    /** No room for the length: the block is filled up with zeros and compressed. */
    method SpillBlock(i: nat)
      requires state.Length == 8 && buffer.Length == BLOCK_LEN && Compresses(f) && i <= BLOCK_LEN
      modifies state, buffer
      ensures Words(state[..]) == f(old(Words(state[..])), old(buffer[..i]) + Zeros(BLOCK_LEN - i))
    {
      ZeroFill(i, BLOCK_LEN);
      assert buffer[..] == buffer[..BLOCK_LEN];
      CompressBuffer();
    }

    /** The block that ends in the length. */
    method LastBlock(i: nat)
      requires state.Length == 8 && buffer.Length == BLOCK_LEN && Compresses(f) && i <= 56
      modifies state, buffer
      ensures Words(state[..]) ==
              f(old(Words(state[..])), old(buffer[..i]) + Zeros(56 - i) + ToBig(bitLen, 8))
    {
      ZeroFill(i, 56);
      PutLength();
      CompressBuffer();
    }

    /** The 0x80 after the message, then one or two blocks. */
    method PadAndCompress()
      requires state.Length == 8 && buffer.Length == BLOCK_LEN && Compresses(f) && bufferLen < BLOCK_LEN
      modifies state, buffer
      ensures Words(state[..]) == LastBlocks(f, old(Words(state[..])), old(buffer[..bufferLen]), ToBig(bitLen, 8))
    {
      ghost var buffered := buffer[..bufferLen];
      var i := bufferLen;
      buffer[i] := 0x80;
      i := i + 1;
      assert buffer[..i] == buffered + [0x80];
      if i > 56 {
        SpillBlock(i);
        i := 0;
        assert buffer[..i] + Zeros(56 - i) == Zeros(56);
      }
      LastBlock(i);
    }

    /** Pads what is left in the buffer and compresses it. */
    method Finish()
      requires Valid()
      modifies this`bitLen, state, buffer
      ensures Words(state[..]) == Digest(f, H0, msg)
    {
      LengthInTheEnd(f, H0, Words(state[..]), buffer[..bufferLen], bitLen, msg);
      LastBlocksFinish(f, H0, Words(state[..]), buffer[..bufferLen], bitLen, msg);
      bitLen := (bitLen + bufferLen * 8) % BITS_WRAP;
      PadAndCompress();
    }

    /** The state in hexadecimal, word by word. */
    method StateHex() returns (hex: seq<char>)
      requires state.Length == 8
      ensures hex == Hex(Words(state[..]))
    {
      hex := [];
      for w := 0 to 8
        invariant hex == HexOf(Words(state[..]), w)
      {
        var text := WordHex(state[w]);
        assert WordAt(Words(state[..]), w) == state[w];
        hex := hex + text;
      }
    }

    method FinalHex() returns (hex: seq<char>)
      requires Valid()
      modifies this`bitLen, state, buffer
      ensures hex == Hex(Digest(f, H0, msg))
    {
      Finish();
      hex := StateHex();
    }
  }

  // ---- Hashing a file ------------------------------------------------------------------------------

  /** What opening and reading a file gave: the results of the successive reads, and whether
      the stream ended in an error. */
  datatype File = Missing | Opened(chunks: seq<seq<byte>>, failed: bool)

  /** Reading stops at the first empty read. */
  function Gathered(chunks: seq<seq<byte>>): seq<byte> {
    if chunks == [] || chunks[0] == [] then [] else chunks[0] + Gathered(chunks[1..])
  }

  lemma GatheredFirst(done: seq<byte>, rest: seq<seq<byte>>)
    requires rest != [] && rest[0] != []
    ensures (done + rest[0]) + Gathered(rest[1..]) == done + Gathered(rest)
  {
  }

  method Absorb(chunks: seq<seq<byte>>, ghost f: (Eight, seq<byte>) -> Eight) returns (ctx: Context)
    requires Compresses(f)
    ensures ctx.Valid() && fresh(ctx) && fresh(ctx.state) && fresh(ctx.buffer)
    ensures ctx.f == f && ctx.msg == Gathered(chunks)
  {
    ctx := new Context(f);
    var rest := chunks;
    while rest != [] && rest[0] != []
      invariant ctx.Valid() && ctx.f == f && fresh(ctx) && fresh(ctx.state) && fresh(ctx.buffer)
      invariant ctx.msg + Gathered(rest) == Gathered(chunks)
      decreases rest
    {
      GatheredFirst(ctx.msg, rest);
      ctx.Update(rest[0]);
      rest := rest[1..];
    }
    assert ctx.msg + [] == ctx.msg;
  }

  lemma StepCompresses()
    ensures Compresses(Step)
  {
  }

  /** The seal of a file depends on its bytes alone, however the reads cut them up. */
  method HashFile(file: File) returns (ok: bool, hex: seq<char>)
    ensures ok == (file.Opened? && !file.failed)
    ensures ok ==> hex == Hex(Hash(Gathered(file.chunks)))
  {
    ok, hex := file.Opened? && !file.failed, [];
    if ok {
      StepCompresses();
      var ctx := Absorb(file.chunks, Step);
      hex := ctx.FinalHex();
    }
  }
}
