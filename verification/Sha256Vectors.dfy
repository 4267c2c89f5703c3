/** SHA-256 against what it is defined by outside this project: its functions bit by bit, its constants
    as the roots of the primes, and the digest of the message "abc", worked through word by word. */
module Sha256Vectors {
  import opened Bytes
  import opened BlockHash
  import opened Sha256

  // ---- The functions, bit by bit ----------------------------------------------------------------

  /** A rotation: the n low bits come out on top, and the others move down by n. */
  lemma RotationMovesEveryBit(x: word, n: bv32)
    requires 0 < n < 32
    ensures ROTR(x, n) >> (32 - n) == x & ((1 << n) - 1)
    ensures ROTR(x, n) & ((1 << (32 - n)) - 1) == x >> n
  {
  }

  /** Ch takes each bit from y where x has a one, and from z elsewhere. */
  lemma ChChooses(x: word, y: word, z: word)
    ensures Ch(x, y, z) & x == y & x && Ch(x, y, z) & !x == z & !x
  {
  }

  /** Maj is each bit that x and y agree on. */
  lemma MajKeepsWhatTwoAgreeOn(x: word, y: word, z: word)
    ensures Maj(x, y, z) & (x & y) == x & y && Maj(x, y, z) & !(x | y) == 0
  {
  }

  /** Where x and y differ, z decides. */
  lemma MajIsDecidedByTheThird(x: word, y: word, z: word)
    ensures Maj(x, y, z) & (x ^ y) == z & (x ^ y)
  {
  }

  // ---- The constants ---------------------------------------------------------------------------------

  /** k is the first 32 bits of the fraction of the cube root of p: c is that root times 2^32, cut. */
  ghost predicate CubeRoot(k: word, p: nat, c: nat) {
    && c * c * c <= p * 0x1_0000_0000_0000_0000_0000_0000 < (c + 1) * (c + 1) * (c + 1)
    && k as int == c % 0x1_0000_0000
  }

  ghost predicate SquareRoot(k: word, p: nat, c: nat) {
    && c * c <= p * 0x1_0000_0000_0000_0000 < (c + 1) * (c + 1)
    && k as int == c % 0x1_0000_0000
  }

  /** The first 64 primes. */
  function Prime(t: nat): nat
    requires t < 64
  {
    match t / 8
    case 0 => Row(t % 8, 2, 3, 5, 7, 11, 13, 17, 19)
    case 1 => Row(t % 8, 23, 29, 31, 37, 41, 43, 47, 53)
    case 2 => Row(t % 8, 59, 61, 67, 71, 73, 79, 83, 89)
    case 3 => Row(t % 8, 97, 101, 103, 107, 109, 113, 127, 131)
    case 4 => Row(t % 8, 137, 139, 149, 151, 157, 163, 167, 173)
    case 5 => Row(t % 8, 179, 181, 191, 193, 197, 199, 211, 223)
    case 6 => Row(t % 8, 227, 229, 233, 239, 241, 251, 257, 263)
    case _ => Row(t % 8, 269, 271, 277, 281, 283, 293, 307, 311)
  }

  ghost predicate IsCubeRoot(t: nat) {
    t < 64 && exists c :: CubeRoot(K(t), Prime(t), c)
  }

  lemma Roots0(t: nat)
    requires 0 <= t < 4
    ensures IsCubeRoot(t)
  {
    assert K(0) == 0x428a2f98 && Prime(0) == 2 && CubeRoot(0x428a2f98, 2, 0x1428a2f98);
    assert K(1) == 0x71374491 && Prime(1) == 3 && CubeRoot(0x71374491, 3, 0x171374491);
    assert K(2) == 0xb5c0fbcf && Prime(2) == 5 && CubeRoot(0xb5c0fbcf, 5, 0x1b5c0fbcf);
    assert K(3) == 0xe9b5dba5 && Prime(3) == 7 && CubeRoot(0xe9b5dba5, 7, 0x1e9b5dba5);
    assert t in {0, 1, 2, 3};
  }

  lemma Roots4(t: nat)
    requires 4 <= t < 8
    ensures IsCubeRoot(t)
  {
    assert K(4) == 0x3956c25b && Prime(4) == 11 && CubeRoot(0x3956c25b, 11, 0x23956c25b);
    assert K(5) == 0x59f111f1 && Prime(5) == 13 && CubeRoot(0x59f111f1, 13, 0x259f111f1);
    assert K(6) == 0x923f82a4 && Prime(6) == 17 && CubeRoot(0x923f82a4, 17, 0x2923f82a4);
    assert K(7) == 0xab1c5ed5 && Prime(7) == 19 && CubeRoot(0xab1c5ed5, 19, 0x2ab1c5ed5);
    assert t in {4, 5, 6, 7};
  }

  lemma Roots8(t: nat)
    requires 8 <= t < 12
    ensures IsCubeRoot(t)
  {
    assert K(8) == 0xd807aa98 && Prime(8) == 23 && CubeRoot(0xd807aa98, 23, 0x2d807aa98);
    assert K(9) == 0x12835b01 && Prime(9) == 29 && CubeRoot(0x12835b01, 29, 0x312835b01);
    assert K(10) == 0x243185be && Prime(10) == 31 && CubeRoot(0x243185be, 31, 0x3243185be);
    assert K(11) == 0x550c7dc3 && Prime(11) == 37 && CubeRoot(0x550c7dc3, 37, 0x3550c7dc3);
    assert t in {8, 9, 10, 11};
  }

  lemma Roots12(t: nat)
    requires 12 <= t < 16
    ensures IsCubeRoot(t)
  {
    assert K(12) == 0x72be5d74 && Prime(12) == 41 && CubeRoot(0x72be5d74, 41, 0x372be5d74);
    assert K(13) == 0x80deb1fe && Prime(13) == 43 && CubeRoot(0x80deb1fe, 43, 0x380deb1fe);
    assert K(14) == 0x9bdc06a7 && Prime(14) == 47 && CubeRoot(0x9bdc06a7, 47, 0x39bdc06a7);
    assert K(15) == 0xc19bf174 && Prime(15) == 53 && CubeRoot(0xc19bf174, 53, 0x3c19bf174);
    assert t in {12, 13, 14, 15};
  }

  lemma Roots16(t: nat)
    requires 16 <= t < 20
    ensures IsCubeRoot(t)
  {
    assert K(16) == 0xe49b69c1 && Prime(16) == 59 && CubeRoot(0xe49b69c1, 59, 0x3e49b69c1);
    assert K(17) == 0xefbe4786 && Prime(17) == 61 && CubeRoot(0xefbe4786, 61, 0x3efbe4786);
    assert K(18) == 0x0fc19dc6 && Prime(18) == 67 && CubeRoot(0x0fc19dc6, 67, 0x40fc19dc6);
    assert K(19) == 0x240ca1cc && Prime(19) == 71 && CubeRoot(0x240ca1cc, 71, 0x4240ca1cc);
    assert t in {16, 17, 18, 19};
  }

  lemma Roots20(t: nat)
    requires 20 <= t < 24
    ensures IsCubeRoot(t)
  {
    assert K(20) == 0x2de92c6f && Prime(20) == 73 && CubeRoot(0x2de92c6f, 73, 0x42de92c6f);
    assert K(21) == 0x4a7484aa && Prime(21) == 79 && CubeRoot(0x4a7484aa, 79, 0x44a7484aa);
    assert K(22) == 0x5cb0a9dc && Prime(22) == 83 && CubeRoot(0x5cb0a9dc, 83, 0x45cb0a9dc);
    assert K(23) == 0x76f988da && Prime(23) == 89 && CubeRoot(0x76f988da, 89, 0x476f988da);
    assert t in {20, 21, 22, 23};
  }

  lemma Roots24(t: nat)
    requires 24 <= t < 28
    ensures IsCubeRoot(t)
  {
    assert K(24) == 0x983e5152 && Prime(24) == 97 && CubeRoot(0x983e5152, 97, 0x4983e5152);
    assert K(25) == 0xa831c66d && Prime(25) == 101 && CubeRoot(0xa831c66d, 101, 0x4a831c66d);
    assert K(26) == 0xb00327c8 && Prime(26) == 103 && CubeRoot(0xb00327c8, 103, 0x4b00327c8);
    assert K(27) == 0xbf597fc7 && Prime(27) == 107 && CubeRoot(0xbf597fc7, 107, 0x4bf597fc7);
    assert t in {24, 25, 26, 27};
  }

  lemma Roots28(t: nat)
    requires 28 <= t < 32
    ensures IsCubeRoot(t)
  {
    assert K(28) == 0xc6e00bf3 && Prime(28) == 109 && CubeRoot(0xc6e00bf3, 109, 0x4c6e00bf3);
    assert K(29) == 0xd5a79147 && Prime(29) == 113 && CubeRoot(0xd5a79147, 113, 0x4d5a79147);
    assert K(30) == 0x06ca6351 && Prime(30) == 127 && CubeRoot(0x06ca6351, 127, 0x506ca6351);
    assert K(31) == 0x14292967 && Prime(31) == 131 && CubeRoot(0x14292967, 131, 0x514292967);
    assert t in {28, 29, 30, 31};
  }

  lemma Roots32(t: nat)
    requires 32 <= t < 36
    ensures IsCubeRoot(t)
  {
    assert K(32) == 0x27b70a85 && Prime(32) == 137 && CubeRoot(0x27b70a85, 137, 0x527b70a85);
    assert K(33) == 0x2e1b2138 && Prime(33) == 139 && CubeRoot(0x2e1b2138, 139, 0x52e1b2138);
    assert K(34) == 0x4d2c6dfc && Prime(34) == 149 && CubeRoot(0x4d2c6dfc, 149, 0x54d2c6dfc);
    assert K(35) == 0x53380d13 && Prime(35) == 151 && CubeRoot(0x53380d13, 151, 0x553380d13);
    assert t in {32, 33, 34, 35};
  }

  lemma Roots36(t: nat)
    requires 36 <= t < 40
    ensures IsCubeRoot(t)
  {
    assert K(36) == 0x650a7354 && Prime(36) == 157 && CubeRoot(0x650a7354, 157, 0x5650a7354);
    assert K(37) == 0x766a0abb && Prime(37) == 163 && CubeRoot(0x766a0abb, 163, 0x5766a0abb);
    assert K(38) == 0x81c2c92e && Prime(38) == 167 && CubeRoot(0x81c2c92e, 167, 0x581c2c92e);
    assert K(39) == 0x92722c85 && Prime(39) == 173 && CubeRoot(0x92722c85, 173, 0x592722c85);
    assert t in {36, 37, 38, 39};
  }

  lemma Roots40(t: nat)
    requires 40 <= t < 44
    ensures IsCubeRoot(t)
  {
    assert K(40) == 0xa2bfe8a1 && Prime(40) == 179 && CubeRoot(0xa2bfe8a1, 179, 0x5a2bfe8a1);
    assert K(41) == 0xa81a664b && Prime(41) == 181 && CubeRoot(0xa81a664b, 181, 0x5a81a664b);
    assert K(42) == 0xc24b8b70 && Prime(42) == 191 && CubeRoot(0xc24b8b70, 191, 0x5c24b8b70);
    assert K(43) == 0xc76c51a3 && Prime(43) == 193 && CubeRoot(0xc76c51a3, 193, 0x5c76c51a3);
    assert t in {40, 41, 42, 43};
  }

  lemma Roots44(t: nat)
    requires 44 <= t < 48
    ensures IsCubeRoot(t)
  {
    assert K(44) == 0xd192e819 && Prime(44) == 197 && CubeRoot(0xd192e819, 197, 0x5d192e819);
    assert K(45) == 0xd6990624 && Prime(45) == 199 && CubeRoot(0xd6990624, 199, 0x5d6990624);
    assert K(46) == 0xf40e3585 && Prime(46) == 211 && CubeRoot(0xf40e3585, 211, 0x5f40e3585);
    assert K(47) == 0x106aa070 && Prime(47) == 223 && CubeRoot(0x106aa070, 223, 0x6106aa070);
    assert t in {44, 45, 46, 47};
  }

  lemma Roots48(t: nat)
    requires 48 <= t < 52
    ensures IsCubeRoot(t)
  {
    assert K(48) == 0x19a4c116 && Prime(48) == 227 && CubeRoot(0x19a4c116, 227, 0x619a4c116);
    assert K(49) == 0x1e376c08 && Prime(49) == 229 && CubeRoot(0x1e376c08, 229, 0x61e376c08);
    assert K(50) == 0x2748774c && Prime(50) == 233 && CubeRoot(0x2748774c, 233, 0x62748774c);
    assert K(51) == 0x34b0bcb5 && Prime(51) == 239 && CubeRoot(0x34b0bcb5, 239, 0x634b0bcb5);
    assert t in {48, 49, 50, 51};
  }

  lemma Roots52(t: nat)
    requires 52 <= t < 56
    ensures IsCubeRoot(t)
  {
    assert K(52) == 0x391c0cb3 && Prime(52) == 241 && CubeRoot(0x391c0cb3, 241, 0x6391c0cb3);
    assert K(53) == 0x4ed8aa4a && Prime(53) == 251 && CubeRoot(0x4ed8aa4a, 251, 0x64ed8aa4a);
    assert K(54) == 0x5b9cca4f && Prime(54) == 257 && CubeRoot(0x5b9cca4f, 257, 0x65b9cca4f);
    assert K(55) == 0x682e6ff3 && Prime(55) == 263 && CubeRoot(0x682e6ff3, 263, 0x6682e6ff3);
    assert t in {52, 53, 54, 55};
  }

  lemma Roots56(t: nat)
    requires 56 <= t < 60
    ensures IsCubeRoot(t)
  {
    assert K(56) == 0x748f82ee && Prime(56) == 269 && CubeRoot(0x748f82ee, 269, 0x6748f82ee);
    assert K(57) == 0x78a5636f && Prime(57) == 271 && CubeRoot(0x78a5636f, 271, 0x678a5636f);
    assert K(58) == 0x84c87814 && Prime(58) == 277 && CubeRoot(0x84c87814, 277, 0x684c87814);
    assert K(59) == 0x8cc70208 && Prime(59) == 281 && CubeRoot(0x8cc70208, 281, 0x68cc70208);
    assert t in {56, 57, 58, 59};
  }

  lemma Roots60(t: nat)
    requires 60 <= t < 64
    ensures IsCubeRoot(t)
  {
    assert K(60) == 0x90befffa && Prime(60) == 283 && CubeRoot(0x90befffa, 283, 0x690befffa);
    assert K(61) == 0xa4506ceb && Prime(61) == 293 && CubeRoot(0xa4506ceb, 293, 0x6a4506ceb);
    assert K(62) == 0xbef9a3f7 && Prime(62) == 307 && CubeRoot(0xbef9a3f7, 307, 0x6bef9a3f7);
    assert K(63) == 0xc67178f2 && Prime(63) == 311 && CubeRoot(0xc67178f2, 311, 0x6c67178f2);
    assert t in {60, 61, 62, 63};
  }

  /** The round constants are the cube roots of the first 64 primes. */
  lemma RoundConstantsAreCubeRoots(t: nat)
    requires t < 64
    ensures exists c :: CubeRoot(K(t), Prime(t), c)
  {
    assert IsCubeRoot(t) by {
      match t / 4
      case 0 => Roots0(t);
      case 1 => Roots4(t);
      case 2 => Roots8(t);
      case 3 => Roots12(t);
      case 4 => Roots16(t);
      case 5 => Roots20(t);
      case 6 => Roots24(t);
      case 7 => Roots28(t);
      case 8 => Roots32(t);
      case 9 => Roots36(t);
      case 10 => Roots40(t);
      case 11 => Roots44(t);
      case 12 => Roots48(t);
      case 13 => Roots52(t);
      case 14 => Roots56(t);
      case _ => Roots60(t);
    }
  }

  /** The initial hash value is the square roots of the first eight primes. */
  lemma InitialHashIsSquareRoots(t: nat)
    requires t < 8
    ensures exists c :: SquareRoot(WordAt(H0, t), Prime(t), c)
  {
    var h := H0;
    assert WordAt(H0, 0) == 0x6a09e667 && Prime(0) == 2 && SquareRoot(0x6a09e667, 2, 0x16a09e667);
    assert WordAt(H0, 1) == 0xbb67ae85 && Prime(1) == 3 && SquareRoot(0xbb67ae85, 3, 0x1bb67ae85);
    assert WordAt(H0, 2) == 0x3c6ef372 && Prime(2) == 5 && SquareRoot(0x3c6ef372, 5, 0x23c6ef372);
    assert WordAt(H0, 3) == 0xa54ff53a && Prime(3) == 7 && SquareRoot(0xa54ff53a, 7, 0x2a54ff53a);
    assert WordAt(H0, 4) == 0x510e527f && Prime(4) == 11 && SquareRoot(0x510e527f, 11, 0x3510e527f);
    assert WordAt(H0, 5) == 0x9b05688c && Prime(5) == 13 && SquareRoot(0x9b05688c, 13, 0x39b05688c);
    assert WordAt(H0, 6) == 0x1f83d9ab && Prime(6) == 17 && SquareRoot(0x1f83d9ab, 17, 0x41f83d9ab);
    assert WordAt(H0, 7) == 0x5be0cd19 && Prime(7) == 19 && SquareRoot(0x5be0cd19, 19, 0x45be0cd19);
  }

  // ---- The message schedule of "abc" ------------------------------------------------------------------

  const ABC: seq<byte> := [0x61, 0x62, 0x63]

  lemma LengthOfAbc()
    ensures ToBig(24, 8) == [0, 0, 0, 0, 0, 0, 0, 24]
  {
    assert ToBig(0, 1) == [0];
    assert ToBig(0, 2) == [0, 0];
    assert ToBig(0, 3) == [0, 0, 0];
    assert ToBig(0, 4) == [0, 0, 0, 0];
    assert ToBig(0, 5) == [0, 0, 0, 0, 0];
    assert ToBig(0, 6) == [0, 0, 0, 0, 0, 0];
    assert ToBig(0, 7) == [0, 0, 0, 0, 0, 0, 0];
  }

  lemma PaddedAbc(p: seq<byte>)
    requires p == Pad(ABC)
    ensures |p| == 64 && p[0] == 0x61 && p[1] == 0x62 && p[2] == 0x63 && p[3] == 0x80 && p[63] == 24
    ensures forall i :: 4 <= i < 63 ==> p[i] == 0
  {
    LengthOfAbc();
    assert ZeroCount(3) == 52 && BitLength(3) == 24;
  }

  lemma ZeroWord(p: seq<byte>, t: nat)
    requires |p| == 64 && t < 16 && p[4 * t] == 0 && p[4 * t + 1] == 0 && p[4 * t + 2] == 0 && p[4 * t + 3] == 0
    ensures BlockWord(p, t) == 0
  {
  }

  lemma WordsOfAbc(p: seq<byte>)
    requires p == Pad(ABC)
    ensures |p| == 64 && BlockWord(p, 0) == 0x61626380 && BlockWord(p, 15) == 24
    ensures forall t :: 0 < t < 15 ==> BlockWord(p, t) == 0
  {
    PaddedAbc(p);
    assert ((0x61 as bv32) << 24) | ((0x62 as bv32) << 16) | ((0x63 as bv32) << 8) | (0x80 as bv32) == 0x61626380;
    forall t | 0 < t < 15 ensures BlockWord(p, t) == 0 {
      ZeroWord(p, t);
    }
  }

  /** Word t comes from four earlier ones. */
  ghost predicate Follows(w: seq<word>, t: nat) {
    16 <= t < |w| && w[t] == Sum4(SmallSigma1(w[t - 2]), w[t - 7], SmallSigma0(w[t - 15]), w[t - 16])
  }

  ghost predicate AllFollow(w: seq<word>) {
    |w| == 64 && forall t: nat {:trigger Follows(w, t)} :: 16 <= t < 64 ==> Follows(w, t)
  }

  lemma NextWord(w: seq<word>, t: nat)
    requires AllFollow(w) && 16 <= t < 64
    ensures w[t] == Sum4(SmallSigma1(w[t - 2]), w[t - 7], SmallSigma0(w[t - 15]), w[t - 16])
  {
    assert Follows(w, t);
  }

  lemma WordOfSchedule(m: seq<word>, t: nat)
    requires |m| == 16 && 16 <= t
    ensures W(m, t) == Sum4(SmallSigma1(W(m, t - 2)), W(m, t - 7), SmallSigma0(W(m, t - 15)), W(m, t - 16))
  {
  }

  lemma ScheduleFollows(m: seq<word>)
    requires |m| == 16
    ensures AllFollow(Schedule(m, ROUNDS))
  {
    var w := Schedule(m, ROUNDS);
    forall t: nat | 16 <= t < 64 ensures Follows(w, t) {
      assert w[t] == W(m, t);
      WordOfSchedule(m, t);
    }
  }

  lemma Words16(w: seq<word>)
    requires AllFollow(w)
    requires w[0] == 0x61626380 && w[1] == 0x00000000 && w[2] == 0x00000000 && w[3] == 0x00000000
    requires w[4] == 0x00000000 && w[5] == 0x00000000 && w[6] == 0x00000000 && w[7] == 0x00000000
    requires w[8] == 0x00000000 && w[9] == 0x00000000 && w[10] == 0x00000000 && w[11] == 0x00000000
    requires w[12] == 0x00000000 && w[13] == 0x00000000 && w[14] == 0x00000000 && w[15] == 0x00000018
    ensures w[16] == 0x61626380 && w[17] == 0x000f0000 && w[18] == 0x7da86405 && w[19] == 0x600003c6
    ensures w[20] == 0x3e9d7b78 && w[21] == 0x0183fc00 && w[22] == 0x12dcbfdb && w[23] == 0xe2e2c38e
    ensures w[24] == 0xc8215c1a && w[25] == 0xb73679a2 && w[26] == 0xe5bc3909 && w[27] == 0x32663c5b
    ensures w[28] == 0x9d209d67 && w[29] == 0xec8726cb && w[30] == 0x702138a4 && w[31] == 0xd3b7973b
  {
    assert Sum4(SmallSigma1(0x00000000), 0x00000000, SmallSigma0(0x00000000), 0x61626380) == 0x61626380;
    NextWord(w, 16);
    assert Sum4(SmallSigma1(0x00000018), 0x00000000, SmallSigma0(0x00000000), 0x00000000) == 0x000f0000;
    NextWord(w, 17);
    assert Sum4(SmallSigma1(0x61626380), 0x00000000, SmallSigma0(0x00000000), 0x00000000) == 0x7da86405;
    NextWord(w, 18);
    assert Sum4(SmallSigma1(0x000f0000), 0x00000000, SmallSigma0(0x00000000), 0x00000000) == 0x600003c6;
    NextWord(w, 19);
    assert Sum4(SmallSigma1(0x7da86405), 0x00000000, SmallSigma0(0x00000000), 0x00000000) == 0x3e9d7b78;
    NextWord(w, 20);
    assert Sum4(SmallSigma1(0x600003c6), 0x00000000, SmallSigma0(0x00000000), 0x00000000) == 0x0183fc00;
    NextWord(w, 21);
    assert Sum4(SmallSigma1(0x3e9d7b78), 0x00000018, SmallSigma0(0x00000000), 0x00000000) == 0x12dcbfdb;
    NextWord(w, 22);
    assert Sum4(SmallSigma1(0x0183fc00), 0x61626380, SmallSigma0(0x00000000), 0x00000000) == 0xe2e2c38e;
    NextWord(w, 23);
    assert Sum4(SmallSigma1(0x12dcbfdb), 0x000f0000, SmallSigma0(0x00000000), 0x00000000) == 0xc8215c1a;
    NextWord(w, 24);
    assert Sum4(SmallSigma1(0xe2e2c38e), 0x7da86405, SmallSigma0(0x00000000), 0x00000000) == 0xb73679a2;
    NextWord(w, 25);
    assert Sum4(SmallSigma1(0xc8215c1a), 0x600003c6, SmallSigma0(0x00000000), 0x00000000) == 0xe5bc3909;
    NextWord(w, 26);
    assert Sum4(SmallSigma1(0xb73679a2), 0x3e9d7b78, SmallSigma0(0x00000000), 0x00000000) == 0x32663c5b;
    NextWord(w, 27);
    assert Sum4(SmallSigma1(0xe5bc3909), 0x0183fc00, SmallSigma0(0x00000000), 0x00000000) == 0x9d209d67;
    NextWord(w, 28);
    assert Sum4(SmallSigma1(0x32663c5b), 0x12dcbfdb, SmallSigma0(0x00000000), 0x00000000) == 0xec8726cb;
    NextWord(w, 29);
    assert Sum4(SmallSigma1(0x9d209d67), 0xe2e2c38e, SmallSigma0(0x00000018), 0x00000000) == 0x702138a4;
    NextWord(w, 30);
    assert Sum4(SmallSigma1(0xec8726cb), 0xc8215c1a, SmallSigma0(0x61626380), 0x00000018) == 0xd3b7973b;
    NextWord(w, 31);
  }

  lemma Words32(w: seq<word>)
    requires AllFollow(w)
    requires w[16] == 0x61626380 && w[17] == 0x000f0000 && w[18] == 0x7da86405 && w[19] == 0x600003c6
    requires w[20] == 0x3e9d7b78 && w[21] == 0x0183fc00 && w[22] == 0x12dcbfdb && w[23] == 0xe2e2c38e
    requires w[24] == 0xc8215c1a && w[25] == 0xb73679a2 && w[26] == 0xe5bc3909 && w[27] == 0x32663c5b
    requires w[28] == 0x9d209d67 && w[29] == 0xec8726cb && w[30] == 0x702138a4 && w[31] == 0xd3b7973b
    ensures w[32] == 0x93f5997f && w[33] == 0x3b68ba73 && w[34] == 0xaff4ffc1 && w[35] == 0xf10a5c62
    ensures w[36] == 0x0a8b3996 && w[37] == 0x72af830a && w[38] == 0x9409e33e && w[39] == 0x24641522
    ensures w[40] == 0x9f47bf94 && w[41] == 0xf0a64f5a && w[42] == 0x3e246a79 && w[43] == 0x27333ba3
    ensures w[44] == 0x0c4763f2 && w[45] == 0x840abf27 && w[46] == 0x7a290d5d && w[47] == 0x065c43da
  {
    assert Sum4(SmallSigma1(0x702138a4), 0xb73679a2, SmallSigma0(0x000f0000), 0x61626380) == 0x93f5997f;
    NextWord(w, 32);
    assert Sum4(SmallSigma1(0xd3b7973b), 0xe5bc3909, SmallSigma0(0x7da86405), 0x000f0000) == 0x3b68ba73;
    NextWord(w, 33);
    assert Sum4(SmallSigma1(0x93f5997f), 0x32663c5b, SmallSigma0(0x600003c6), 0x7da86405) == 0xaff4ffc1;
    NextWord(w, 34);
    assert Sum4(SmallSigma1(0x3b68ba73), 0x9d209d67, SmallSigma0(0x3e9d7b78), 0x600003c6) == 0xf10a5c62;
    NextWord(w, 35);
    assert Sum4(SmallSigma1(0xaff4ffc1), 0xec8726cb, SmallSigma0(0x0183fc00), 0x3e9d7b78) == 0x0a8b3996;
    NextWord(w, 36);
    assert Sum4(SmallSigma1(0xf10a5c62), 0x702138a4, SmallSigma0(0x12dcbfdb), 0x0183fc00) == 0x72af830a;
    NextWord(w, 37);
    assert Sum4(SmallSigma1(0x0a8b3996), 0xd3b7973b, SmallSigma0(0xe2e2c38e), 0x12dcbfdb) == 0x9409e33e;
    NextWord(w, 38);
    assert Sum4(SmallSigma1(0x72af830a), 0x93f5997f, SmallSigma0(0xc8215c1a), 0xe2e2c38e) == 0x24641522;
    NextWord(w, 39);
    assert Sum4(SmallSigma1(0x9409e33e), 0x3b68ba73, SmallSigma0(0xb73679a2), 0xc8215c1a) == 0x9f47bf94;
    NextWord(w, 40);
    assert Sum4(SmallSigma1(0x24641522), 0xaff4ffc1, SmallSigma0(0xe5bc3909), 0xb73679a2) == 0xf0a64f5a;
    NextWord(w, 41);
    assert Sum4(SmallSigma1(0x9f47bf94), 0xf10a5c62, SmallSigma0(0x32663c5b), 0xe5bc3909) == 0x3e246a79;
    NextWord(w, 42);
    assert Sum4(SmallSigma1(0xf0a64f5a), 0x0a8b3996, SmallSigma0(0x9d209d67), 0x32663c5b) == 0x27333ba3;
    NextWord(w, 43);
    assert Sum4(SmallSigma1(0x3e246a79), 0x72af830a, SmallSigma0(0xec8726cb), 0x9d209d67) == 0x0c4763f2;
    NextWord(w, 44);
    assert Sum4(SmallSigma1(0x27333ba3), 0x9409e33e, SmallSigma0(0x702138a4), 0xec8726cb) == 0x840abf27;
    NextWord(w, 45);
    assert Sum4(SmallSigma1(0x0c4763f2), 0x24641522, SmallSigma0(0xd3b7973b), 0x702138a4) == 0x7a290d5d;
    NextWord(w, 46);
    assert Sum4(SmallSigma1(0x840abf27), 0x9f47bf94, SmallSigma0(0x93f5997f), 0xd3b7973b) == 0x065c43da;
    NextWord(w, 47);
  }

  lemma Words48(w: seq<word>)
    requires AllFollow(w)
    requires w[32] == 0x93f5997f && w[33] == 0x3b68ba73 && w[34] == 0xaff4ffc1 && w[35] == 0xf10a5c62
    requires w[36] == 0x0a8b3996 && w[37] == 0x72af830a && w[38] == 0x9409e33e && w[39] == 0x24641522
    requires w[40] == 0x9f47bf94 && w[41] == 0xf0a64f5a && w[42] == 0x3e246a79 && w[43] == 0x27333ba3
    requires w[44] == 0x0c4763f2 && w[45] == 0x840abf27 && w[46] == 0x7a290d5d && w[47] == 0x065c43da
    ensures w[48] == 0xfb3e89cb && w[49] == 0xcc7617db && w[50] == 0xb9e66c34 && w[51] == 0xa9993667
    ensures w[52] == 0x84badedd && w[53] == 0xc21462bc && w[54] == 0x1487472c && w[55] == 0xb20f7a99
    ensures w[56] == 0xef57b9cd && w[57] == 0xebe6b238 && w[58] == 0x9fe3095e && w[59] == 0x78bc8d4b
    ensures w[60] == 0xa43fcf15 && w[61] == 0x668b2ff8 && w[62] == 0xeeaba2cc && w[63] == 0x12b1edeb
  {
    assert Sum4(SmallSigma1(0x7a290d5d), 0xf0a64f5a, SmallSigma0(0x3b68ba73), 0x93f5997f) == 0xfb3e89cb;
    NextWord(w, 48);
    assert Sum4(SmallSigma1(0x065c43da), 0x3e246a79, SmallSigma0(0xaff4ffc1), 0x3b68ba73) == 0xcc7617db;
    NextWord(w, 49);
    assert Sum4(SmallSigma1(0xfb3e89cb), 0x27333ba3, SmallSigma0(0xf10a5c62), 0xaff4ffc1) == 0xb9e66c34;
    NextWord(w, 50);
    assert Sum4(SmallSigma1(0xcc7617db), 0x0c4763f2, SmallSigma0(0x0a8b3996), 0xf10a5c62) == 0xa9993667;
    NextWord(w, 51);
    assert Sum4(SmallSigma1(0xb9e66c34), 0x840abf27, SmallSigma0(0x72af830a), 0x0a8b3996) == 0x84badedd;
    NextWord(w, 52);
    assert Sum4(SmallSigma1(0xa9993667), 0x7a290d5d, SmallSigma0(0x9409e33e), 0x72af830a) == 0xc21462bc;
    NextWord(w, 53);
    assert Sum4(SmallSigma1(0x84badedd), 0x065c43da, SmallSigma0(0x24641522), 0x9409e33e) == 0x1487472c;
    NextWord(w, 54);
    assert Sum4(SmallSigma1(0xc21462bc), 0xfb3e89cb, SmallSigma0(0x9f47bf94), 0x24641522) == 0xb20f7a99;
    NextWord(w, 55);
    assert Sum4(SmallSigma1(0x1487472c), 0xcc7617db, SmallSigma0(0xf0a64f5a), 0x9f47bf94) == 0xef57b9cd;
    NextWord(w, 56);
    assert Sum4(SmallSigma1(0xb20f7a99), 0xb9e66c34, SmallSigma0(0x3e246a79), 0xf0a64f5a) == 0xebe6b238;
    NextWord(w, 57);
    assert Sum4(SmallSigma1(0xef57b9cd), 0xa9993667, SmallSigma0(0x27333ba3), 0x3e246a79) == 0x9fe3095e;
    NextWord(w, 58);
    assert Sum4(SmallSigma1(0xebe6b238), 0x84badedd, SmallSigma0(0x0c4763f2), 0x27333ba3) == 0x78bc8d4b;
    NextWord(w, 59);
    assert Sum4(SmallSigma1(0x9fe3095e), 0xc21462bc, SmallSigma0(0x840abf27), 0x0c4763f2) == 0xa43fcf15;
    NextWord(w, 60);
    assert Sum4(SmallSigma1(0x78bc8d4b), 0x1487472c, SmallSigma0(0x7a290d5d), 0x840abf27) == 0x668b2ff8;
    NextWord(w, 61);
    assert Sum4(SmallSigma1(0xa43fcf15), 0xb20f7a99, SmallSigma0(0x065c43da), 0x7a290d5d) == 0xeeaba2cc;
    NextWord(w, 62);
    assert Sum4(SmallSigma1(0x668b2ff8), 0xef57b9cd, SmallSigma0(0xfb3e89cb), 0x065c43da) == 0x12b1edeb;
    NextWord(w, 63);
  }

  // ---- The 64 rounds ----------------------------------------------------------------------------------

  /** Round t, with constant k[t] and word w[t], leads from the t-th of these values to the next. */
  ghost predicate Leads(v: nat -> Eight, k: seq<word>, w: seq<word>, t: nat) {
    t < |w| == |k| && v(t + 1) == Round(v(t), k[t], w[t])
  }

  ghost predicate AllLead(v: nat -> Eight, k: seq<word>, w: seq<word>) {
    |k| == |w| == 64 && forall t: nat {:trigger Leads(v, k, w, t)} :: t < 64 ==> Leads(v, k, w, t)
  }

  lemma NextRound(v: nat -> Eight, k: seq<word>, w: seq<word>, t: nat)
    requires AllLead(v, k, w) && t < 64
    ensures v(t + 1) == Round(v(t), k[t], w[t])
  {
    assert Leads(v, k, w, t);
  }

  lemma Rounds0(v: nat -> Eight, k: seq<word>, w: seq<word>)
    requires AllLead(v, k, w)
    requires v(0) ==
             Eight(0x6a09e667, 0xbb67ae85, 0x3c6ef372, 0xa54ff53a, 0x510e527f, 0x9b05688c, 0x1f83d9ab, 0x5be0cd19)
    requires k[0] == 0x428a2f98 && k[1] == 0x71374491 && k[2] == 0xb5c0fbcf && k[3] == 0xe9b5dba5
    requires w[0] == 0x61626380 && w[1] == 0x00000000 && w[2] == 0x00000000 && w[3] == 0x00000000
    ensures v(4) ==
            Eight(0xd550f666, 0xc8c347a7, 0x5a6ad9ad, 0x5d6aebcd, 0x24e00850, 0xf92939eb, 0x78ce7989, 0xfa2a4622)
  {
    var s0 := Eight(0x6a09e667, 0xbb67ae85, 0x3c6ef372, 0xa54ff53a, 0x510e527f, 0x9b05688c, 0x1f83d9ab, 0x5be0cd19);
    var s1 := Eight(0x5d6aebcd, 0x6a09e667, 0xbb67ae85, 0x3c6ef372, 0xfa2a4622, 0x510e527f, 0x9b05688c, 0x1f83d9ab);
    assert Round(s0, 0x428a2f98, 0x61626380) == s1;
    NextRound(v, k, w, 0);
    var s2 := Eight(0x5a6ad9ad, 0x5d6aebcd, 0x6a09e667, 0xbb67ae85, 0x78ce7989, 0xfa2a4622, 0x510e527f, 0x9b05688c);
    assert Round(s1, 0x71374491, 0x00000000) == s2;
    NextRound(v, k, w, 1);
    var s3 := Eight(0xc8c347a7, 0x5a6ad9ad, 0x5d6aebcd, 0x6a09e667, 0xf92939eb, 0x78ce7989, 0xfa2a4622, 0x510e527f);
    assert Round(s2, 0xb5c0fbcf, 0x00000000) == s3;
    NextRound(v, k, w, 2);
    var s4 := Eight(0xd550f666, 0xc8c347a7, 0x5a6ad9ad, 0x5d6aebcd, 0x24e00850, 0xf92939eb, 0x78ce7989, 0xfa2a4622);
    assert Round(s3, 0xe9b5dba5, 0x00000000) == s4;
    NextRound(v, k, w, 3);
  }

  lemma Rounds4(v: nat -> Eight, k: seq<word>, w: seq<word>)
    requires AllLead(v, k, w)
    requires v(4) ==
             Eight(0xd550f666, 0xc8c347a7, 0x5a6ad9ad, 0x5d6aebcd, 0x24e00850, 0xf92939eb, 0x78ce7989, 0xfa2a4622)
    requires k[4] == 0x3956c25b && k[5] == 0x59f111f1 && k[6] == 0x923f82a4 && k[7] == 0xab1c5ed5
    requires w[4] == 0x00000000 && w[5] == 0x00000000 && w[6] == 0x00000000 && w[7] == 0x00000000
    ensures v(8) ==
            Eight(0x85a07b5f, 0xe5030380, 0x2b4209f5, 0x04409a6a, 0x0c657a79, 0x9b27a401, 0x714260ad, 0x43ada245)
  {
    var s4 := Eight(0xd550f666, 0xc8c347a7, 0x5a6ad9ad, 0x5d6aebcd, 0x24e00850, 0xf92939eb, 0x78ce7989, 0xfa2a4622);
    var s5 := Eight(0x04409a6a, 0xd550f666, 0xc8c347a7, 0x5a6ad9ad, 0x43ada245, 0x24e00850, 0xf92939eb, 0x78ce7989);
    assert Round(s4, 0x3956c25b, 0x00000000) == s5;
    NextRound(v, k, w, 4);
    var s6 := Eight(0x2b4209f5, 0x04409a6a, 0xd550f666, 0xc8c347a7, 0x714260ad, 0x43ada245, 0x24e00850, 0xf92939eb);
    assert Round(s5, 0x59f111f1, 0x00000000) == s6;
    NextRound(v, k, w, 5);
    var s7 := Eight(0xe5030380, 0x2b4209f5, 0x04409a6a, 0xd550f666, 0x9b27a401, 0x714260ad, 0x43ada245, 0x24e00850);
    assert Round(s6, 0x923f82a4, 0x00000000) == s7;
    NextRound(v, k, w, 6);
    var s8 := Eight(0x85a07b5f, 0xe5030380, 0x2b4209f5, 0x04409a6a, 0x0c657a79, 0x9b27a401, 0x714260ad, 0x43ada245);
    assert Round(s7, 0xab1c5ed5, 0x00000000) == s8;
    NextRound(v, k, w, 7);
  }

  lemma Rounds8(v: nat -> Eight, k: seq<word>, w: seq<word>)
    requires AllLead(v, k, w)
    requires v(8) ==
             Eight(0x85a07b5f, 0xe5030380, 0x2b4209f5, 0x04409a6a, 0x0c657a79, 0x9b27a401, 0x714260ad, 0x43ada245)
    requires k[8] == 0xd807aa98 && k[9] == 0x12835b01 && k[10] == 0x243185be && k[11] == 0x550c7dc3
    requires k[12] == 0x72be5d74 && k[13] == 0x80deb1fe && k[14] == 0x9bdc06a7 && k[15] == 0xc19bf174
    requires w[8] == 0x00000000 && w[9] == 0x00000000 && w[10] == 0x00000000 && w[11] == 0x00000000
    requires w[12] == 0x00000000 && w[13] == 0x00000000 && w[14] == 0x00000000 && w[15] == 0x00000018
    ensures v(16) ==
            Eight(0xb0fa238e, 0xc0645fde, 0xd932eb16, 0x87912990, 0x07590dcd, 0x0b92f20c, 0x745a48de, 0x1e578218)
  {
    var s8 := Eight(0x85a07b5f, 0xe5030380, 0x2b4209f5, 0x04409a6a, 0x0c657a79, 0x9b27a401, 0x714260ad, 0x43ada245);
    var s9 := Eight(0x8e04ecb9, 0x85a07b5f, 0xe5030380, 0x2b4209f5, 0x32ca2d8c, 0x0c657a79, 0x9b27a401, 0x714260ad);
    assert Round(s8, 0xd807aa98, 0x00000000) == s9;
    NextRound(v, k, w, 8);
    var s10 := Eight(0x8c87346b, 0x8e04ecb9, 0x85a07b5f, 0xe5030380, 0x1cc92596, 0x32ca2d8c, 0x0c657a79, 0x9b27a401);
    assert Round(s9, 0x12835b01, 0x00000000) == s10;
    NextRound(v, k, w, 9);
    var s11 := Eight(0x4798a3f4, 0x8c87346b, 0x8e04ecb9, 0x85a07b5f, 0x436b23e8, 0x1cc92596, 0x32ca2d8c, 0x0c657a79);
    assert Round(s10, 0x243185be, 0x00000000) == s11;
    NextRound(v, k, w, 10);
    var s12 := Eight(0xf71fc5a9, 0x4798a3f4, 0x8c87346b, 0x8e04ecb9, 0x816fd6e9, 0x436b23e8, 0x1cc92596, 0x32ca2d8c);
    assert Round(s11, 0x550c7dc3, 0x00000000) == s12;
    NextRound(v, k, w, 11);
    var s13 := Eight(0x87912990, 0xf71fc5a9, 0x4798a3f4, 0x8c87346b, 0x1e578218, 0x816fd6e9, 0x436b23e8, 0x1cc92596);
    assert Round(s12, 0x72be5d74, 0x00000000) == s13;
    NextRound(v, k, w, 12);
    var s14 := Eight(0xd932eb16, 0x87912990, 0xf71fc5a9, 0x4798a3f4, 0x745a48de, 0x1e578218, 0x816fd6e9, 0x436b23e8);
    assert Round(s13, 0x80deb1fe, 0x00000000) == s14;
    NextRound(v, k, w, 13);
    var s15 := Eight(0xc0645fde, 0xd932eb16, 0x87912990, 0xf71fc5a9, 0x0b92f20c, 0x745a48de, 0x1e578218, 0x816fd6e9);
    assert Round(s14, 0x9bdc06a7, 0x00000000) == s15;
    NextRound(v, k, w, 14);
    var s16 := Eight(0xb0fa238e, 0xc0645fde, 0xd932eb16, 0x87912990, 0x07590dcd, 0x0b92f20c, 0x745a48de, 0x1e578218);
    assert Round(s15, 0xc19bf174, 0x00000018) == s16;
    NextRound(v, k, w, 15);
  }

  lemma Rounds16(v: nat -> Eight, k: seq<word>, w: seq<word>)
    requires AllLead(v, k, w)
    requires v(16) ==
             Eight(0xb0fa238e, 0xc0645fde, 0xd932eb16, 0x87912990, 0x07590dcd, 0x0b92f20c, 0x745a48de, 0x1e578218)
    requires k[16] == 0xe49b69c1 && k[17] == 0xefbe4786 && k[18] == 0x0fc19dc6 && k[19] == 0x240ca1cc
    requires k[20] == 0x2de92c6f && k[21] == 0x4a7484aa && k[22] == 0x5cb0a9dc && k[23] == 0x76f988da
    requires w[16] == 0x61626380 && w[17] == 0x000f0000 && w[18] == 0x7da86405 && w[19] == 0x600003c6
    requires w[20] == 0x3e9d7b78 && w[21] == 0x0183fc00 && w[22] == 0x12dcbfdb && w[23] == 0xe2e2c38e
    ensures v(24) ==
            Eight(0xc5d53d8d, 0xa7a3623f, 0xc2606d6d, 0x9dc68b63, 0xaa47c347, 0x49f5114a, 0xe1257970, 0x8ada8930)
  {
    var s16 := Eight(0xb0fa238e, 0xc0645fde, 0xd932eb16, 0x87912990, 0x07590dcd, 0x0b92f20c, 0x745a48de, 0x1e578218);
    var s17 := Eight(0x21da9a9b, 0xb0fa238e, 0xc0645fde, 0xd932eb16, 0x8034229c, 0x07590dcd, 0x0b92f20c, 0x745a48de);
    assert Round(s16, 0xe49b69c1, 0x61626380) == s17;
    NextRound(v, k, w, 16);
    var s18 := Eight(0xc2fbd9d1, 0x21da9a9b, 0xb0fa238e, 0xc0645fde, 0x846ee454, 0x8034229c, 0x07590dcd, 0x0b92f20c);
    assert Round(s17, 0xefbe4786, 0x000f0000) == s18;
    NextRound(v, k, w, 17);
    var s19 := Eight(0xfe777bbf, 0xc2fbd9d1, 0x21da9a9b, 0xb0fa238e, 0xcc899961, 0x846ee454, 0x8034229c, 0x07590dcd);
    assert Round(s18, 0x0fc19dc6, 0x7da86405) == s19;
    NextRound(v, k, w, 18);
    var s20 := Eight(0xe1f20c33, 0xfe777bbf, 0xc2fbd9d1, 0x21da9a9b, 0xb0638179, 0xcc899961, 0x846ee454, 0x8034229c);
    assert Round(s19, 0x240ca1cc, 0x600003c6) == s20;
    NextRound(v, k, w, 19);
    var s21 := Eight(0x9dc68b63, 0xe1f20c33, 0xfe777bbf, 0xc2fbd9d1, 0x8ada8930, 0xb0638179, 0xcc899961, 0x846ee454);
    assert Round(s20, 0x2de92c6f, 0x3e9d7b78) == s21;
    NextRound(v, k, w, 20);
    var s22 := Eight(0xc2606d6d, 0x9dc68b63, 0xe1f20c33, 0xfe777bbf, 0xe1257970, 0x8ada8930, 0xb0638179, 0xcc899961);
    assert Round(s21, 0x4a7484aa, 0x0183fc00) == s22;
    NextRound(v, k, w, 21);
    var s23 := Eight(0xa7a3623f, 0xc2606d6d, 0x9dc68b63, 0xe1f20c33, 0x49f5114a, 0xe1257970, 0x8ada8930, 0xb0638179);
    assert Round(s22, 0x5cb0a9dc, 0x12dcbfdb) == s23;
    NextRound(v, k, w, 22);
    var s24 := Eight(0xc5d53d8d, 0xa7a3623f, 0xc2606d6d, 0x9dc68b63, 0xaa47c347, 0x49f5114a, 0xe1257970, 0x8ada8930);
    assert Round(s23, 0x76f988da, 0xe2e2c38e) == s24;
    NextRound(v, k, w, 23);
  }

  lemma Rounds24(v: nat -> Eight, k: seq<word>, w: seq<word>)
    requires AllLead(v, k, w)
    requires v(24) ==
             Eight(0xc5d53d8d, 0xa7a3623f, 0xc2606d6d, 0x9dc68b63, 0xaa47c347, 0x49f5114a, 0xe1257970, 0x8ada8930)
    requires k[24] == 0x983e5152 && k[25] == 0xa831c66d && k[26] == 0xb00327c8 && k[27] == 0xbf597fc7
    requires k[28] == 0xc6e00bf3 && k[29] == 0xd5a79147 && k[30] == 0x06ca6351 && k[31] == 0x14292967
    requires w[24] == 0xc8215c1a && w[25] == 0xb73679a2 && w[26] == 0xe5bc3909 && w[27] == 0x32663c5b
    requires w[28] == 0x9d209d67 && w[29] == 0xec8726cb && w[30] == 0x702138a4 && w[31] == 0xd3b7973b
    ensures v(32) ==
            Eight(0x73b33bf5, 0xea992a22, 0xa0060b30, 0x363482c9, 0xba591112, 0x0109ab3a, 0xade79437, 0x6112a3b7)
  {
    var s24 := Eight(0xc5d53d8d, 0xa7a3623f, 0xc2606d6d, 0x9dc68b63, 0xaa47c347, 0x49f5114a, 0xe1257970, 0x8ada8930);
    var s25 := Eight(0x1c2c2838, 0xc5d53d8d, 0xa7a3623f, 0xc2606d6d, 0x2823ef91, 0xaa47c347, 0x49f5114a, 0xe1257970);
    assert Round(s24, 0x983e5152, 0xc8215c1a) == s25;
    NextRound(v, k, w, 24);
    var s26 := Eight(0xcde8037d, 0x1c2c2838, 0xc5d53d8d, 0xa7a3623f, 0x14383d8e, 0x2823ef91, 0xaa47c347, 0x49f5114a);
    assert Round(s25, 0xa831c66d, 0xb73679a2) == s26;
    NextRound(v, k, w, 25);
    var s27 := Eight(0xb62ec4bc, 0xcde8037d, 0x1c2c2838, 0xc5d53d8d, 0xc74c6516, 0x14383d8e, 0x2823ef91, 0xaa47c347);
    assert Round(s26, 0xb00327c8, 0xe5bc3909) == s27;
    NextRound(v, k, w, 26);
    var s28 := Eight(0x77d37528, 0xb62ec4bc, 0xcde8037d, 0x1c2c2838, 0xedffbff8, 0xc74c6516, 0x14383d8e, 0x2823ef91);
    assert Round(s27, 0xbf597fc7, 0x32663c5b) == s28;
    NextRound(v, k, w, 27);
    var s29 := Eight(0x363482c9, 0x77d37528, 0xb62ec4bc, 0xcde8037d, 0x6112a3b7, 0xedffbff8, 0xc74c6516, 0x14383d8e);
    assert Round(s28, 0xc6e00bf3, 0x9d209d67) == s29;
    NextRound(v, k, w, 28);
    var s30 := Eight(0xa0060b30, 0x363482c9, 0x77d37528, 0xb62ec4bc, 0xade79437, 0x6112a3b7, 0xedffbff8, 0xc74c6516);
    assert Round(s29, 0xd5a79147, 0xec8726cb) == s30;
    NextRound(v, k, w, 29);
    var s31 := Eight(0xea992a22, 0xa0060b30, 0x363482c9, 0x77d37528, 0x0109ab3a, 0xade79437, 0x6112a3b7, 0xedffbff8);
    assert Round(s30, 0x06ca6351, 0x702138a4) == s31;
    NextRound(v, k, w, 30);
    var s32 := Eight(0x73b33bf5, 0xea992a22, 0xa0060b30, 0x363482c9, 0xba591112, 0x0109ab3a, 0xade79437, 0x6112a3b7);
    assert Round(s31, 0x14292967, 0xd3b7973b) == s32;
    NextRound(v, k, w, 31);
  }

  lemma Rounds32(v: nat -> Eight, k: seq<word>, w: seq<word>)
    requires AllLead(v, k, w)
    requires v(32) ==
             Eight(0x73b33bf5, 0xea992a22, 0xa0060b30, 0x363482c9, 0xba591112, 0x0109ab3a, 0xade79437, 0x6112a3b7)
    requires k[32] == 0x27b70a85 && k[33] == 0x2e1b2138 && k[34] == 0x4d2c6dfc && k[35] == 0x53380d13
    requires k[36] == 0x650a7354 && k[37] == 0x766a0abb && k[38] == 0x81c2c92e && k[39] == 0x92722c85
    requires w[32] == 0x93f5997f && w[33] == 0x3b68ba73 && w[34] == 0xaff4ffc1 && w[35] == 0xf10a5c62
    requires w[36] == 0x0a8b3996 && w[37] == 0x72af830a && w[38] == 0x9409e33e && w[39] == 0x24641522
    ensures v(40) ==
            Eight(0x79ea687a, 0x6dc57a8a, 0x34df1604, 0x41a65cb1, 0x1efbc0a0, 0xf0781bc8, 0xa507a53d, 0x0772a26b)
  {
    var s32 := Eight(0x73b33bf5, 0xea992a22, 0xa0060b30, 0x363482c9, 0xba591112, 0x0109ab3a, 0xade79437, 0x6112a3b7);
    var s33 := Eight(0x98e12507, 0x73b33bf5, 0xea992a22, 0xa0060b30, 0x9cd9f5f6, 0xba591112, 0x0109ab3a, 0xade79437);
    assert Round(s32, 0x27b70a85, 0x93f5997f) == s33;
    NextRound(v, k, w, 32);
    var s34 := Eight(0xfe604df5, 0x98e12507, 0x73b33bf5, 0xea992a22, 0x59249dd3, 0x9cd9f5f6, 0xba591112, 0x0109ab3a);
    assert Round(s33, 0x2e1b2138, 0x3b68ba73) == s34;
    NextRound(v, k, w, 33);
    var s35 := Eight(0xa9a7738c, 0xfe604df5, 0x98e12507, 0x73b33bf5, 0x085f3833, 0x59249dd3, 0x9cd9f5f6, 0xba591112);
    assert Round(s34, 0x4d2c6dfc, 0xaff4ffc1) == s35;
    NextRound(v, k, w, 34);
    var s36 := Eight(0x65a0cfe4, 0xa9a7738c, 0xfe604df5, 0x98e12507, 0xf4b002d6, 0x085f3833, 0x59249dd3, 0x9cd9f5f6);
    assert Round(s35, 0x53380d13, 0xf10a5c62) == s36;
    NextRound(v, k, w, 35);
    var s37 := Eight(0x41a65cb1, 0x65a0cfe4, 0xa9a7738c, 0xfe604df5, 0x0772a26b, 0xf4b002d6, 0x085f3833, 0x59249dd3);
    assert Round(s36, 0x650a7354, 0x0a8b3996) == s37;
    NextRound(v, k, w, 36);
    var s38 := Eight(0x34df1604, 0x41a65cb1, 0x65a0cfe4, 0xa9a7738c, 0xa507a53d, 0x0772a26b, 0xf4b002d6, 0x085f3833);
    assert Round(s37, 0x766a0abb, 0x72af830a) == s38;
    NextRound(v, k, w, 37);
    var s39 := Eight(0x6dc57a8a, 0x34df1604, 0x41a65cb1, 0x65a0cfe4, 0xf0781bc8, 0xa507a53d, 0x0772a26b, 0xf4b002d6);
    assert Round(s38, 0x81c2c92e, 0x9409e33e) == s39;
    NextRound(v, k, w, 38);
    var s40 := Eight(0x79ea687a, 0x6dc57a8a, 0x34df1604, 0x41a65cb1, 0x1efbc0a0, 0xf0781bc8, 0xa507a53d, 0x0772a26b);
    assert Round(s39, 0x92722c85, 0x24641522) == s40;
    NextRound(v, k, w, 39);
  }

  lemma Rounds40(v: nat -> Eight, k: seq<word>, w: seq<word>)
    requires AllLead(v, k, w)
    requires v(40) ==
             Eight(0x79ea687a, 0x6dc57a8a, 0x34df1604, 0x41a65cb1, 0x1efbc0a0, 0xf0781bc8, 0xa507a53d, 0x0772a26b)
    requires k[40] == 0xa2bfe8a1 && k[41] == 0xa81a664b && k[42] == 0xc24b8b70 && k[43] == 0xc76c51a3
    requires k[44] == 0xd192e819 && k[45] == 0xd6990624 && k[46] == 0xf40e3585 && k[47] == 0x106aa070
    requires w[40] == 0x9f47bf94 && w[41] == 0xf0a64f5a && w[42] == 0x3e246a79 && w[43] == 0x27333ba3
    requires w[44] == 0x0c4763f2 && w[45] == 0x840abf27 && w[46] == 0x7a290d5d && w[47] == 0x065c43da
    ensures v(48) ==
            Eight(0x4172328d, 0xa14c14b0, 0x72ab4b91, 0x26628815, 0xfecf0bc6, 0xd57b94a9, 0xb7755da1, 0xa80f11f0)
  {
    var s40 := Eight(0x79ea687a, 0x6dc57a8a, 0x34df1604, 0x41a65cb1, 0x1efbc0a0, 0xf0781bc8, 0xa507a53d, 0x0772a26b);
    var s41 := Eight(0xd6670766, 0x79ea687a, 0x6dc57a8a, 0x34df1604, 0x26352d63, 0x1efbc0a0, 0xf0781bc8, 0xa507a53d);
    assert Round(s40, 0xa2bfe8a1, 0x9f47bf94) == s41;
    NextRound(v, k, w, 40);
    var s42 := Eight(0xdf46652f, 0xd6670766, 0x79ea687a, 0x6dc57a8a, 0x838b2711, 0x26352d63, 0x1efbc0a0, 0xf0781bc8);
    assert Round(s41, 0xa81a664b, 0xf0a64f5a) == s42;
    NextRound(v, k, w, 41);
    var s43 := Eight(0x17aa0dfe, 0xdf46652f, 0xd6670766, 0x79ea687a, 0xdecd4715, 0x838b2711, 0x26352d63, 0x1efbc0a0);
    assert Round(s42, 0xc24b8b70, 0x3e246a79) == s43;
    NextRound(v, k, w, 42);
    var s44 := Eight(0x9d4baf93, 0x17aa0dfe, 0xdf46652f, 0xd6670766, 0xfda24c2e, 0xdecd4715, 0x838b2711, 0x26352d63);
    assert Round(s43, 0xc76c51a3, 0x27333ba3) == s44;
    NextRound(v, k, w, 43);
    var s45 := Eight(0x26628815, 0x9d4baf93, 0x17aa0dfe, 0xdf46652f, 0xa80f11f0, 0xfda24c2e, 0xdecd4715, 0x838b2711);
    assert Round(s44, 0xd192e819, 0x0c4763f2) == s45;
    NextRound(v, k, w, 44);
    var s46 := Eight(0x72ab4b91, 0x26628815, 0x9d4baf93, 0x17aa0dfe, 0xb7755da1, 0xa80f11f0, 0xfda24c2e, 0xdecd4715);
    assert Round(s45, 0xd6990624, 0x840abf27) == s46;
    NextRound(v, k, w, 45);
    var s47 := Eight(0xa14c14b0, 0x72ab4b91, 0x26628815, 0x9d4baf93, 0xd57b94a9, 0xb7755da1, 0xa80f11f0, 0xfda24c2e);
    assert Round(s46, 0xf40e3585, 0x7a290d5d) == s47;
    NextRound(v, k, w, 46);
    var s48 := Eight(0x4172328d, 0xa14c14b0, 0x72ab4b91, 0x26628815, 0xfecf0bc6, 0xd57b94a9, 0xb7755da1, 0xa80f11f0);
    assert Round(s47, 0x106aa070, 0x065c43da) == s48;
    NextRound(v, k, w, 47);
  }

  lemma Rounds48(v: nat -> Eight, k: seq<word>, w: seq<word>)
    requires AllLead(v, k, w)
    requires v(48) ==
             Eight(0x4172328d, 0xa14c14b0, 0x72ab4b91, 0x26628815, 0xfecf0bc6, 0xd57b94a9, 0xb7755da1, 0xa80f11f0)
    requires k[48] == 0x19a4c116 && k[49] == 0x1e376c08 && k[50] == 0x2748774c && k[51] == 0x34b0bcb5
    requires k[52] == 0x391c0cb3 && k[53] == 0x4ed8aa4a && k[54] == 0x5b9cca4f && k[55] == 0x682e6ff3
    requires w[48] == 0xfb3e89cb && w[49] == 0xcc7617db && w[50] == 0xb9e66c34 && w[51] == 0xa9993667
    requires w[52] == 0x84badedd && w[53] == 0xc21462bc && w[54] == 0x1487472c && w[55] == 0xb20f7a99
    ensures v(56) ==
            Eight(0x38cc9913, 0x3ec45cdb, 0xf5702fdb, 0x101fd28f, 0x54cb266b, 0xe50e1b4f, 0x9f4787c3, 0x529e7d00)
  {
    var s48 := Eight(0x4172328d, 0xa14c14b0, 0x72ab4b91, 0x26628815, 0xfecf0bc6, 0xd57b94a9, 0xb7755da1, 0xa80f11f0);
    var s49 := Eight(0x05757ceb, 0x4172328d, 0xa14c14b0, 0x72ab4b91, 0xbd714038, 0xfecf0bc6, 0xd57b94a9, 0xb7755da1);
    assert Round(s48, 0x19a4c116, 0xfb3e89cb) == s49;
    NextRound(v, k, w, 48);
    var s50 := Eight(0xf11bfaa8, 0x05757ceb, 0x4172328d, 0xa14c14b0, 0x6e5c390c, 0xbd714038, 0xfecf0bc6, 0xd57b94a9);
    assert Round(s49, 0x1e376c08, 0xcc7617db) == s50;
    NextRound(v, k, w, 49);
    var s51 := Eight(0x7a0508a1, 0xf11bfaa8, 0x05757ceb, 0x4172328d, 0x52f1ccf7, 0x6e5c390c, 0xbd714038, 0xfecf0bc6);
    assert Round(s50, 0x2748774c, 0xb9e66c34) == s51;
    NextRound(v, k, w, 50);
    var s52 := Eight(0x886e7a22, 0x7a0508a1, 0xf11bfaa8, 0x05757ceb, 0x49231c1e, 0x52f1ccf7, 0x6e5c390c, 0xbd714038);
    assert Round(s51, 0x34b0bcb5, 0xa9993667) == s52;
    NextRound(v, k, w, 51);
    var s53 := Eight(0x101fd28f, 0x886e7a22, 0x7a0508a1, 0xf11bfaa8, 0x529e7d00, 0x49231c1e, 0x52f1ccf7, 0x6e5c390c);
    assert Round(s52, 0x391c0cb3, 0x84badedd) == s53;
    NextRound(v, k, w, 52);
    var s54 := Eight(0xf5702fdb, 0x101fd28f, 0x886e7a22, 0x7a0508a1, 0x9f4787c3, 0x529e7d00, 0x49231c1e, 0x52f1ccf7);
    assert Round(s53, 0x4ed8aa4a, 0xc21462bc) == s54;
    NextRound(v, k, w, 53);
    var s55 := Eight(0x3ec45cdb, 0xf5702fdb, 0x101fd28f, 0x886e7a22, 0xe50e1b4f, 0x9f4787c3, 0x529e7d00, 0x49231c1e);
    assert Round(s54, 0x5b9cca4f, 0x1487472c) == s55;
    NextRound(v, k, w, 54);
    var s56 := Eight(0x38cc9913, 0x3ec45cdb, 0xf5702fdb, 0x101fd28f, 0x54cb266b, 0xe50e1b4f, 0x9f4787c3, 0x529e7d00);
    assert Round(s55, 0x682e6ff3, 0xb20f7a99) == s56;
    NextRound(v, k, w, 55);
  }

  lemma Rounds56(v: nat -> Eight, k: seq<word>, w: seq<word>)
    requires AllLead(v, k, w)
    requires v(56) ==
             Eight(0x38cc9913, 0x3ec45cdb, 0xf5702fdb, 0x101fd28f, 0x54cb266b, 0xe50e1b4f, 0x9f4787c3, 0x529e7d00)
    requires k[56] == 0x748f82ee && k[57] == 0x78a5636f && k[58] == 0x84c87814 && k[59] == 0x8cc70208
    requires k[60] == 0x90befffa && k[61] == 0xa4506ceb && k[62] == 0xbef9a3f7 && k[63] == 0xc67178f2
    requires w[56] == 0xef57b9cd && w[57] == 0xebe6b238 && w[58] == 0x9fe3095e && w[59] == 0x78bc8d4b
    requires w[60] == 0xa43fcf15 && w[61] == 0x668b2ff8 && w[62] == 0xeeaba2cc && w[63] == 0x12b1edeb
    ensures v(64) ==
            Eight(0x506e3058, 0xd39a2165, 0x04d24d6c, 0xb85e2ce9, 0x5ef50f24, 0xfb121210, 0x948d25b6, 0x961f4894)
  {
    var s56 := Eight(0x38cc9913, 0x3ec45cdb, 0xf5702fdb, 0x101fd28f, 0x54cb266b, 0xe50e1b4f, 0x9f4787c3, 0x529e7d00);
    var s57 := Eight(0xfcd1887b, 0x38cc9913, 0x3ec45cdb, 0xf5702fdb, 0x9b5e906c, 0x54cb266b, 0xe50e1b4f, 0x9f4787c3);
    assert Round(s56, 0x748f82ee, 0xef57b9cd) == s57;
    NextRound(v, k, w, 56);
    var s58 := Eight(0xc062d46f, 0xfcd1887b, 0x38cc9913, 0x3ec45cdb, 0x7e44008e, 0x9b5e906c, 0x54cb266b, 0xe50e1b4f);
    assert Round(s57, 0x78a5636f, 0xebe6b238) == s58;
    NextRound(v, k, w, 57);
    var s59 := Eight(0xffb70472, 0xc062d46f, 0xfcd1887b, 0x38cc9913, 0x6d83bfc6, 0x7e44008e, 0x9b5e906c, 0x54cb266b);
    assert Round(s58, 0x84c87814, 0x9fe3095e) == s59;
    NextRound(v, k, w, 58);
    var s60 := Eight(0xb6ae8fff, 0xffb70472, 0xc062d46f, 0xfcd1887b, 0xb21bad3d, 0x6d83bfc6, 0x7e44008e, 0x9b5e906c);
    assert Round(s59, 0x8cc70208, 0x78bc8d4b) == s60;
    NextRound(v, k, w, 59);
    var s61 := Eight(0xb85e2ce9, 0xb6ae8fff, 0xffb70472, 0xc062d46f, 0x961f4894, 0xb21bad3d, 0x6d83bfc6, 0x7e44008e);
    assert Round(s60, 0x90befffa, 0xa43fcf15) == s61;
    NextRound(v, k, w, 60);
    var s62 := Eight(0x04d24d6c, 0xb85e2ce9, 0xb6ae8fff, 0xffb70472, 0x948d25b6, 0x961f4894, 0xb21bad3d, 0x6d83bfc6);
    assert Round(s61, 0xa4506ceb, 0x668b2ff8) == s62;
    NextRound(v, k, w, 61);
    var s63 := Eight(0xd39a2165, 0x04d24d6c, 0xb85e2ce9, 0xb6ae8fff, 0xfb121210, 0x948d25b6, 0x961f4894, 0xb21bad3d);
    assert Round(s62, 0xbef9a3f7, 0xeeaba2cc) == s63;
    NextRound(v, k, w, 62);
    var s64 := Eight(0x506e3058, 0xd39a2165, 0x04d24d6c, 0xb85e2ce9, 0x5ef50f24, 0xfb121210, 0x948d25b6, 0x961f4894);
    assert Round(s63, 0xc67178f2, 0x12b1edeb) == s64;
    NextRound(v, k, w, 63);
  }

  /** The values between the rounds of a block. */
  function Values(h: Eight, w: seq<word>): nat -> Eight
    requires |w| == ROUNDS
  {
    (t: nat) => if t <= ROUNDS then Rounds(h, w[..t]) else h
  }

  function Constants(): (k: seq<word>)
    ensures |k| == 64 && forall t {:trigger k[t]} :: 0 <= t < 64 ==> k[t] == K(t)
  {
    seq(64, t requires 0 <= t < 64 => K(t))
  }

  ghost predicate AreConstants(k: seq<word>) {
    |k| == 64 && forall t {:trigger k[t]} :: 0 <= t < 64 ==> k[t] == K(t)
  }

  lemma ValuesLead(h: Eight, w: seq<word>)
    requires |w| == ROUNDS
    ensures AllLead(Values(h, w), Constants(), w)
  {
    forall t: nat | t < 64 ensures Leads(Values(h, w), Constants(), w, t) {
      RoundsSnoc(h, w, t);
    }
  }

  lemma Constants0(k: seq<word>)
    requires AreConstants(k)
    ensures k[0] == 0x428a2f98 && k[1] == 0x71374491 && k[2] == 0xb5c0fbcf && k[3] == 0xe9b5dba5
    ensures k[4] == 0x3956c25b && k[5] == 0x59f111f1 && k[6] == 0x923f82a4 && k[7] == 0xab1c5ed5
  {
    assert K(0) == 0x428a2f98;
    assert K(1) == 0x71374491;
    assert K(2) == 0xb5c0fbcf;
    assert K(3) == 0xe9b5dba5;
    assert K(4) == 0x3956c25b;
    assert K(5) == 0x59f111f1;
    assert K(6) == 0x923f82a4;
    assert K(7) == 0xab1c5ed5;
  }

  lemma Constants8(k: seq<word>)
    requires AreConstants(k)
    ensures k[8] == 0xd807aa98 && k[9] == 0x12835b01 && k[10] == 0x243185be && k[11] == 0x550c7dc3
    ensures k[12] == 0x72be5d74 && k[13] == 0x80deb1fe && k[14] == 0x9bdc06a7 && k[15] == 0xc19bf174
  {
    assert K(8) == 0xd807aa98;
    assert K(9) == 0x12835b01;
    assert K(10) == 0x243185be;
    assert K(11) == 0x550c7dc3;
    assert K(12) == 0x72be5d74;
    assert K(13) == 0x80deb1fe;
    assert K(14) == 0x9bdc06a7;
    assert K(15) == 0xc19bf174;
  }

  lemma Constants16(k: seq<word>)
    requires AreConstants(k)
    ensures k[16] == 0xe49b69c1 && k[17] == 0xefbe4786 && k[18] == 0x0fc19dc6 && k[19] == 0x240ca1cc
    ensures k[20] == 0x2de92c6f && k[21] == 0x4a7484aa && k[22] == 0x5cb0a9dc && k[23] == 0x76f988da
  {
    assert K(16) == 0xe49b69c1;
    assert K(17) == 0xefbe4786;
    assert K(18) == 0x0fc19dc6;
    assert K(19) == 0x240ca1cc;
    assert K(20) == 0x2de92c6f;
    assert K(21) == 0x4a7484aa;
    assert K(22) == 0x5cb0a9dc;
    assert K(23) == 0x76f988da;
  }

  lemma Constants24(k: seq<word>)
    requires AreConstants(k)
    ensures k[24] == 0x983e5152 && k[25] == 0xa831c66d && k[26] == 0xb00327c8 && k[27] == 0xbf597fc7
    ensures k[28] == 0xc6e00bf3 && k[29] == 0xd5a79147 && k[30] == 0x06ca6351 && k[31] == 0x14292967
  {
    assert K(24) == 0x983e5152;
    assert K(25) == 0xa831c66d;
    assert K(26) == 0xb00327c8;
    assert K(27) == 0xbf597fc7;
    assert K(28) == 0xc6e00bf3;
    assert K(29) == 0xd5a79147;
    assert K(30) == 0x06ca6351;
    assert K(31) == 0x14292967;
  }

  lemma Constants32(k: seq<word>)
    requires AreConstants(k)
    ensures k[32] == 0x27b70a85 && k[33] == 0x2e1b2138 && k[34] == 0x4d2c6dfc && k[35] == 0x53380d13
    ensures k[36] == 0x650a7354 && k[37] == 0x766a0abb && k[38] == 0x81c2c92e && k[39] == 0x92722c85
  {
    assert K(32) == 0x27b70a85;
    assert K(33) == 0x2e1b2138;
    assert K(34) == 0x4d2c6dfc;
    assert K(35) == 0x53380d13;
    assert K(36) == 0x650a7354;
    assert K(37) == 0x766a0abb;
    assert K(38) == 0x81c2c92e;
    assert K(39) == 0x92722c85;
  }

  lemma Constants40(k: seq<word>)
    requires AreConstants(k)
    ensures k[40] == 0xa2bfe8a1 && k[41] == 0xa81a664b && k[42] == 0xc24b8b70 && k[43] == 0xc76c51a3
    ensures k[44] == 0xd192e819 && k[45] == 0xd6990624 && k[46] == 0xf40e3585 && k[47] == 0x106aa070
  {
    assert K(40) == 0xa2bfe8a1;
    assert K(41) == 0xa81a664b;
    assert K(42) == 0xc24b8b70;
    assert K(43) == 0xc76c51a3;
    assert K(44) == 0xd192e819;
    assert K(45) == 0xd6990624;
    assert K(46) == 0xf40e3585;
    assert K(47) == 0x106aa070;
  }

  lemma Constants48(k: seq<word>)
    requires AreConstants(k)
    ensures k[48] == 0x19a4c116 && k[49] == 0x1e376c08 && k[50] == 0x2748774c && k[51] == 0x34b0bcb5
    ensures k[52] == 0x391c0cb3 && k[53] == 0x4ed8aa4a && k[54] == 0x5b9cca4f && k[55] == 0x682e6ff3
  {
    assert K(48) == 0x19a4c116;
    assert K(49) == 0x1e376c08;
    assert K(50) == 0x2748774c;
    assert K(51) == 0x34b0bcb5;
    assert K(52) == 0x391c0cb3;
    assert K(53) == 0x4ed8aa4a;
    assert K(54) == 0x5b9cca4f;
    assert K(55) == 0x682e6ff3;
  }

  lemma Constants56(k: seq<word>)
    requires AreConstants(k)
    ensures k[56] == 0x748f82ee && k[57] == 0x78a5636f && k[58] == 0x84c87814 && k[59] == 0x8cc70208
    ensures k[60] == 0x90befffa && k[61] == 0xa4506ceb && k[62] == 0xbef9a3f7 && k[63] == 0xc67178f2
  {
    assert K(56) == 0x748f82ee;
    assert K(57) == 0x78a5636f;
    assert K(58) == 0x84c87814;
    assert K(59) == 0x8cc70208;
    assert K(60) == 0x90befffa;
    assert K(61) == 0xa4506ceb;
    assert K(62) == 0xbef9a3f7;
    assert K(63) == 0xc67178f2;
  }

  lemma AllWords(w: seq<word>)
    requires AllFollow(w) && w[0] == 0x61626380 && w[15] == 24 && forall t :: 0 < t < 15 ==> w[t] == 0
    ensures w[0] == 0x61626380 && w[1] == 0x00000000 && w[2] == 0x00000000 && w[3] == 0x00000000
    ensures w[4] == 0x00000000 && w[5] == 0x00000000 && w[6] == 0x00000000 && w[7] == 0x00000000
    ensures w[8] == 0x00000000 && w[9] == 0x00000000 && w[10] == 0x00000000 && w[11] == 0x00000000
    ensures w[12] == 0x00000000 && w[13] == 0x00000000 && w[14] == 0x00000000 && w[15] == 0x00000018
    ensures w[16] == 0x61626380 && w[17] == 0x000f0000 && w[18] == 0x7da86405 && w[19] == 0x600003c6
    ensures w[20] == 0x3e9d7b78 && w[21] == 0x0183fc00 && w[22] == 0x12dcbfdb && w[23] == 0xe2e2c38e
    ensures w[24] == 0xc8215c1a && w[25] == 0xb73679a2 && w[26] == 0xe5bc3909 && w[27] == 0x32663c5b
    ensures w[28] == 0x9d209d67 && w[29] == 0xec8726cb && w[30] == 0x702138a4 && w[31] == 0xd3b7973b
    ensures w[32] == 0x93f5997f && w[33] == 0x3b68ba73 && w[34] == 0xaff4ffc1 && w[35] == 0xf10a5c62
    ensures w[36] == 0x0a8b3996 && w[37] == 0x72af830a && w[38] == 0x9409e33e && w[39] == 0x24641522
    ensures w[40] == 0x9f47bf94 && w[41] == 0xf0a64f5a && w[42] == 0x3e246a79 && w[43] == 0x27333ba3
    ensures w[44] == 0x0c4763f2 && w[45] == 0x840abf27 && w[46] == 0x7a290d5d && w[47] == 0x065c43da
    ensures w[48] == 0xfb3e89cb && w[49] == 0xcc7617db && w[50] == 0xb9e66c34 && w[51] == 0xa9993667
    ensures w[52] == 0x84badedd && w[53] == 0xc21462bc && w[54] == 0x1487472c && w[55] == 0xb20f7a99
    ensures w[56] == 0xef57b9cd && w[57] == 0xebe6b238 && w[58] == 0x9fe3095e && w[59] == 0x78bc8d4b
    ensures w[60] == 0xa43fcf15 && w[61] == 0x668b2ff8 && w[62] == 0xeeaba2cc && w[63] == 0x12b1edeb
  {
    Words16(w);
    Words32(w);
    Words48(w);
  }

  lemma AllRounds(v: nat -> Eight, k: seq<word>, w: seq<word>)
    requires AllLead(v, k, w) && AreConstants(k) && v(0) == H0
    requires w[0] == 0x61626380 && w[1] == 0x00000000 && w[2] == 0x00000000 && w[3] == 0x00000000
    requires w[4] == 0x00000000 && w[5] == 0x00000000 && w[6] == 0x00000000 && w[7] == 0x00000000
    requires w[8] == 0x00000000 && w[9] == 0x00000000 && w[10] == 0x00000000 && w[11] == 0x00000000
    requires w[12] == 0x00000000 && w[13] == 0x00000000 && w[14] == 0x00000000 && w[15] == 0x00000018
    requires w[16] == 0x61626380 && w[17] == 0x000f0000 && w[18] == 0x7da86405 && w[19] == 0x600003c6
    requires w[20] == 0x3e9d7b78 && w[21] == 0x0183fc00 && w[22] == 0x12dcbfdb && w[23] == 0xe2e2c38e
    requires w[24] == 0xc8215c1a && w[25] == 0xb73679a2 && w[26] == 0xe5bc3909 && w[27] == 0x32663c5b
    requires w[28] == 0x9d209d67 && w[29] == 0xec8726cb && w[30] == 0x702138a4 && w[31] == 0xd3b7973b
    requires w[32] == 0x93f5997f && w[33] == 0x3b68ba73 && w[34] == 0xaff4ffc1 && w[35] == 0xf10a5c62
    requires w[36] == 0x0a8b3996 && w[37] == 0x72af830a && w[38] == 0x9409e33e && w[39] == 0x24641522
    requires w[40] == 0x9f47bf94 && w[41] == 0xf0a64f5a && w[42] == 0x3e246a79 && w[43] == 0x27333ba3
    requires w[44] == 0x0c4763f2 && w[45] == 0x840abf27 && w[46] == 0x7a290d5d && w[47] == 0x065c43da
    requires w[48] == 0xfb3e89cb && w[49] == 0xcc7617db && w[50] == 0xb9e66c34 && w[51] == 0xa9993667
    requires w[52] == 0x84badedd && w[53] == 0xc21462bc && w[54] == 0x1487472c && w[55] == 0xb20f7a99
    requires w[56] == 0xef57b9cd && w[57] == 0xebe6b238 && w[58] == 0x9fe3095e && w[59] == 0x78bc8d4b
    requires w[60] == 0xa43fcf15 && w[61] == 0x668b2ff8 && w[62] == 0xeeaba2cc && w[63] == 0x12b1edeb
    ensures v(64) ==
            Eight(0x506e3058, 0xd39a2165, 0x04d24d6c, 0xb85e2ce9, 0x5ef50f24, 0xfb121210, 0x948d25b6, 0x961f4894)
  {
    Constants0(k);
    Constants8(k);
    Constants16(k);
    Constants24(k);
    Constants32(k);
    Constants40(k);
    Constants48(k);
    Constants56(k);
    Rounds0(v, k, w);
    Rounds4(v, k, w);
    Rounds8(v, k, w);
    Rounds16(v, k, w);
    Rounds24(v, k, w);
    Rounds32(v, k, w);
    Rounds40(v, k, w);
    Rounds48(v, k, w);
    Rounds56(v, k, w);
  }

  lemma CompressedAbc(block: seq<byte>)
    requires block == Pad(ABC)
    ensures |block| == BLOCK_LEN && Compress(H0, block) ==
            Eight(0xba7816bf, 0x8f01cfea, 0x414140de, 0x5dae2223, 0xb00361a3, 0x96177a9c, 0xb410ff61, 0xf20015ad)
  {
    WordsOfAbc(block);
    var w := Schedule(Parse(block), ROUNDS);
    ScheduleFollows(Parse(block));
    AllWords(w);
    ValuesLead(H0, w);
    assert w[..0] == [] && w[..ROUNDS] == w;
    AllRounds(Values(H0, w), Constants(), w);
    assert Sum(Eight(0x6a09e667, 0xbb67ae85, 0x3c6ef372, 0xa54ff53a, 0x510e527f, 0x9b05688c, 0x1f83d9ab, 0x5be0cd19),
               Eight(0x506e3058, 0xd39a2165, 0x04d24d6c, 0xb85e2ce9, 0x5ef50f24, 0xfb121210, 0x948d25b6, 0x961f4894)) ==
           Eight(0xba7816bf, 0x8f01cfea, 0x414140de, 0x5dae2223, 0xb00361a3, 0x96177a9c, 0xb410ff61, 0xf20015ad);
  }

  lemma OneBlock(block: seq<byte>)
    requires |block| == BLOCK_LEN
    ensures Fold(Step, H0, block) == Compress(H0, block)
  {
    assert Fold(Step, H0, block[..0]) == H0;
  }

  lemma DigitsOfAbc()
    ensures HexWord(0xba7816bf) == "ba7816bf"
    ensures HexWord(0x8f01cfea) == "8f01cfea"
    ensures HexWord(0x414140de) == "414140de"
    ensures HexWord(0x5dae2223) == "5dae2223"
    ensures HexWord(0xb00361a3) == "b00361a3"
    ensures HexWord(0x96177a9c) == "96177a9c"
    ensures HexWord(0xb410ff61) == "b410ff61"
    ensures HexWord(0xf20015ad) == "f20015ad"
  {
    assert HexWord(0xba7816bf) == "ba7816bf";
    assert HexWord(0x8f01cfea) == "8f01cfea";
    assert HexWord(0x414140de) == "414140de";
    assert HexWord(0x5dae2223) == "5dae2223";
    assert HexWord(0xb00361a3) == "b00361a3";
    assert HexWord(0x96177a9c) == "96177a9c";
    assert HexWord(0xb410ff61) == "b410ff61";
    assert HexWord(0xf20015ad) == "f20015ad";
  }

  lemma HashOfAbc()
    ensures Hash(ABC) ==
            Eight(0xba7816bf, 0x8f01cfea, 0x414140de, 0x5dae2223, 0xb00361a3, 0x96177a9c, 0xb410ff61, 0xf20015ad)
  {
    CompressedAbc(Pad(ABC));
    OneBlock(Pad(ABC));
  }

  lemma TextOfAbc(h: Eight)
    requires h ==
             Eight(0xba7816bf, 0x8f01cfea, 0x414140de, 0x5dae2223, 0xb00361a3, 0x96177a9c, 0xb410ff61, 0xf20015ad)
    ensures Hex(h) ==
            "ba7816bf" + "8f01cfea" + "414140de" + "5dae2223" + "b00361a3" + "96177a9c" + "b410ff61" + "f20015ad"
  {
    DigitsOfAbc();
    assert HexOf(h, 1) == "ba7816bf";
    assert HexOf(h, 2) == HexOf(h, 1) + "8f01cfea";
    assert HexOf(h, 3) == HexOf(h, 2) + "414140de";
    assert HexOf(h, 4) == HexOf(h, 3) + "5dae2223";
    assert HexOf(h, 5) == HexOf(h, 4) + "b00361a3";
    assert HexOf(h, 6) == HexOf(h, 5) + "96177a9c";
    assert HexOf(h, 7) == HexOf(h, 6) + "b410ff61";
  }

  /** The published example: the seal of a file whose reads give "abc", however they cut it up. */
  lemma SealOfAbc(chunks: seq<seq<byte>>)
    requires Gathered(chunks) == [0x61, 0x62, 0x63]
    ensures Hex(Hash(Gathered(chunks))) ==
            "ba7816bf" + "8f01cfea" + "414140de" + "5dae2223" + "b00361a3" + "96177a9c" + "b410ff61" + "f20015ad"
  {
    HashOfAbc();
    TextOfAbc(Hash(Gathered(chunks)));
  }
}
