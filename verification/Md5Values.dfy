/** The test values that md5.c lists, computed by the definition. */
module Md5Values {
  import opened Words
  import opened Md5

  function Q(a: bv32, b: bv32, c: bv32, d: bv32): Quad { Quad(Reg(a), Reg(b), Reg(c), Reg(d)) }

  lemma Start(x: seq<Reg>)
    requires |x| == 16
    ensures Steps(INIT, x, 0) == Q(0x67452301, 0xefcdab89, 0x98badcfe, 0x10325476)
  {
  }

  function Aux32(i: nat, b: bv32, c: bv32, d: bv32): bv32 {
    if i < 16 then F32(b, c, d) else if i < 32 then G32(b, c, d) else if i < 48 then H32(b, c, d) else I32(b, c, d)
  }

  /** The new word of a step, on plain words. */
  function NewWord(a: bv32, b: bv32, f: bv32, x: bv32, t: bv32, s: bv32): bv32
    requires 0 < s < 32
  {
    Plus32(b, Rol32(Sum32(a, f, x, t), s))
  }

  /** One step makes one new word. */
  lemma One(q: Quad, x: seq<Reg>, i: nat, a: bv32, b: bv32, c: bv32, d: bv32, xk: bv32, t: bv32, s: bv32, w: bv32)
    requires |x| == 16 && i < 64 && Steps(q, x, i) == Q(a, b, c, d)
    requires x[K(i)] == Reg(xk) && T(i) == Reg(t) && S(i) == s
    requires w == NewWord(a, b, Aux32(i, b, c, d), xk, t, s)
    ensures Steps(q, x, i + 1) == Q(d, w, b, c)
  {
    hide K, S, T, F32, G32, H32, I32, Plus32, Rol32, Sum32;
    assert Steps(q, x, i + 1) == Step(Steps(q, x, i), x, i);
  }

  /** A message that fits into one block with its padding. */
  lemma ShortBlock(msg: seq<byte>)
    requires |msg| < 32
    ensures |Padded(msg)| == 64
    ensures forall i :: 0 <= i < 64 ==>
              Padded(msg)[i] == if i < |msg| then msg[i] else if i == |msg| then 0x80 else if i == 56 then 8 * |msg| else 0
  {
    hide PadLength, BitsLow, BitsHigh, Bytes4;
    PadLengthIs(|msg|);
    ShortCount(|msg|);
  }

  lemma ShortCount(len: nat)
    requires len < 32
    ensures Bytes4(BitsLow(len)) == [8 * len, 0, 0, 0] && Bytes4(BitsHigh(len)) == [0, 0, 0, 0]
  {
    BytesAre(8 * len, 8 * len, 0, 0, 0);
  }

  lemma OneBlock(msg: seq<byte>)
    requires |Padded(msg)| == 64
    ensures Digest(msg) == Out(Add(INIT, Steps(INIT, Decode(Padded(msg)), 64)))
  {
    hide Steps, Padded, Decode, Out, Add;
    var p := Padded(msg);
    assert p[..64] == p && p[64..] == [];
    assert Fold(INIT, p) == Fold(Transform(INIT, p), []) == Transform(INIT, p);
  }

  function Bits(v: u32): bv32 { v as bv32 }

  lemma DecodedWord(p: seq<byte>, k: nat)
    requires |p| == 64 && k < 16
    ensures Decode(p)[k] == Reg(Bits(LittleEndian(p[4 * k..4 * k + 4])))
  {
  }

  /** Word k of a block, byte by byte. */
  lemma WordIs(p: seq<byte>, k: nat, b0: byte, b1: byte, b2: byte, b3: byte, v: u32, w: bv32)
    requires |p| == 64 && k < 16 && p[4 * k] == b0 && p[4 * k + 1] == b1 && p[4 * k + 2] == b2 && p[4 * k + 3] == b3
    requires v == b0 as int + 256 * b1 as int + 65536 * b2 as int + 16777216 * b3 as int && Bits(v) == w
    ensures Decode(p)[k] == Reg(w)
  {
    hide Bits, Decode;
    assert LittleEndian(p[4 * k..4 * k + 4]) == v;
    DecodedWord(p, k);
  }

  lemma ZeroWords(p: seq<byte>, from: nat)
    requires |p| == 64 && forall i :: 4 * from <= i < 56 ==> p[i] == 0
    ensures forall k :: from <= k < 14 ==> Decode(p)[k] == Reg(0)
  {
    forall k | from <= k < 14
      ensures Decode(p)[k] == Reg(0)
    {
      WordIs(p, k, 0, 0, 0, 0, 0, 0);
    }
  }

  lemma OutIs(q: Quad, a: u32, b: u32, c: u32, d: u32)
    requires q.a.v as u32 == a && q.b.v as u32 == b && q.c.v as u32 == c && q.d.v as u32 == d
    ensures Out(q) == Bytes4(a) + Bytes4(b) + Bytes4(c) + Bytes4(d)
  {
  }

  lemma BytesAre(w: u32, b0: byte, b1: byte, b2: byte, b3: byte)
    requires w == b0 as int + 256 * b1 as int + 65536 * b2 as int + 16777216 * b3 as int
    ensures Bytes4(w) == [b0, b1, b2, b3]
  {
    BytesTakenApart(b0, b1, b2, b3);
  }

  // ----- "" -----

  const EMPTY_TEXT: seq<byte> := []
  const EMPTY_WORDS: seq<Reg> := [
    Reg(0x00000080), Reg(0x00000000), Reg(0x00000000), Reg(0x00000000), Reg(0x00000000), Reg(0x00000000), Reg(0x00000000), Reg(0x00000000),
    Reg(0x00000000), Reg(0x00000000), Reg(0x00000000), Reg(0x00000000), Reg(0x00000000), Reg(0x00000000), Reg(0x00000000), Reg(0x00000000)
  ]

  lemma EmptyTo4(q: Quad)
    requires Steps(q, EMPTY_WORDS, 0) == Q(0x67452301, 0xefcdab89, 0x98badcfe, 0x10325476)
    ensures Steps(q, EMPTY_WORDS, 4) == Q(0xa5202774, 0x1b163203, 0xe7f06b23, 0xf59592dd)
  {
    hide K, T, S, Steps;
    Schedule1();
    One(q, EMPTY_WORDS, 0, 0x67452301, 0xefcdab89, 0x98badcfe, 0x10325476, 0x00000080, 0xd76aa478, 7, 0xa5202774);
    One(q, EMPTY_WORDS, 1, 0x10325476, 0xa5202774, 0xefcdab89, 0x98badcfe, 0x00000000, 0xe8c7b756, 12, 0xf59592dd);
    One(q, EMPTY_WORDS, 2, 0x98badcfe, 0xf59592dd, 0xa5202774, 0xefcdab89, 0x00000000, 0x242070db, 17, 0xe7f06b23);
    One(q, EMPTY_WORDS, 3, 0xefcdab89, 0xe7f06b23, 0xf59592dd, 0xa5202774, 0x00000000, 0xc1bdceee, 22, 0x1b163203);
  }

  lemma EmptyTo8(q: Quad)
    requires Steps(q, EMPTY_WORDS, 4) == Q(0xa5202774, 0x1b163203, 0xe7f06b23, 0xf59592dd)
    ensures Steps(q, EMPTY_WORDS, 8) == Q(0x32033344, 0x9bc13ce9, 0xf5b158db, 0x2f35d494)
  {
    hide K, T, S, Steps;
    Schedule1();
    One(q, EMPTY_WORDS, 4, 0xa5202774, 0x1b163203, 0xe7f06b23, 0xf59592dd, 0x00000000, 0xf57c0faf, 7, 0x32033344);
    One(q, EMPTY_WORDS, 5, 0xf59592dd, 0x32033344, 0x1b163203, 0xe7f06b23, 0x00000000, 0x4787c62a, 12, 0x2f35d494);
    One(q, EMPTY_WORDS, 6, 0xe7f06b23, 0x2f35d494, 0x32033344, 0x1b163203, 0x00000000, 0xa8304613, 17, 0xf5b158db);
    One(q, EMPTY_WORDS, 7, 0x1b163203, 0xf5b158db, 0x2f35d494, 0x32033344, 0x00000000, 0xfd469501, 22, 0x9bc13ce9);
  }

  lemma EmptyTo12(q: Quad)
    requires Steps(q, EMPTY_WORDS, 8) == Q(0x32033344, 0x9bc13ce9, 0xf5b158db, 0x2f35d494)
    ensures Steps(q, EMPTY_WORDS, 12) == Q(0x3893b991, 0x70768a29, 0xe1ef0576, 0xfce4a312)
  {
    hide K, T, S, Steps;
    Schedule1();
    One(q, EMPTY_WORDS, 8, 0x32033344, 0x9bc13ce9, 0xf5b158db, 0x2f35d494, 0x00000000, 0x698098d8, 7, 0x3893b991);
    One(q, EMPTY_WORDS, 9, 0x2f35d494, 0x3893b991, 0x9bc13ce9, 0xf5b158db, 0x00000000, 0x8b44f7af, 12, 0xfce4a312);
    One(q, EMPTY_WORDS, 10, 0xf5b158db, 0xfce4a312, 0x3893b991, 0x9bc13ce9, 0x00000000, 0xffff5bb1, 17, 0xe1ef0576);
    One(q, EMPTY_WORDS, 11, 0x9bc13ce9, 0xe1ef0576, 0xfce4a312, 0x3893b991, 0x00000000, 0x895cd7be, 22, 0x70768a29);
  }

  lemma EmptyTo16(q: Quad)
    requires Steps(q, EMPTY_WORDS, 12) == Q(0x3893b991, 0x70768a29, 0xe1ef0576, 0xfce4a312)
    ensures Steps(q, EMPTY_WORDS, 16) == Q(0xf56c7cf1, 0xd6819c6a, 0x5aa53f75, 0x374943a7)
  {
    hide K, T, S, Steps;
    Schedule1();
    One(q, EMPTY_WORDS, 12, 0x3893b991, 0x70768a29, 0xe1ef0576, 0xfce4a312, 0x00000000, 0x6b901122, 7, 0xf56c7cf1);
    One(q, EMPTY_WORDS, 13, 0xfce4a312, 0xf56c7cf1, 0x70768a29, 0xe1ef0576, 0x00000000, 0xfd987193, 12, 0x374943a7);
    One(q, EMPTY_WORDS, 14, 0xe1ef0576, 0x374943a7, 0xf56c7cf1, 0x70768a29, 0x00000000, 0xa679438e, 17, 0x5aa53f75);
    One(q, EMPTY_WORDS, 15, 0x70768a29, 0x5aa53f75, 0x374943a7, 0xf56c7cf1, 0x00000000, 0x49b40821, 22, 0xd6819c6a);
  }

  lemma EmptyTo20(q: Quad)
    requires Steps(q, EMPTY_WORDS, 16) == Q(0xf56c7cf1, 0xd6819c6a, 0x5aa53f75, 0x374943a7)
    ensures Steps(q, EMPTY_WORDS, 20) == Q(0x1c7d7513, 0xbd782e17, 0xc095f13a, 0x7bd57a3a)
  {
    hide K, T, S, Steps;
    Schedule2();
    One(q, EMPTY_WORDS, 16, 0xf56c7cf1, 0xd6819c6a, 0x5aa53f75, 0x374943a7, 0x00000000, 0xf61e2562, 5, 0x1c7d7513);
    One(q, EMPTY_WORDS, 17, 0x374943a7, 0x1c7d7513, 0xd6819c6a, 0x5aa53f75, 0x00000000, 0xc040b340, 9, 0x7bd57a3a);
    One(q, EMPTY_WORDS, 18, 0x5aa53f75, 0x7bd57a3a, 0x1c7d7513, 0xd6819c6a, 0x00000000, 0x265e5a51, 14, 0xc095f13a);
    One(q, EMPTY_WORDS, 19, 0xd6819c6a, 0xc095f13a, 0x7bd57a3a, 0x1c7d7513, 0x00000080, 0xe9b6c7aa, 20, 0xbd782e17);
  }

  lemma EmptyTo24(q: Quad)
    requires Steps(q, EMPTY_WORDS, 20) == Q(0x1c7d7513, 0xbd782e17, 0xc095f13a, 0x7bd57a3a)
    ensures Steps(q, EMPTY_WORDS, 24) == Q(0x3d1e3e6c, 0xe422531a, 0xeb41643e, 0x68b7b3e3)
  {
    hide K, T, S, Steps;
    Schedule2();
    One(q, EMPTY_WORDS, 20, 0x1c7d7513, 0xbd782e17, 0xc095f13a, 0x7bd57a3a, 0x00000000, 0xd62f105d, 5, 0x3d1e3e6c);
    One(q, EMPTY_WORDS, 21, 0x7bd57a3a, 0x3d1e3e6c, 0xbd782e17, 0xc095f13a, 0x00000000, 0x02441453, 9, 0x68b7b3e3);
    One(q, EMPTY_WORDS, 22, 0xc095f13a, 0x68b7b3e3, 0x3d1e3e6c, 0xbd782e17, 0x00000000, 0xd8a1e681, 14, 0xeb41643e);
    One(q, EMPTY_WORDS, 23, 0xbd782e17, 0xeb41643e, 0x68b7b3e3, 0x3d1e3e6c, 0x00000000, 0xe7d3fbc8, 20, 0xe422531a);
  }

  lemma EmptyTo28(q: Quad)
    requires Steps(q, EMPTY_WORDS, 24) == Q(0x3d1e3e6c, 0xe422531a, 0xeb41643e, 0x68b7b3e3)
    ensures Steps(q, EMPTY_WORDS, 28) == Q(0x306ec122, 0xa0572807, 0xa3c663da, 0xd28c77c2)
  {
    hide K, T, S, Steps;
    Schedule2();
    One(q, EMPTY_WORDS, 24, 0x3d1e3e6c, 0xe422531a, 0xeb41643e, 0x68b7b3e3, 0x00000000, 0x21e1cde6, 5, 0x306ec122);
    One(q, EMPTY_WORDS, 25, 0x68b7b3e3, 0x306ec122, 0xe422531a, 0xeb41643e, 0x00000000, 0xc33707d6, 9, 0xd28c77c2);
    One(q, EMPTY_WORDS, 26, 0xeb41643e, 0xd28c77c2, 0x306ec122, 0xe422531a, 0x00000000, 0xf4d50d87, 14, 0xa3c663da);
    One(q, EMPTY_WORDS, 27, 0xe422531a, 0xa3c663da, 0xd28c77c2, 0x306ec122, 0x00000000, 0x455a14ed, 20, 0xa0572807);
  }

  lemma EmptyTo32(q: Quad)
    requires Steps(q, EMPTY_WORDS, 28) == Q(0x306ec122, 0xa0572807, 0xa3c663da, 0xd28c77c2)
    ensures Steps(q, EMPTY_WORDS, 32) == Q(0x13707036, 0xa2205f1f, 0x1c31c384, 0xae7813db)
  {
    hide K, T, S, Steps;
    Schedule2();
    One(q, EMPTY_WORDS, 28, 0x306ec122, 0xa0572807, 0xa3c663da, 0xd28c77c2, 0x00000000, 0xa9e3e905, 5, 0x13707036);
    One(q, EMPTY_WORDS, 29, 0xd28c77c2, 0x13707036, 0xa0572807, 0xa3c663da, 0x00000000, 0xfcefa3f8, 9, 0xae7813db);
    One(q, EMPTY_WORDS, 30, 0xa3c663da, 0xae7813db, 0x13707036, 0xa0572807, 0x00000000, 0x676f02d9, 14, 0x1c31c384);
    One(q, EMPTY_WORDS, 31, 0xa0572807, 0x1c31c384, 0xae7813db, 0x13707036, 0x00000000, 0x8d2a4c8a, 20, 0xa2205f1f);
  }

  lemma EmptyTo36(q: Quad)
    requires Steps(q, EMPTY_WORDS, 32) == Q(0x13707036, 0xa2205f1f, 0x1c31c384, 0xae7813db)
    ensures Steps(q, EMPTY_WORDS, 36) == Q(0xdf63eaa1, 0x004b6669, 0x12f3e755, 0xc3689f5b)
  {
    hide K, T, S, Steps;
    Schedule3();
    One(q, EMPTY_WORDS, 32, 0x13707036, 0xa2205f1f, 0x1c31c384, 0xae7813db, 0x00000000, 0xfffa3942, 4, 0xdf63eaa1);
    One(q, EMPTY_WORDS, 33, 0xae7813db, 0xdf63eaa1, 0xa2205f1f, 0x1c31c384, 0x00000000, 0x8771f681, 11, 0xc3689f5b);
    One(q, EMPTY_WORDS, 34, 0x1c31c384, 0xc3689f5b, 0xdf63eaa1, 0xa2205f1f, 0x00000000, 0x6d9d6122, 16, 0x12f3e755);
    One(q, EMPTY_WORDS, 35, 0xa2205f1f, 0x12f3e755, 0xc3689f5b, 0xdf63eaa1, 0x00000000, 0xfde5380c, 23, 0x004b6669);
  }

  lemma EmptyTo40(q: Quad)
    requires Steps(q, EMPTY_WORDS, 36) == Q(0xdf63eaa1, 0x004b6669, 0x12f3e755, 0xc3689f5b)
    ensures Steps(q, EMPTY_WORDS, 40) == Q(0x5f7a9b2e, 0xc5dc8c15, 0x91ca4cb7, 0xabc34e16)
  {
    hide K, T, S, Steps;
    Schedule3();
    One(q, EMPTY_WORDS, 36, 0xdf63eaa1, 0x004b6669, 0x12f3e755, 0xc3689f5b, 0x00000000, 0xa4beea44, 4, 0x5f7a9b2e);
    One(q, EMPTY_WORDS, 37, 0xc3689f5b, 0x5f7a9b2e, 0x004b6669, 0x12f3e755, 0x00000000, 0x4bdecfa9, 11, 0xabc34e16);
    One(q, EMPTY_WORDS, 38, 0x12f3e755, 0xabc34e16, 0x5f7a9b2e, 0x004b6669, 0x00000000, 0xf6bb4b60, 16, 0x91ca4cb7);
    One(q, EMPTY_WORDS, 39, 0x004b6669, 0x91ca4cb7, 0xabc34e16, 0x5f7a9b2e, 0x00000000, 0xbebfbc70, 23, 0xc5dc8c15);
  }

  lemma EmptyTo44(q: Quad)
    requires Steps(q, EMPTY_WORDS, 40) == Q(0x5f7a9b2e, 0xc5dc8c15, 0x91ca4cb7, 0xabc34e16)
    ensures Steps(q, EMPTY_WORDS, 44) == Q(0x4497169d, 0x0fe32453, 0xfd95f243, 0x76fd93d4)
  {
    hide K, T, S, Steps;
    Schedule3();
    One(q, EMPTY_WORDS, 40, 0x5f7a9b2e, 0xc5dc8c15, 0x91ca4cb7, 0xabc34e16, 0x00000000, 0x289b7ec6, 4, 0x4497169d);
    One(q, EMPTY_WORDS, 41, 0xabc34e16, 0x4497169d, 0xc5dc8c15, 0x91ca4cb7, 0x00000080, 0xeaa127fa, 11, 0x76fd93d4);
    One(q, EMPTY_WORDS, 42, 0x91ca4cb7, 0x76fd93d4, 0x4497169d, 0xc5dc8c15, 0x00000000, 0xd4ef3085, 16, 0xfd95f243);
    One(q, EMPTY_WORDS, 43, 0xc5dc8c15, 0xfd95f243, 0x76fd93d4, 0x4497169d, 0x00000000, 0x04881d05, 23, 0x0fe32453);
  }

  lemma EmptyTo48(q: Quad)
    requires Steps(q, EMPTY_WORDS, 44) == Q(0x4497169d, 0x0fe32453, 0xfd95f243, 0x76fd93d4)
    ensures Steps(q, EMPTY_WORDS, 48) == Q(0x3f55edfd, 0xca7d2dbd, 0x68d84ea2, 0x22a31f54)
  {
    hide K, T, S, Steps;
    Schedule3();
    One(q, EMPTY_WORDS, 44, 0x4497169d, 0x0fe32453, 0xfd95f243, 0x76fd93d4, 0x00000000, 0xd9d4d039, 4, 0x3f55edfd);
    One(q, EMPTY_WORDS, 45, 0x76fd93d4, 0x3f55edfd, 0x0fe32453, 0xfd95f243, 0x00000000, 0xe6db99e5, 11, 0x22a31f54);
    One(q, EMPTY_WORDS, 46, 0xfd95f243, 0x22a31f54, 0x3f55edfd, 0x0fe32453, 0x00000000, 0x1fa27cf8, 16, 0x68d84ea2);
    One(q, EMPTY_WORDS, 47, 0x0fe32453, 0x68d84ea2, 0x22a31f54, 0x3f55edfd, 0x00000000, 0xc4ac5665, 23, 0xca7d2dbd);
  }

  lemma EmptyTo52(q: Quad)
    requires Steps(q, EMPTY_WORDS, 48) == Q(0x3f55edfd, 0xca7d2dbd, 0x68d84ea2, 0x22a31f54)
    ensures Steps(q, EMPTY_WORDS, 52) == Q(0x93aa2577, 0x561e0689, 0xcd85b8cb, 0x1688dc85)
  {
    hide K, T, S, Steps;
    Schedule4();
    One(q, EMPTY_WORDS, 48, 0x3f55edfd, 0xca7d2dbd, 0x68d84ea2, 0x22a31f54, 0x00000080, 0xf4292244, 6, 0x93aa2577);
    One(q, EMPTY_WORDS, 49, 0x22a31f54, 0x93aa2577, 0xca7d2dbd, 0x68d84ea2, 0x00000000, 0x432aff97, 10, 0x1688dc85);
    One(q, EMPTY_WORDS, 50, 0x68d84ea2, 0x1688dc85, 0x93aa2577, 0xca7d2dbd, 0x00000000, 0xab9423a7, 15, 0xcd85b8cb);
    One(q, EMPTY_WORDS, 51, 0xca7d2dbd, 0xcd85b8cb, 0x1688dc85, 0x93aa2577, 0x00000000, 0xfc93a039, 21, 0x561e0689);
  }

  lemma EmptyTo56(q: Quad)
    requires Steps(q, EMPTY_WORDS, 52) == Q(0x93aa2577, 0x561e0689, 0xcd85b8cb, 0x1688dc85)
    ensures Steps(q, EMPTY_WORDS, 56) == Q(0x5625a114, 0x1e77fa61, 0x392ad0d0, 0x3450f42b)
  {
    hide K, T, S, Steps;
    Schedule4();
    One(q, EMPTY_WORDS, 52, 0x93aa2577, 0x561e0689, 0xcd85b8cb, 0x1688dc85, 0x00000000, 0x655b59c3, 6, 0x5625a114);
    One(q, EMPTY_WORDS, 53, 0x1688dc85, 0x5625a114, 0x561e0689, 0xcd85b8cb, 0x00000000, 0x8f0ccc92, 10, 0x3450f42b);
    One(q, EMPTY_WORDS, 54, 0xcd85b8cb, 0x3450f42b, 0x5625a114, 0x561e0689, 0x00000000, 0xffeff47d, 15, 0x392ad0d0);
    One(q, EMPTY_WORDS, 55, 0x561e0689, 0x392ad0d0, 0x3450f42b, 0x5625a114, 0x00000000, 0x85845dd1, 21, 0x1e77fa61);
  }

  lemma EmptyTo60(q: Quad)
    requires Steps(q, EMPTY_WORDS, 56) == Q(0x5625a114, 0x1e77fa61, 0x392ad0d0, 0x3450f42b)
    ensures Steps(q, EMPTY_WORDS, 60) == Q(0x474a9c8c, 0x30130182, 0x36594b14, 0xdfce00bc)
  {
    hide K, T, S, Steps;
    Schedule4();
    One(q, EMPTY_WORDS, 56, 0x5625a114, 0x1e77fa61, 0x392ad0d0, 0x3450f42b, 0x00000000, 0x6fa87e4f, 6, 0x474a9c8c);
    One(q, EMPTY_WORDS, 57, 0x3450f42b, 0x474a9c8c, 0x1e77fa61, 0x392ad0d0, 0x00000000, 0xfe2ce6e0, 10, 0xdfce00bc);
    One(q, EMPTY_WORDS, 58, 0x392ad0d0, 0xdfce00bc, 0x474a9c8c, 0x1e77fa61, 0x00000000, 0xa3014314, 15, 0x36594b14);
    One(q, EMPTY_WORDS, 59, 0x1e77fa61, 0x36594b14, 0xdfce00bc, 0x474a9c8c, 0x00000000, 0x4e0811a1, 21, 0x30130182);
  }

  lemma EmptyTo64(q: Quad)
    requires Steps(q, EMPTY_WORDS, 60) == Q(0x474a9c8c, 0x30130182, 0x36594b14, 0xdfce00bc)
    ensures Steps(q, EMPTY_WORDS, 64) == Q(0x7246fad3, 0x14e45506, 0xff4ea3eb, 0x6e10a476)
  {
    hide K, T, S, Steps;
    Schedule4();
    One(q, EMPTY_WORDS, 60, 0x474a9c8c, 0x30130182, 0x36594b14, 0xdfce00bc, 0x00000000, 0xf7537e82, 6, 0x7246fad3);
    One(q, EMPTY_WORDS, 61, 0xdfce00bc, 0x7246fad3, 0x30130182, 0x36594b14, 0x00000000, 0xbd3af235, 10, 0x6e10a476);
    One(q, EMPTY_WORDS, 62, 0x36594b14, 0x6e10a476, 0x7246fad3, 0x30130182, 0x00000000, 0x2ad7d2bb, 15, 0xff4ea3eb);
    One(q, EMPTY_WORDS, 63, 0x30130182, 0xff4ea3eb, 0x6e10a476, 0x7246fad3, 0x00000000, 0xeb86d391, 21, 0x14e45506);
  }

  lemma EmptyWords()
    ensures Bits(0x00000000) == 0x00000000 && Bits(0x00000080) == 0x00000080
  {
  }

  lemma EmptyBlock()
    ensures |Padded(EMPTY_TEXT)| == 64 && Decode(Padded(EMPTY_TEXT)) == EMPTY_WORDS
  {
    hide Padded, Decode, Bits;
    ShortBlock(EMPTY_TEXT);
    var p := Padded(EMPTY_TEXT);
    EmptyWords();
    WordIs(p, 0, 0x80, 0x00, 0x00, 0x00, 0x00000080, 0x00000080);
    WordIs(p, 14, 0x00, 0x00, 0x00, 0x00, 0x00000000, 0x00000000);
    WordIs(p, 15, 0x00, 0x00, 0x00, 0x00, 0x00000000, 0x00000000);
    ZeroWords(p, 1);
  }

  lemma EmptySum()
    ensures Add(INIT, Q(0x7246fad3, 0x14e45506, 0xff4ea3eb, 0x6e10a476)) == Q(0xd98c1dd4, 0x04b2008f, 0x980980e9, 0x7e42f8ec)
  {
  }

  lemma EmptyDigest()
    ensures CodeDigest(EMPTY_TEXT) == Digest(EMPTY_TEXT)
    ensures Digest(EMPTY_TEXT) == [0xd4, 0x1d, 0x8c, 0xd9, 0x8f, 0x00, 0xb2, 0x04, 0xe9, 0x80, 0x09, 0x98, 0xec, 0xf8, 0x42, 0x7e]
  {
    hide Steps, Padded, Decode, Add, Out, Digest, CodeDigest, Bytes4, K, S, T;
    CountBound(|EMPTY_TEXT|);
    CodeDigestIsDigest(EMPTY_TEXT);
    EmptyBlock();
    Start(EMPTY_WORDS);
    EmptyTo4(INIT);
    EmptyTo8(INIT);
    EmptyTo12(INIT);
    EmptyTo16(INIT);
    EmptyTo20(INIT);
    EmptyTo24(INIT);
    EmptyTo28(INIT);
    EmptyTo32(INIT);
    EmptyTo36(INIT);
    EmptyTo40(INIT);
    EmptyTo44(INIT);
    EmptyTo48(INIT);
    EmptyTo52(INIT);
    EmptyTo56(INIT);
    EmptyTo60(INIT);
    EmptyTo64(INIT);
    OneBlock(EMPTY_TEXT);
    EmptySum();
    OutIs(Q(0xd98c1dd4, 0x04b2008f, 0x980980e9, 0x7e42f8ec), 0xd98c1dd4, 0x04b2008f, 0x980980e9, 0x7e42f8ec);
    BytesAre(0xd98c1dd4, 0xd4, 0x1d, 0x8c, 0xd9);
    BytesAre(0x04b2008f, 0x8f, 0x00, 0xb2, 0x04);
    BytesAre(0x980980e9, 0xe9, 0x80, 0x09, 0x98);
    BytesAre(0x7e42f8ec, 0xec, 0xf8, 0x42, 0x7e);
  }

  // ----- "abc" -----

  const ABC_TEXT: seq<byte> := [97, 98, 99]
  const ABC_WORDS: seq<Reg> := [
    Reg(0x80636261), Reg(0x00000000), Reg(0x00000000), Reg(0x00000000), Reg(0x00000000), Reg(0x00000000), Reg(0x00000000), Reg(0x00000000),
    Reg(0x00000000), Reg(0x00000000), Reg(0x00000000), Reg(0x00000000), Reg(0x00000000), Reg(0x00000000), Reg(0x00000018), Reg(0x00000000)
  ]

  lemma AbcTo4(q: Quad)
    requires Steps(q, ABC_WORDS, 0) == Q(0x67452301, 0xefcdab89, 0x98badcfe, 0x10325476)
    ensures Steps(q, ABC_WORDS, 4) == Q(0xd6d117b4, 0x7ad956f2, 0x2f6fbd72, 0x344a8432)
  {
    hide K, T, S, Steps;
    Schedule1();
    One(q, ABC_WORDS, 0, 0x67452301, 0xefcdab89, 0x98badcfe, 0x10325476, 0x80636261, 0xd76aa478, 7, 0xd6d117b4);
    One(q, ABC_WORDS, 1, 0x10325476, 0xd6d117b4, 0xefcdab89, 0x98badcfe, 0x00000000, 0xe8c7b756, 12, 0x344a8432);
    One(q, ABC_WORDS, 2, 0x98badcfe, 0x344a8432, 0xd6d117b4, 0xefcdab89, 0x00000000, 0x242070db, 17, 0x2f6fbd72);
    One(q, ABC_WORDS, 3, 0xefcdab89, 0x2f6fbd72, 0x344a8432, 0xd6d117b4, 0x00000000, 0xc1bdceee, 22, 0x7ad956f2);
  }

  lemma AbcTo8(q: Quad)
    requires Steps(q, ABC_WORDS, 4) == Q(0xd6d117b4, 0x7ad956f2, 0x2f6fbd72, 0x344a8432)
    ensures Steps(q, ABC_WORDS, 8) == Q(0xc73741ef, 0x928d99f6, 0x207dc67b, 0x8bac3051)
  {
    hide K, T, S, Steps;
    Schedule1();
    One(q, ABC_WORDS, 4, 0xd6d117b4, 0x7ad956f2, 0x2f6fbd72, 0x344a8432, 0x00000000, 0xf57c0faf, 7, 0xc73741ef);
    One(q, ABC_WORDS, 5, 0x344a8432, 0xc73741ef, 0x7ad956f2, 0x2f6fbd72, 0x00000000, 0x4787c62a, 12, 0x8bac3051);
    One(q, ABC_WORDS, 6, 0x2f6fbd72, 0x8bac3051, 0xc73741ef, 0x7ad956f2, 0x00000000, 0xa8304613, 17, 0x207dc67b);
    One(q, ABC_WORDS, 7, 0x7ad956f2, 0x207dc67b, 0x8bac3051, 0xc73741ef, 0x00000000, 0xfd469501, 22, 0x928d99f6);
  }

  lemma AbcTo12(q: Quad)
    requires Steps(q, ABC_WORDS, 8) == Q(0xc73741ef, 0x928d99f6, 0x207dc67b, 0x8bac3051)
    ensures Steps(q, ABC_WORDS, 12) == Q(0x854b3712, 0x5ed49596, 0x3020401c, 0x74e2f284)
  {
    hide K, T, S, Steps;
    Schedule1();
    One(q, ABC_WORDS, 8, 0xc73741ef, 0x928d99f6, 0x207dc67b, 0x8bac3051, 0x00000000, 0x698098d8, 7, 0x854b3712);
    One(q, ABC_WORDS, 9, 0x8bac3051, 0x854b3712, 0x928d99f6, 0x207dc67b, 0x00000000, 0x8b44f7af, 12, 0x74e2f284);
    One(q, ABC_WORDS, 10, 0x207dc67b, 0x74e2f284, 0x854b3712, 0x928d99f6, 0x00000000, 0xffff5bb1, 17, 0x3020401c);
    One(q, ABC_WORDS, 11, 0x928d99f6, 0x3020401c, 0x74e2f284, 0x854b3712, 0x00000000, 0x895cd7be, 22, 0x5ed49596);
  }

  lemma AbcTo16(q: Quad)
    requires Steps(q, ABC_WORDS, 12) == Q(0x854b3712, 0x5ed49596, 0x3020401c, 0x74e2f284)
    ensures Steps(q, ABC_WORDS, 16) == Q(0xdda9b9a6, 0x72aff2e0, 0xe396856b, 0xa1051895)
  {
    hide K, T, S, Steps;
    Schedule1();
    One(q, ABC_WORDS, 12, 0x854b3712, 0x5ed49596, 0x3020401c, 0x74e2f284, 0x00000000, 0x6b901122, 7, 0xdda9b9a6);
    One(q, ABC_WORDS, 13, 0x74e2f284, 0xdda9b9a6, 0x5ed49596, 0x3020401c, 0x00000000, 0xfd987193, 12, 0xa1051895);
    One(q, ABC_WORDS, 14, 0x3020401c, 0xa1051895, 0xdda9b9a6, 0x5ed49596, 0x00000018, 0xa679438e, 17, 0xe396856b);
    One(q, ABC_WORDS, 15, 0x5ed49596, 0xe396856b, 0xa1051895, 0xdda9b9a6, 0x00000000, 0x49b40821, 22, 0x72aff2e0);
  }

  lemma AbcTo20(q: Quad)
    requires Steps(q, ABC_WORDS, 16) == Q(0xdda9b9a6, 0x72aff2e0, 0xe396856b, 0xa1051895)
    ensures Steps(q, ABC_WORDS, 20) == Q(0x3e9e9126, 0xb5b204e4, 0xe25e1652, 0x4a1d804e)
  {
    hide K, T, S, Steps;
    Schedule2();
    One(q, ABC_WORDS, 16, 0xdda9b9a6, 0x72aff2e0, 0xe396856b, 0xa1051895, 0x00000000, 0xf61e2562, 5, 0x3e9e9126);
    One(q, ABC_WORDS, 17, 0xa1051895, 0x3e9e9126, 0x72aff2e0, 0xe396856b, 0x00000000, 0xc040b340, 9, 0x4a1d804e);
    One(q, ABC_WORDS, 18, 0xe396856b, 0x4a1d804e, 0x3e9e9126, 0x72aff2e0, 0x00000000, 0x265e5a51, 14, 0xe25e1652);
    One(q, ABC_WORDS, 19, 0x72aff2e0, 0xe25e1652, 0x4a1d804e, 0x3e9e9126, 0x80636261, 0xe9b6c7aa, 20, 0xb5b204e4);
  }

  lemma AbcTo24(q: Quad)
    requires Steps(q, ABC_WORDS, 20) == Q(0x3e9e9126, 0xb5b204e4, 0xe25e1652, 0x4a1d804e)
    ensures Steps(q, ABC_WORDS, 24) == Q(0x59a8ffda, 0x47092c07, 0xabfc7920, 0x6d002f1e)
  {
    hide K, T, S, Steps;
    Schedule2();
    One(q, ABC_WORDS, 20, 0x3e9e9126, 0xb5b204e4, 0xe25e1652, 0x4a1d804e, 0x00000000, 0xd62f105d, 5, 0x59a8ffda);
    One(q, ABC_WORDS, 21, 0x4a1d804e, 0x59a8ffda, 0xb5b204e4, 0xe25e1652, 0x00000000, 0x02441453, 9, 0x6d002f1e);
    One(q, ABC_WORDS, 22, 0xe25e1652, 0x6d002f1e, 0x59a8ffda, 0xb5b204e4, 0x00000000, 0xd8a1e681, 14, 0xabfc7920);
    One(q, ABC_WORDS, 23, 0xb5b204e4, 0xabfc7920, 0x6d002f1e, 0x59a8ffda, 0x00000000, 0xe7d3fbc8, 20, 0x47092c07);
  }

  lemma AbcTo28(q: Quad)
    requires Steps(q, ABC_WORDS, 24) == Q(0x59a8ffda, 0x47092c07, 0xabfc7920, 0x6d002f1e)
    ensures Steps(q, ABC_WORDS, 28) == Q(0xb7f268cf, 0x786acb8f, 0xfe1623b1, 0x09388eff)
  {
    hide K, T, S, Steps;
    Schedule2();
    One(q, ABC_WORDS, 24, 0x59a8ffda, 0x47092c07, 0xabfc7920, 0x6d002f1e, 0x00000000, 0x21e1cde6, 5, 0xb7f268cf);
    One(q, ABC_WORDS, 25, 0x6d002f1e, 0xb7f268cf, 0x47092c07, 0xabfc7920, 0x00000018, 0xc33707d6, 9, 0x09388eff);
    One(q, ABC_WORDS, 26, 0xabfc7920, 0x09388eff, 0xb7f268cf, 0x47092c07, 0x00000000, 0xf4d50d87, 14, 0xfe1623b1);
    One(q, ABC_WORDS, 27, 0x47092c07, 0xfe1623b1, 0x09388eff, 0xb7f268cf, 0x00000000, 0x455a14ed, 20, 0x786acb8f);
  }

  lemma AbcTo32(q: Quad)
    requires Steps(q, ABC_WORDS, 28) == Q(0xb7f268cf, 0x786acb8f, 0xfe1623b1, 0x09388eff)
    ensures Steps(q, ABC_WORDS, 32) == Q(0x790a77fb, 0x726342d3, 0xa62884aa, 0x9f47e4f8)
  {
    hide K, T, S, Steps;
    Schedule2();
    One(q, ABC_WORDS, 28, 0xb7f268cf, 0x786acb8f, 0xfe1623b1, 0x09388eff, 0x00000000, 0xa9e3e905, 5, 0x790a77fb);
    One(q, ABC_WORDS, 29, 0x09388eff, 0x790a77fb, 0x786acb8f, 0xfe1623b1, 0x00000000, 0xfcefa3f8, 9, 0x9f47e4f8);
    One(q, ABC_WORDS, 30, 0xfe1623b1, 0x9f47e4f8, 0x790a77fb, 0x786acb8f, 0x00000000, 0x676f02d9, 14, 0xa62884aa);
    One(q, ABC_WORDS, 31, 0x786acb8f, 0xa62884aa, 0x9f47e4f8, 0x790a77fb, 0x00000000, 0x8d2a4c8a, 20, 0x726342d3);
  }

  lemma AbcTo36(q: Quad)
    requires Steps(q, ABC_WORDS, 32) == Q(0x790a77fb, 0x726342d3, 0xa62884aa, 0x9f47e4f8)
    ensures Steps(q, ABC_WORDS, 36) == Q(0xb3707ebf, 0x3b0875c7, 0x8d212ff5, 0x60127b2e)
  {
    hide K, T, S, Steps;
    Schedule3();
    One(q, ABC_WORDS, 32, 0x790a77fb, 0x726342d3, 0xa62884aa, 0x9f47e4f8, 0x00000000, 0xfffa3942, 4, 0xb3707ebf);
    One(q, ABC_WORDS, 33, 0x9f47e4f8, 0xb3707ebf, 0x726342d3, 0xa62884aa, 0x00000000, 0x8771f681, 11, 0x60127b2e);
    One(q, ABC_WORDS, 34, 0xa62884aa, 0x60127b2e, 0xb3707ebf, 0x726342d3, 0x00000000, 0x6d9d6122, 16, 0x8d212ff5);
    One(q, ABC_WORDS, 35, 0x726342d3, 0x8d212ff5, 0x60127b2e, 0xb3707ebf, 0x00000018, 0xfde5380c, 23, 0x3b0875c7);
  }

  lemma AbcTo40(q: Quad)
    requires Steps(q, ABC_WORDS, 36) == Q(0xb3707ebf, 0x3b0875c7, 0x8d212ff5, 0x60127b2e)
    ensures Steps(q, ABC_WORDS, 40) == Q(0x21b117b9, 0x5a2f5ea5, 0x3575227e, 0x6e7429d5)
  {
    hide K, T, S, Steps;
    Schedule3();
    One(q, ABC_WORDS, 36, 0xb3707ebf, 0x3b0875c7, 0x8d212ff5, 0x60127b2e, 0x00000000, 0xa4beea44, 4, 0x21b117b9);
    One(q, ABC_WORDS, 37, 0x60127b2e, 0x21b117b9, 0x3b0875c7, 0x8d212ff5, 0x00000000, 0x4bdecfa9, 11, 0x6e7429d5);
    One(q, ABC_WORDS, 38, 0x8d212ff5, 0x6e7429d5, 0x21b117b9, 0x3b0875c7, 0x00000000, 0xf6bb4b60, 16, 0x3575227e);
    One(q, ABC_WORDS, 39, 0x3b0875c7, 0x3575227e, 0x6e7429d5, 0x21b117b9, 0x00000000, 0xbebfbc70, 23, 0x5a2f5ea5);
  }

  lemma AbcTo44(q: Quad)
    requires Steps(q, ABC_WORDS, 40) == Q(0x21b117b9, 0x5a2f5ea5, 0x3575227e, 0x6e7429d5)
    ensures Steps(q, ABC_WORDS, 44) == Q(0x11de1779, 0x4c6124f4, 0x31c465ca, 0xfadcaa38)
  {
    hide K, T, S, Steps;
    Schedule3();
    One(q, ABC_WORDS, 40, 0x21b117b9, 0x5a2f5ea5, 0x3575227e, 0x6e7429d5, 0x00000000, 0x289b7ec6, 4, 0x11de1779);
    One(q, ABC_WORDS, 41, 0x6e7429d5, 0x11de1779, 0x5a2f5ea5, 0x3575227e, 0x80636261, 0xeaa127fa, 11, 0xfadcaa38);
    One(q, ABC_WORDS, 42, 0x3575227e, 0xfadcaa38, 0x11de1779, 0x5a2f5ea5, 0x00000000, 0xd4ef3085, 16, 0x31c465ca);
    One(q, ABC_WORDS, 43, 0x5a2f5ea5, 0x31c465ca, 0xfadcaa38, 0x11de1779, 0x00000000, 0x04881d05, 23, 0x4c6124f4);
  }

  lemma AbcTo48(q: Quad)
    requires Steps(q, ABC_WORDS, 44) == Q(0x11de1779, 0x4c6124f4, 0x31c465ca, 0xfadcaa38)
    ensures Steps(q, ABC_WORDS, 48) == Q(0x7f2e507b, 0x7beb9700, 0x8fae6399, 0x99d9679d)
  {
    hide K, T, S, Steps;
    Schedule3();
    One(q, ABC_WORDS, 44, 0x11de1779, 0x4c6124f4, 0x31c465ca, 0xfadcaa38, 0x00000000, 0xd9d4d039, 4, 0x7f2e507b);
    One(q, ABC_WORDS, 45, 0xfadcaa38, 0x7f2e507b, 0x4c6124f4, 0x31c465ca, 0x00000000, 0xe6db99e5, 11, 0x99d9679d);
    One(q, ABC_WORDS, 46, 0x31c465ca, 0x99d9679d, 0x7f2e507b, 0x4c6124f4, 0x00000000, 0x1fa27cf8, 16, 0x8fae6399);
    One(q, ABC_WORDS, 47, 0x4c6124f4, 0x8fae6399, 0x99d9679d, 0x7f2e507b, 0x00000000, 0xc4ac5665, 23, 0x7beb9700);
  }

  lemma AbcTo52(q: Quad)
    requires Steps(q, ABC_WORDS, 48) == Q(0x7f2e507b, 0x7beb9700, 0x8fae6399, 0x99d9679d)
    ensures Steps(q, ABC_WORDS, 52) == Q(0x7b201df8, 0x8bf025c4, 0xb298cefd, 0xf4e8e96e)
  {
    hide K, T, S, Steps;
    Schedule4();
    One(q, ABC_WORDS, 48, 0x7f2e507b, 0x7beb9700, 0x8fae6399, 0x99d9679d, 0x80636261, 0xf4292244, 6, 0x7b201df8);
    One(q, ABC_WORDS, 49, 0x99d9679d, 0x7b201df8, 0x7beb9700, 0x8fae6399, 0x00000000, 0x432aff97, 10, 0xf4e8e96e);
    One(q, ABC_WORDS, 50, 0x8fae6399, 0xf4e8e96e, 0x7b201df8, 0x7beb9700, 0x00000018, 0xab9423a7, 15, 0xb298cefd);
    One(q, ABC_WORDS, 51, 0x7beb9700, 0xb298cefd, 0xf4e8e96e, 0x7b201df8, 0x00000000, 0xfc93a039, 21, 0x8bf025c4);
  }

  lemma AbcTo56(q: Quad)
    requires Steps(q, ABC_WORDS, 52) == Q(0x7b201df8, 0x8bf025c4, 0xb298cefd, 0xf4e8e96e)
    ensures Steps(q, ABC_WORDS, 56) == Q(0x06cc5e8a, 0x3bfa2c27, 0x7d632dd0, 0x5b0d97aa)
  {
    hide K, T, S, Steps;
    Schedule4();
    One(q, ABC_WORDS, 52, 0x7b201df8, 0x8bf025c4, 0xb298cefd, 0xf4e8e96e, 0x00000000, 0x655b59c3, 6, 0x06cc5e8a);
    One(q, ABC_WORDS, 53, 0xf4e8e96e, 0x06cc5e8a, 0x8bf025c4, 0xb298cefd, 0x00000000, 0x8f0ccc92, 10, 0x5b0d97aa);
    One(q, ABC_WORDS, 54, 0xb298cefd, 0x5b0d97aa, 0x06cc5e8a, 0x8bf025c4, 0x00000000, 0xffeff47d, 15, 0x7d632dd0);
    One(q, ABC_WORDS, 55, 0x8bf025c4, 0x7d632dd0, 0x5b0d97aa, 0x06cc5e8a, 0x00000000, 0x85845dd1, 21, 0x3bfa2c27);
  }

  lemma AbcTo60(q: Quad)
    requires Steps(q, ABC_WORDS, 56) == Q(0x06cc5e8a, 0x3bfa2c27, 0x7d632dd0, 0x5b0d97aa)
    ensures Steps(q, ABC_WORDS, 60) == Q(0x7f81cc35, 0x7327d604, 0x4f9dbe3f, 0x094454ab)
  {
    hide K, T, S, Steps;
    Schedule4();
    One(q, ABC_WORDS, 56, 0x06cc5e8a, 0x3bfa2c27, 0x7d632dd0, 0x5b0d97aa, 0x00000000, 0x6fa87e4f, 6, 0x7f81cc35);
    One(q, ABC_WORDS, 57, 0x5b0d97aa, 0x7f81cc35, 0x3bfa2c27, 0x7d632dd0, 0x00000000, 0xfe2ce6e0, 10, 0x094454ab);
    One(q, ABC_WORDS, 58, 0x7d632dd0, 0x094454ab, 0x7f81cc35, 0x3bfa2c27, 0x00000000, 0xa3014314, 15, 0x4f9dbe3f);
    One(q, ABC_WORDS, 59, 0x3bfa2c27, 0x4f9dbe3f, 0x094454ab, 0x7f81cc35, 0x00000000, 0x4e0811a1, 21, 0x7327d604);
  }

  lemma AbcTo64(q: Quad)
    requires Steps(q, ABC_WORDS, 60) == Q(0x7f81cc35, 0x7327d604, 0x4f9dbe3f, 0x094454ab)
    ensures Steps(q, ABC_WORDS, 64) == Q(0x310ade8f, 0xc08226b3, 0xe484b9d8, 0x624d8cb2)
  {
    hide K, T, S, Steps;
    Schedule4();
    One(q, ABC_WORDS, 60, 0x7f81cc35, 0x7327d604, 0x4f9dbe3f, 0x094454ab, 0x00000000, 0xf7537e82, 6, 0x310ade8f);
    One(q, ABC_WORDS, 61, 0x094454ab, 0x310ade8f, 0x7327d604, 0x4f9dbe3f, 0x00000000, 0xbd3af235, 10, 0x624d8cb2);
    One(q, ABC_WORDS, 62, 0x4f9dbe3f, 0x624d8cb2, 0x310ade8f, 0x7327d604, 0x00000000, 0x2ad7d2bb, 15, 0xe484b9d8);
    One(q, ABC_WORDS, 63, 0x7327d604, 0xe484b9d8, 0x624d8cb2, 0x310ade8f, 0x00000000, 0xeb86d391, 21, 0xc08226b3);
  }

  lemma AbcWords()
    ensures Bits(0x00000000) == 0x00000000 && Bits(0x00000018) == 0x00000018 && Bits(0x80636261) == 0x80636261
  {
  }

  lemma AbcBlock()
    ensures |Padded(ABC_TEXT)| == 64 && Decode(Padded(ABC_TEXT)) == ABC_WORDS
  {
    hide Padded, Decode, Bits;
    ShortBlock(ABC_TEXT);
    var p := Padded(ABC_TEXT);
    AbcWords();
    WordIs(p, 0, 0x61, 0x62, 0x63, 0x80, 0x80636261, 0x80636261);
    WordIs(p, 14, 0x18, 0x00, 0x00, 0x00, 0x00000018, 0x00000018);
    WordIs(p, 15, 0x00, 0x00, 0x00, 0x00, 0x00000000, 0x00000000);
    ZeroWords(p, 1);
  }

  lemma AbcSum()
    ensures Add(INIT, Q(0x310ade8f, 0xc08226b3, 0xe484b9d8, 0x624d8cb2)) == Q(0x98500190, 0xb04fd23c, 0x7d3f96d6, 0x727fe128)
  {
  }

  lemma AbcDigest()
    ensures CodeDigest(ABC_TEXT) == Digest(ABC_TEXT)
    ensures Digest(ABC_TEXT) == [0x90, 0x01, 0x50, 0x98, 0x3c, 0xd2, 0x4f, 0xb0, 0xd6, 0x96, 0x3f, 0x7d, 0x28, 0xe1, 0x7f, 0x72]
  {
    hide Steps, Padded, Decode, Add, Out, Digest, CodeDigest, Bytes4, K, S, T;
    CountBound(|ABC_TEXT|);
    CodeDigestIsDigest(ABC_TEXT);
    AbcBlock();
    Start(ABC_WORDS);
    AbcTo4(INIT);
    AbcTo8(INIT);
    AbcTo12(INIT);
    AbcTo16(INIT);
    AbcTo20(INIT);
    AbcTo24(INIT);
    AbcTo28(INIT);
    AbcTo32(INIT);
    AbcTo36(INIT);
    AbcTo40(INIT);
    AbcTo44(INIT);
    AbcTo48(INIT);
    AbcTo52(INIT);
    AbcTo56(INIT);
    AbcTo60(INIT);
    AbcTo64(INIT);
    OneBlock(ABC_TEXT);
    AbcSum();
    OutIs(Q(0x98500190, 0xb04fd23c, 0x7d3f96d6, 0x727fe128), 0x98500190, 0xb04fd23c, 0x7d3f96d6, 0x727fe128);
    BytesAre(0x98500190, 0x90, 0x01, 0x50, 0x98);
    BytesAre(0xb04fd23c, 0x3c, 0xd2, 0x4f, 0xb0);
    BytesAre(0x7d3f96d6, 0xd6, 0x96, 0x3f, 0x7d);
    BytesAre(0x727fe128, 0x28, 0xe1, 0x7f, 0x72);
  }
}
