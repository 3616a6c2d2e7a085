/** MD5 as md5.c computes it, against the definition in RFC 1321. */
module Md5 {
  import opened Words

  /** A 32-bit register. */
  datatype Reg = Reg(v: bv32)

  datatype Quad = Quad(a: Reg, b: Reg, c: Reg, d: Reg)

  // ----- section 3.4 of RFC 1321 -----

  function Plus(x: Reg, y: Reg): Reg { Reg(Plus32(x.v, y.v)) }
  function Plus32(x: bv32, y: bv32): bv32 { x + y }
  function Sum(a: Reg, f: Reg, x: Reg, t: Reg): Reg { Reg(Sum32(a.v, f.v, x.v, t.v)) }
  function Sum32(a: bv32, f: bv32, x: bv32, t: bv32): bv32 { a + f + x + t }

  function Rol(x: Reg, s: bv32): Reg
    requires 0 < s < 32
  {
    Reg(Rol32(x.v, s))
  }

  function Rol32(x: bv32, s: bv32): bv32
    requires 0 < s < 32
  {
    (x << s) | (x >> (32 - s))
  }

  predicate Bit(v: bv32, k: bv32)
    requires k < 32
  {
    (v >> k) & 1 == 1
  }

  /** A rotation moves bit k to bit k + s, counted round the register. */
  lemma RolMovesBits(x: Reg, s: bv32, k: bv32)
    requires 0 < s < 32 && k < 32
    ensures Bit(Rol(x, s).v, (k + s) % 32) == Bit(x.v, k)
  {
    hide Rol32, Bit;
    BitsMove(x.v, s, k);
  }

  lemma BitsMove(v: bv32, s: bv32, k: bv32)
    requires 0 < s < 32 && k < 32
    ensures Bit(Rol32(v, s), (k + s) % 32) == Bit(v, k)
  {
    hide Rol32, Bit;
    RoundThirtyTwo(s, k);
    if k + s < 32 {
      LowBitsMove(v, s, k);
    } else {
      HighBitsMove(v, s, k);
    }
  }

  lemma RoundThirtyTwo(s: bv32, k: bv32)
    requires s < 32 && k < 32
    ensures (k + s) % 32 == if k + s < 32 then k + s else k + s - 32
  {
  }

  lemma LowBitsMove(v: bv32, s: bv32, k: bv32)
    requires 0 < s < 32 && k < 32 && k + s < 32
    ensures Bit(Rol32(v, s), k + s) == Bit(v, k)
  {
  }

  lemma HighBitsMove(v: bv32, s: bv32, k: bv32)
    requires 0 < s < 32 && k < 32 && k + s >= 32
    ensures Bit(Rol32(v, s), k + s - 32) == Bit(v, k)
  {
  }

  function F(x: Reg, y: Reg, z: Reg): Reg { Reg(F32(x.v, y.v, z.v)) }
  function F32(x: bv32, y: bv32, z: bv32): bv32 { (x & y) | (!x & z) }
  function G(x: Reg, y: Reg, z: Reg): Reg { Reg(G32(x.v, y.v, z.v)) }
  function G32(x: bv32, y: bv32, z: bv32): bv32 { (x & z) | (y & !z) }
  function H(x: Reg, y: Reg, z: Reg): Reg { Reg(H32(x.v, y.v, z.v)) }
  function H32(x: bv32, y: bv32, z: bv32): bv32 { x ^ y ^ z }
  function I(x: Reg, y: Reg, z: Reg): Reg { Reg(I32(x.v, y.v, z.v)) }
  function I32(x: bv32, y: bv32, z: bv32): bv32 { y ^ (x | !z) }

  /** The word that step i uses. */
  function K(i: nat): (k: nat)
    ensures i < 64 ==> k < 16
  {
    if i < 16 then i else if i < 32 then (5 * i + 1) % 16 else if i < 48 then (3 * i + 5) % 16 else 7 * i % 16
  }

  /** The rotation of step i. */
  function S(i: nat): (s: bv32)
    ensures 0 < s < 32
  {
    if i < 16 then (if i % 4 == 0 then 7 else if i % 4 == 1 then 12 else if i % 4 == 2 then 17 else 22)
    else if i < 32 then (if i % 4 == 0 then 5 else if i % 4 == 1 then 9 else if i % 4 == 2 then 14 else 20)
    else if i < 48 then (if i % 4 == 0 then 4 else if i % 4 == 1 then 11 else if i % 4 == 2 then 16 else 23)
    else (if i % 4 == 0 then 6 else if i % 4 == 1 then 10 else if i % 4 == 2 then 15 else 21)
  }

  function T1(i: nat): Reg {
    if i < 8 then
      (if i < 4 then
        (if i < 2 then (if i == 0 then Reg(0xd76aa478) else Reg(0xe8c7b756)) else (if i == 2 then Reg(0x242070db) else Reg(0xc1bdceee)))
      else
        (if i < 6 then (if i == 4 then Reg(0xf57c0faf) else Reg(0x4787c62a)) else (if i == 6 then Reg(0xa8304613) else Reg(0xfd469501))))
    else
      (if i < 12 then
        (if i < 10 then (if i == 8 then Reg(0x698098d8) else Reg(0x8b44f7af)) else (if i == 10 then Reg(0xffff5bb1) else Reg(0x895cd7be)))
      else
        (if i < 14 then (if i == 12 then Reg(0x6b901122) else Reg(0xfd987193)) else (if i == 14 then Reg(0xa679438e) else Reg(0x49b40821))))
  }

  function T2(i: nat): Reg {
    if i < 24 then
      (if i < 20 then
        (if i < 18 then (if i == 16 then Reg(0xf61e2562) else Reg(0xc040b340)) else (if i == 18 then Reg(0x265e5a51) else Reg(0xe9b6c7aa)))
      else
        (if i < 22 then (if i == 20 then Reg(0xd62f105d) else Reg(0x02441453)) else (if i == 22 then Reg(0xd8a1e681) else Reg(0xe7d3fbc8))))
    else
      (if i < 28 then
        (if i < 26 then (if i == 24 then Reg(0x21e1cde6) else Reg(0xc33707d6)) else (if i == 26 then Reg(0xf4d50d87) else Reg(0x455a14ed)))
      else
        (if i < 30 then (if i == 28 then Reg(0xa9e3e905) else Reg(0xfcefa3f8)) else (if i == 30 then Reg(0x676f02d9) else Reg(0x8d2a4c8a))))
  }

  function T3(i: nat): Reg {
    if i < 40 then
      (if i < 36 then
        (if i < 34 then (if i == 32 then Reg(0xfffa3942) else Reg(0x8771f681)) else (if i == 34 then Reg(0x6d9d6122) else Reg(0xfde5380c)))
      else
        (if i < 38 then (if i == 36 then Reg(0xa4beea44) else Reg(0x4bdecfa9)) else (if i == 38 then Reg(0xf6bb4b60) else Reg(0xbebfbc70))))
    else
      (if i < 44 then
        (if i < 42 then (if i == 40 then Reg(0x289b7ec6) else Reg(0xeaa127fa)) else (if i == 42 then Reg(0xd4ef3085) else Reg(0x04881d05)))
      else
        (if i < 46 then (if i == 44 then Reg(0xd9d4d039) else Reg(0xe6db99e5)) else (if i == 46 then Reg(0x1fa27cf8) else Reg(0xc4ac5665))))
  }

  function T4(i: nat): Reg {
    if i < 56 then
      (if i < 52 then
        (if i < 50 then (if i == 48 then Reg(0xf4292244) else Reg(0x432aff97)) else (if i == 50 then Reg(0xab9423a7) else Reg(0xfc93a039)))
      else
        (if i < 54 then (if i == 52 then Reg(0x655b59c3) else Reg(0x8f0ccc92)) else (if i == 54 then Reg(0xffeff47d) else Reg(0x85845dd1))))
    else
      (if i < 60 then
        (if i < 58 then (if i == 56 then Reg(0x6fa87e4f) else Reg(0xfe2ce6e0)) else (if i == 58 then Reg(0xa3014314) else Reg(0x4e0811a1)))
      else
        (if i < 62 then (if i == 60 then Reg(0xf7537e82) else Reg(0xbd3af235)) else (if i == 62 then Reg(0x2ad7d2bb) else Reg(0xeb86d391))))
  }

  function T(i: nat): Reg {
    if i < 16 then T1(i) else if i < 32 then T2(i) else if i < 48 then T3(i) else T4(i)
  }

  function Aux(i: nat, x: Reg, y: Reg, z: Reg): Reg {
    if i < 16 then F(x, y, z) else if i < 32 then G(x, y, z) else if i < 48 then H(x, y, z) else I(x, y, z)
  }

  /** [abcd k s i]: a = b + ((a + f(b,c,d) + X[k] + T[i]) <<< s), and the four registers change places. */
  function Step(q: Quad, x: seq<Reg>, i: nat): Quad
    requires |x| == 16 && i < 64
  {
    Quad(q.d, Plus(q.b, Rol(Sum(q.a, Aux(i, q.b, q.c, q.d), x[K(i)], T(i)), S(i))), q.b, q.c)
  }

  /** The registers after the first n steps. */
  function Steps(q: Quad, x: seq<Reg>, n: nat): Quad
    requires |x| == 16 && n <= 64
  {
    if n == 0 then q else Step(Steps(q, x, n - 1), x, n - 1)
  }

  function Add(p: Quad, q: Quad): Quad { Quad(Plus(p.a, q.a), Plus(p.b, q.b), Plus(p.c, q.c), Plus(p.d, q.d)) }

  /** The sixteen little-endian words of 64 bytes. */
  function Decode(block: seq<byte>): (x: seq<Reg>)
    requires |block| == 64
    ensures |x| == 16
  {
    seq(16, k requires 0 <= k < 16 => Reg(LittleEndian(block[4 * k..4 * k + 4]) as bv32))
  }

  function LittleEndian(b: seq<byte>): u32
    requires |b| == 4
  {
    var b0: int, b1: int, b2: int, b3: int := b[0], b[1], b[2], b[3];
    b0 + 256 * b1 + 65536 * b2 + 16777216 * b3
  }

  function Transform(q: Quad, block: seq<byte>): Quad
    requires |block| == 64
  {
    Add(q, Steps(q, Decode(block), 64))
  }

  // ----- transform in md5.c -----

  function FF(b: Reg, c: Reg, d: Reg): Reg { Reg(FF32(b.v, c.v, d.v)) }
  function FF32(b: bv32, c: bv32, d: bv32): bv32 { d ^ (b & (c ^ d)) }
  function FG(b: Reg, c: Reg, d: Reg): Reg { FF(d, b, c) }
  function FH(b: Reg, c: Reg, d: Reg): Reg { Reg(b.v ^ c.v ^ d.v) }
  function FI(b: Reg, c: Reg, d: Reg): Reg { Reg(c.v ^ (b.v | !d.v)) }

  /** a += f + x + t */
  function Increase(a: Reg, f: Reg, x: Reg, t: Reg): Reg { Reg(Increase32(a.v, f.v, x.v, t.v)) }
  function Increase32(a: bv32, f: bv32, x: bv32, t: bv32): bv32 { a + (f + x + t) }

  /** One macro line: a sum, a rotation, and another sum, all into the first register */
  function Op(f: Reg, a: Reg, b: Reg, x: Reg, s: bv32, t: Reg): Reg
    requires 0 < s < 32
  {
    Plus(Rol(Increase(a, f, x, t), s), b)
  }

  lemma Distribute(b: bv32, c: bv32, d: bv32)
    ensures b & (c ^ d) == (b & c) ^ (b & d)
  {
  }

  lemma Complement(b: bv32, d: bv32)
    ensures d ^ (b & d) == !b & d
  {
  }

  lemma Disjoint(b: bv32, x: bv32, y: bv32)
    ensures (b & x) ^ (!b & y) == (b & x) | (!b & y)
  {
  }

  lemma Select(b: bv32, c: bv32, d: bv32)
    ensures FF32(b, c, d) == F32(b, c, d)
  {
    calc {
      d ^ (b & (c ^ d));
      { Distribute(b, c, d); }
      d ^ ((b & c) ^ (b & d));
      (b & c) ^ (d ^ (b & d));
      { Complement(b, d); }
      (b & c) ^ (!b & d);
      { Disjoint(b, c, d); }
      (b & c) | (!b & d);
    }
  }

  /** The optimised selection function selects. */
  lemma FFIsF(b: Reg, c: Reg, d: Reg)
    ensures FF(b, c, d) == F(b, c, d)
  {
    hide FF32, F32;
    Select(b.v, c.v, d.v);
  }

  lemma FGIsG(b: Reg, c: Reg, d: Reg)
    ensures FG(b, c, d) == G(b, c, d)
  {
    hide FF, F, G;
    FFIsF(d, b, c);
    FIsG(b, c, d);
  }

  lemma Turn(b: bv32, c: bv32, d: bv32)
    ensures F32(d, b, c) == G32(b, c, d)
  {
  }

  lemma FIsG(b: Reg, c: Reg, d: Reg)
    ensures F(d, b, c) == G(b, c, d)
  {
    hide F32, G32;
    Turn(b.v, c.v, d.v);
  }

  lemma FHAndFI(b: Reg, c: Reg, d: Reg)
    ensures FH(b, c, d) == H(b, c, d) && FI(b, c, d) == I(b, c, d)
  {
  }

  /** The function that the code uses in step i. */
  function CodeAux(i: nat, b: Reg, c: Reg, d: Reg): Reg {
    if i < 16 then FF(b, c, d) else if i < 32 then FG(b, c, d) else if i < 48 then FH(b, c, d) else FI(b, c, d)
  }

  lemma CodeAuxIsAux(i: nat, b: Reg, c: Reg, d: Reg)
    ensures CodeAux(i, b, c, d) == Aux(i, b, c, d)
  {
    hide FF, FG, FH, FI, F, G, H, I;
    FFIsF(b, c, d);
    FGIsG(b, c, d);
    FHAndFI(b, c, d);
  }

  lemma IncreaseIsSum(a: Reg, f: Reg, x: Reg, t: Reg)
    ensures Increase(a, f, x, t) == Sum(a, f, x, t)
  {
    hide Increase32, Sum32;
    SumInAnyOrder(a.v, f.v, x.v, t.v);
  }

  lemma SumInAnyOrder(a: bv32, f: bv32, x: bv32, t: bv32)
    ensures Increase32(a, f, x, t) == Sum32(a, f, x, t)
  {
  }

  lemma PlusCommutes(x: Reg, y: Reg)
    ensures Plus(x, y) == Plus(y, x)
  {
  }

  /** One line of the code is one step of the definition. */
  lemma OneStep(q: Quad, x: seq<Reg>, i: nat)
    requires |x| == 16 && i < 64
    ensures var p := Steps(q, x, i);
            Steps(q, x, i + 1) == Quad(p.d, Op(CodeAux(i, p.b, p.c, p.d), p.a, p.b, x[K(i)], S(i), T(i)), p.b, p.c)
  {
    hide Rol, CodeAux, Aux, T, Plus, Sum, Increase, K, S;
    var p := Steps(q, x, i);
    CodeAuxIsAux(i, p.b, p.c, p.d);
    var f := CodeAux(i, p.b, p.c, p.d);
    IncreaseIsSum(p.a, f, x[K(i)], T(i));
    PlusCommutes(p.b, Rol(Increase(p.a, f, x[K(i)], T(i)), S(i)));
  }

  lemma Schedule1()
    ensures K(0) == 0 && S(0) == 7 && T(0) == Reg(0xd76aa478)
    ensures K(1) == 1 && S(1) == 12 && T(1) == Reg(0xe8c7b756)
    ensures K(2) == 2 && S(2) == 17 && T(2) == Reg(0x242070db)
    ensures K(3) == 3 && S(3) == 22 && T(3) == Reg(0xc1bdceee)
    ensures K(4) == 4 && S(4) == 7 && T(4) == Reg(0xf57c0faf)
    ensures K(5) == 5 && S(5) == 12 && T(5) == Reg(0x4787c62a)
    ensures K(6) == 6 && S(6) == 17 && T(6) == Reg(0xa8304613)
    ensures K(7) == 7 && S(7) == 22 && T(7) == Reg(0xfd469501)
    ensures K(8) == 8 && S(8) == 7 && T(8) == Reg(0x698098d8)
    ensures K(9) == 9 && S(9) == 12 && T(9) == Reg(0x8b44f7af)
    ensures K(10) == 10 && S(10) == 17 && T(10) == Reg(0xffff5bb1)
    ensures K(11) == 11 && S(11) == 22 && T(11) == Reg(0x895cd7be)
    ensures K(12) == 12 && S(12) == 7 && T(12) == Reg(0x6b901122)
    ensures K(13) == 13 && S(13) == 12 && T(13) == Reg(0xfd987193)
    ensures K(14) == 14 && S(14) == 17 && T(14) == Reg(0xa679438e)
    ensures K(15) == 15 && S(15) == 22 && T(15) == Reg(0x49b40821)
  {
  }

  method Round1(x: seq<Reg>, ghost q: Quad, p: Quad) returns (r: Quad)
    requires |x| == 16 && p == Steps(q, x, 0)
    ensures r == Steps(q, x, 16)
  {
    hide Rol, Op, FF, FG, FH, FI, Step, Steps, K, S, T;
    Schedule1();
    var A, B, C, D := p.a, p.b, p.c, p.d;
    A := Op(FF(B, C, D), A, B, x[0], 7, Reg(0xd76aa478));
    OneStep(q, x, 0);
    D := Op(FF(A, B, C), D, A, x[1], 12, Reg(0xe8c7b756));
    OneStep(q, x, 1);
    C := Op(FF(D, A, B), C, D, x[2], 17, Reg(0x242070db));
    OneStep(q, x, 2);
    B := Op(FF(C, D, A), B, C, x[3], 22, Reg(0xc1bdceee));
    OneStep(q, x, 3);
    A := Op(FF(B, C, D), A, B, x[4], 7, Reg(0xf57c0faf));
    OneStep(q, x, 4);
    D := Op(FF(A, B, C), D, A, x[5], 12, Reg(0x4787c62a));
    OneStep(q, x, 5);
    C := Op(FF(D, A, B), C, D, x[6], 17, Reg(0xa8304613));
    OneStep(q, x, 6);
    B := Op(FF(C, D, A), B, C, x[7], 22, Reg(0xfd469501));
    OneStep(q, x, 7);
    A := Op(FF(B, C, D), A, B, x[8], 7, Reg(0x698098d8));
    OneStep(q, x, 8);
    D := Op(FF(A, B, C), D, A, x[9], 12, Reg(0x8b44f7af));
    OneStep(q, x, 9);
    C := Op(FF(D, A, B), C, D, x[10], 17, Reg(0xffff5bb1));
    OneStep(q, x, 10);
    B := Op(FF(C, D, A), B, C, x[11], 22, Reg(0x895cd7be));
    OneStep(q, x, 11);
    A := Op(FF(B, C, D), A, B, x[12], 7, Reg(0x6b901122));
    OneStep(q, x, 12);
    D := Op(FF(A, B, C), D, A, x[13], 12, Reg(0xfd987193));
    OneStep(q, x, 13);
    C := Op(FF(D, A, B), C, D, x[14], 17, Reg(0xa679438e));
    OneStep(q, x, 14);
    B := Op(FF(C, D, A), B, C, x[15], 22, Reg(0x49b40821));
    OneStep(q, x, 15);
    r := Quad(A, B, C, D);
  }

  lemma Schedule2()
    ensures K(16) == 1 && S(16) == 5 && T(16) == Reg(0xf61e2562)
    ensures K(17) == 6 && S(17) == 9 && T(17) == Reg(0xc040b340)
    ensures K(18) == 11 && S(18) == 14 && T(18) == Reg(0x265e5a51)
    ensures K(19) == 0 && S(19) == 20 && T(19) == Reg(0xe9b6c7aa)
    ensures K(20) == 5 && S(20) == 5 && T(20) == Reg(0xd62f105d)
    ensures K(21) == 10 && S(21) == 9 && T(21) == Reg(0x02441453)
    ensures K(22) == 15 && S(22) == 14 && T(22) == Reg(0xd8a1e681)
    ensures K(23) == 4 && S(23) == 20 && T(23) == Reg(0xe7d3fbc8)
    ensures K(24) == 9 && S(24) == 5 && T(24) == Reg(0x21e1cde6)
    ensures K(25) == 14 && S(25) == 9 && T(25) == Reg(0xc33707d6)
    ensures K(26) == 3 && S(26) == 14 && T(26) == Reg(0xf4d50d87)
    ensures K(27) == 8 && S(27) == 20 && T(27) == Reg(0x455a14ed)
    ensures K(28) == 13 && S(28) == 5 && T(28) == Reg(0xa9e3e905)
    ensures K(29) == 2 && S(29) == 9 && T(29) == Reg(0xfcefa3f8)
    ensures K(30) == 7 && S(30) == 14 && T(30) == Reg(0x676f02d9)
    ensures K(31) == 12 && S(31) == 20 && T(31) == Reg(0x8d2a4c8a)
  {
  }

  method Round2(x: seq<Reg>, ghost q: Quad, p: Quad) returns (r: Quad)
    requires |x| == 16 && p == Steps(q, x, 16)
    ensures r == Steps(q, x, 32)
  {
    hide Rol, Op, FF, FG, FH, FI, Step, Steps, K, S, T;
    Schedule2();
    var A, B, C, D := p.a, p.b, p.c, p.d;
    A := Op(FG(B, C, D), A, B, x[1], 5, Reg(0xf61e2562));
    OneStep(q, x, 16);
    D := Op(FG(A, B, C), D, A, x[6], 9, Reg(0xc040b340));
    OneStep(q, x, 17);
    C := Op(FG(D, A, B), C, D, x[11], 14, Reg(0x265e5a51));
    OneStep(q, x, 18);
    B := Op(FG(C, D, A), B, C, x[0], 20, Reg(0xe9b6c7aa));
    OneStep(q, x, 19);
    A := Op(FG(B, C, D), A, B, x[5], 5, Reg(0xd62f105d));
    OneStep(q, x, 20);
    D := Op(FG(A, B, C), D, A, x[10], 9, Reg(0x02441453));
    OneStep(q, x, 21);
    C := Op(FG(D, A, B), C, D, x[15], 14, Reg(0xd8a1e681));
    OneStep(q, x, 22);
    B := Op(FG(C, D, A), B, C, x[4], 20, Reg(0xe7d3fbc8));
    OneStep(q, x, 23);
    A := Op(FG(B, C, D), A, B, x[9], 5, Reg(0x21e1cde6));
    OneStep(q, x, 24);
    D := Op(FG(A, B, C), D, A, x[14], 9, Reg(0xc33707d6));
    OneStep(q, x, 25);
    C := Op(FG(D, A, B), C, D, x[3], 14, Reg(0xf4d50d87));
    OneStep(q, x, 26);
    B := Op(FG(C, D, A), B, C, x[8], 20, Reg(0x455a14ed));
    OneStep(q, x, 27);
    A := Op(FG(B, C, D), A, B, x[13], 5, Reg(0xa9e3e905));
    OneStep(q, x, 28);
    D := Op(FG(A, B, C), D, A, x[2], 9, Reg(0xfcefa3f8));
    OneStep(q, x, 29);
    C := Op(FG(D, A, B), C, D, x[7], 14, Reg(0x676f02d9));
    OneStep(q, x, 30);
    B := Op(FG(C, D, A), B, C, x[12], 20, Reg(0x8d2a4c8a));
    OneStep(q, x, 31);
    r := Quad(A, B, C, D);
  }

  lemma Schedule3()
    ensures K(32) == 5 && S(32) == 4 && T(32) == Reg(0xfffa3942)
    ensures K(33) == 8 && S(33) == 11 && T(33) == Reg(0x8771f681)
    ensures K(34) == 11 && S(34) == 16 && T(34) == Reg(0x6d9d6122)
    ensures K(35) == 14 && S(35) == 23 && T(35) == Reg(0xfde5380c)
    ensures K(36) == 1 && S(36) == 4 && T(36) == Reg(0xa4beea44)
    ensures K(37) == 4 && S(37) == 11 && T(37) == Reg(0x4bdecfa9)
    ensures K(38) == 7 && S(38) == 16 && T(38) == Reg(0xf6bb4b60)
    ensures K(39) == 10 && S(39) == 23 && T(39) == Reg(0xbebfbc70)
    ensures K(40) == 13 && S(40) == 4 && T(40) == Reg(0x289b7ec6)
    ensures K(41) == 0 && S(41) == 11 && T(41) == Reg(0xeaa127fa)
    ensures K(42) == 3 && S(42) == 16 && T(42) == Reg(0xd4ef3085)
    ensures K(43) == 6 && S(43) == 23 && T(43) == Reg(0x04881d05)
    ensures K(44) == 9 && S(44) == 4 && T(44) == Reg(0xd9d4d039)
    ensures K(45) == 12 && S(45) == 11 && T(45) == Reg(0xe6db99e5)
    ensures K(46) == 15 && S(46) == 16 && T(46) == Reg(0x1fa27cf8)
    ensures K(47) == 2 && S(47) == 23 && T(47) == Reg(0xc4ac5665)
  {
  }

  method Round3(x: seq<Reg>, ghost q: Quad, p: Quad) returns (r: Quad)
    requires |x| == 16 && p == Steps(q, x, 32)
    ensures r == Steps(q, x, 48)
  {
    hide Rol, Op, FF, FG, FH, FI, Step, Steps, K, S, T;
    Schedule3();
    var A, B, C, D := p.a, p.b, p.c, p.d;
    A := Op(FH(B, C, D), A, B, x[5], 4, Reg(0xfffa3942));
    OneStep(q, x, 32);
    D := Op(FH(A, B, C), D, A, x[8], 11, Reg(0x8771f681));
    OneStep(q, x, 33);
    C := Op(FH(D, A, B), C, D, x[11], 16, Reg(0x6d9d6122));
    OneStep(q, x, 34);
    B := Op(FH(C, D, A), B, C, x[14], 23, Reg(0xfde5380c));
    OneStep(q, x, 35);
    A := Op(FH(B, C, D), A, B, x[1], 4, Reg(0xa4beea44));
    OneStep(q, x, 36);
    D := Op(FH(A, B, C), D, A, x[4], 11, Reg(0x4bdecfa9));
    OneStep(q, x, 37);
    C := Op(FH(D, A, B), C, D, x[7], 16, Reg(0xf6bb4b60));
    OneStep(q, x, 38);
    B := Op(FH(C, D, A), B, C, x[10], 23, Reg(0xbebfbc70));
    OneStep(q, x, 39);
    A := Op(FH(B, C, D), A, B, x[13], 4, Reg(0x289b7ec6));
    OneStep(q, x, 40);
    D := Op(FH(A, B, C), D, A, x[0], 11, Reg(0xeaa127fa));
    OneStep(q, x, 41);
    C := Op(FH(D, A, B), C, D, x[3], 16, Reg(0xd4ef3085));
    OneStep(q, x, 42);
    B := Op(FH(C, D, A), B, C, x[6], 23, Reg(0x04881d05));
    OneStep(q, x, 43);
    A := Op(FH(B, C, D), A, B, x[9], 4, Reg(0xd9d4d039));
    OneStep(q, x, 44);
    D := Op(FH(A, B, C), D, A, x[12], 11, Reg(0xe6db99e5));
    OneStep(q, x, 45);
    C := Op(FH(D, A, B), C, D, x[15], 16, Reg(0x1fa27cf8));
    OneStep(q, x, 46);
    B := Op(FH(C, D, A), B, C, x[2], 23, Reg(0xc4ac5665));
    OneStep(q, x, 47);
    r := Quad(A, B, C, D);
  }

  lemma Schedule4()
    ensures K(48) == 0 && S(48) == 6 && T(48) == Reg(0xf4292244)
    ensures K(49) == 7 && S(49) == 10 && T(49) == Reg(0x432aff97)
    ensures K(50) == 14 && S(50) == 15 && T(50) == Reg(0xab9423a7)
    ensures K(51) == 5 && S(51) == 21 && T(51) == Reg(0xfc93a039)
    ensures K(52) == 12 && S(52) == 6 && T(52) == Reg(0x655b59c3)
    ensures K(53) == 3 && S(53) == 10 && T(53) == Reg(0x8f0ccc92)
    ensures K(54) == 10 && S(54) == 15 && T(54) == Reg(0xffeff47d)
    ensures K(55) == 1 && S(55) == 21 && T(55) == Reg(0x85845dd1)
    ensures K(56) == 8 && S(56) == 6 && T(56) == Reg(0x6fa87e4f)
    ensures K(57) == 15 && S(57) == 10 && T(57) == Reg(0xfe2ce6e0)
    ensures K(58) == 6 && S(58) == 15 && T(58) == Reg(0xa3014314)
    ensures K(59) == 13 && S(59) == 21 && T(59) == Reg(0x4e0811a1)
    ensures K(60) == 4 && S(60) == 6 && T(60) == Reg(0xf7537e82)
    ensures K(61) == 11 && S(61) == 10 && T(61) == Reg(0xbd3af235)
    ensures K(62) == 2 && S(62) == 15 && T(62) == Reg(0x2ad7d2bb)
    ensures K(63) == 9 && S(63) == 21 && T(63) == Reg(0xeb86d391)
  {
  }

  method Round4(x: seq<Reg>, ghost q: Quad, p: Quad) returns (r: Quad)
    requires |x| == 16 && p == Steps(q, x, 48)
    ensures r == Steps(q, x, 64)
  {
    hide Rol, Op, FF, FG, FH, FI, Step, Steps, K, S, T;
    Schedule4();
    var A, B, C, D := p.a, p.b, p.c, p.d;
    A := Op(FI(B, C, D), A, B, x[0], 6, Reg(0xf4292244));
    OneStep(q, x, 48);
    D := Op(FI(A, B, C), D, A, x[7], 10, Reg(0x432aff97));
    OneStep(q, x, 49);
    C := Op(FI(D, A, B), C, D, x[14], 15, Reg(0xab9423a7));
    OneStep(q, x, 50);
    B := Op(FI(C, D, A), B, C, x[5], 21, Reg(0xfc93a039));
    OneStep(q, x, 51);
    A := Op(FI(B, C, D), A, B, x[12], 6, Reg(0x655b59c3));
    OneStep(q, x, 52);
    D := Op(FI(A, B, C), D, A, x[3], 10, Reg(0x8f0ccc92));
    OneStep(q, x, 53);
    C := Op(FI(D, A, B), C, D, x[10], 15, Reg(0xffeff47d));
    OneStep(q, x, 54);
    B := Op(FI(C, D, A), B, C, x[1], 21, Reg(0x85845dd1));
    OneStep(q, x, 55);
    A := Op(FI(B, C, D), A, B, x[8], 6, Reg(0x6fa87e4f));
    OneStep(q, x, 56);
    D := Op(FI(A, B, C), D, A, x[15], 10, Reg(0xfe2ce6e0));
    OneStep(q, x, 57);
    C := Op(FI(D, A, B), C, D, x[6], 15, Reg(0xa3014314));
    OneStep(q, x, 58);
    B := Op(FI(C, D, A), B, C, x[13], 21, Reg(0x4e0811a1));
    OneStep(q, x, 59);
    A := Op(FI(B, C, D), A, B, x[4], 6, Reg(0xf7537e82));
    OneStep(q, x, 60);
    D := Op(FI(A, B, C), D, A, x[11], 10, Reg(0xbd3af235));
    OneStep(q, x, 61);
    C := Op(FI(D, A, B), C, D, x[2], 15, Reg(0x2ad7d2bb));
    OneStep(q, x, 62);
    B := Op(FI(C, D, A), B, C, x[9], 21, Reg(0xeb86d391));
    OneStep(q, x, 63);
    r := Quad(A, B, C, D);
  }

  // ----- messages -----

  const INIT: Quad := Quad(Reg(0x67452301), Reg(0xefcdab89), Reg(0x98badcfe), Reg(0x10325476))

  /** The registers after all whole 64-byte blocks of 'data'. */
  function Fold(q: Quad, data: seq<byte>): Quad
    decreases |data|
  {
    if |data| < 64 then q else Fold(Transform(q, data[..64]), data[64..])
  }

  lemma {:induction false} FoldAppend(q: Quad, x: seq<byte>, y: seq<byte>)
    requires |x| % 64 == 0
    ensures Fold(q, x + y) == Fold(Fold(q, x), y)
    decreases |x|
  {
    if x == [] {
      assert x + y == y;
    } else {
      assert (x + y)[..64] == x[..64] && (x + y)[64..] == x[64..] + y;
      FoldAppend(Transform(q, x[..64]), x[64..], y);
    }
  }

  lemma FoldOne(q: Quad, x: seq<byte>, block: seq<byte>)
    requires |x| % 64 == 0 && |block| == 64
    ensures Fold(q, x + block) == Transform(Fold(q, x), block)
  {
    FoldAppend(q, x, block);
    assert block[..64] == block && block[64..] == [];
  }

  function Zeros(n: nat): seq<byte> { seq(n, _ => 0) }

  function Bytes4(w: u32): (b: seq<byte>)
    ensures |b| == 4
  {
    [ByteOf(w, 0), ByteOf(w, 1), ByteOf(w, 2), ByteOf(w, 3)]
  }

  /** Reading a word gives the word that was stored, and storing it the bytes that were read: low-order byte first. */
  lemma LittleEndianBytes(w: u32, b: seq<byte>)
    requires |b| == 4
    ensures LittleEndian(Bytes4(w)) == w && Bytes4(LittleEndian(b)) == b
    ensures LittleEndian(b) % 256 == b[0] && LittleEndian(b) / 16777216 == b[3]
  {
    BytesPutTogether(w);
    BytesTakenApart(b[0], b[1], b[2], b[3]);
  }

  /** Sections 3.1 and 3.2 of RFC 1321: a one bit, zeros up to 448 modulo 512 bits, and a 64-bit count. */
  function PaddedWith(msg: seq<byte>, lo: u32, hi: u32): (p: seq<byte>)
    ensures |p| % 64 == 0
  {
    PadLengthIs(|msg|);
    msg + [0x80] + Zeros(PadLength(|msg|)) + Bytes4(lo) + Bytes4(hi)
  }

  /** The zero bytes behind the one bit. */
  function PadLength(len: nat): nat { (119 - len % 64) % 64 }

  lemma PadLengthIs(len: nat)
    ensures PadLength(len) == if len % 64 < 56 then 55 - len % 64 else 119 - len % 64
    ensures (len + 1 + PadLength(len) + 8) % 64 == 0
  {
    var q, r := len / 64, len % 64;
    assert len + 1 + PadLength(len) + 8 == 64 * (q + if r < 56 then 1 else 2);
  }

  /** The 64-bit number of bits, as two words. */
  function BitsLow(len: nat): u32 { 8 * len % TWO32 }
  function BitsHigh(len: nat): u32 { 8 * len / TWO32 % TWO32 }

  function Padded(msg: seq<byte>): seq<byte> { PaddedWith(msg, BitsLow(|msg|), BitsHigh(|msg|)) }

  /** The word that the carry chain of do_final stores as the high half of the count. */
  function CodeHigh(len: nat): u32 {
    var t := len / 64 % TWO32;
    var bytes := len % TWO32;
    (t / 0x400_0000 + (if 64 * t % TWO32 < t then 1 else 0) + (if 8 * bytes % TWO32 < bytes then 1 else 0) + bytes / 0x2000_0000) % TWO32
  }

  /** For these lengths the count that do_final appends is the number of bits. */
  predicate CountIsRight(len: nat) {
    len % 0x2000_0000_0000_0000 < TWO32 && 8 * (len % TWO32) % TWO32 >= len % TWO32
  }

  /** A length as multiples of 2^61 and of 2^32, and a rest. */
  lemma SplitLength(len: nat) returns (q: nat, h: nat, x: nat)
    ensures len == q * 0x2000_0000_0000_0000 + h * TWO32 + x && h < 0x2000_0000 && x < TWO32
    ensures len % 0x2000_0000_0000_0000 == h * TWO32 + x && len % TWO32 == x
  {
    q, h, x := len / 0x2000_0000_0000_0000, len % 0x2000_0000_0000_0000 / TWO32, len % TWO32;
    assert len % 0x2000_0000_0000_0000 % TWO32 == x;
  }

  lemma BitsOfSplit(len: nat, q: nat, h: nat, x: nat)
    requires len == q * 0x2000_0000_0000_0000 + h * TWO32 + x && h < 0x2000_0000 && x < TWO32
    ensures BitsHigh(len) == 8 * h + x / 0x2000_0000
  {
    assert 8 * len == (q * TWO32 + 8 * h) * TWO32 + 8 * x;
    assert 8 * len / TWO32 == q * TWO32 + 8 * h + 8 * x / TWO32;
    assert 8 * x / TWO32 == x / 0x2000_0000;
  }

  lemma BlocksOfSplit(len: nat, q: nat, h: nat, x: nat)
    requires len == q * 0x2000_0000_0000_0000 + h * TWO32 + x && h < 0x2000_0000 && x < TWO32
    ensures len / 64 % TWO32 == h % 64 * 0x400_0000 + x / 64
  {
    var g, r := h / 64, h % 64;
    var a, w := q * 0x80_0000 + g, r * 0x400_0000 + x / 64;
    assert len == 64 * (a * TWO32 + w) + x % 64;
    LowPart(a, w);
  }

  lemma LowPart(a: nat, w: nat)
    requires w < TWO32
    ensures (a * TWO32 + w) % TWO32 == w
  {
  }

  /** One number of multiples of 2^32 is right only when it is zero, and no carry is added. */
  lemma NoCarryIff(h: nat, c: nat, y: nat)
    requires h < 0x2000_0000 && c <= 2 && y < 8
    ensures (h % 64 + c + y) % TWO32 == 8 * h + y <==> h == 0 && c == 0
  {
    if h >= 64 {
      assert h % 64 + c + y < 8 * h + y;
    }
  }

  lemma TopOfBlocks(h: nat, x: nat)
    requires x < TWO32
    ensures (h % 64 * 0x400_0000 + x / 64) / 0x400_0000 == h % 64
  {
  }

  /** The first carry, out of the number of blocks, needs a number of blocks of 2^26 or more. */
  lemma FirstCarry(x: nat)
    requires x < TWO32
    ensures 64 * (x / 64) % TWO32 >= x / 64
  {
    assert 64 * (x / 64) <= x;
  }

  /** The word that the code computes, over the parts of the length. */
  lemma CodeHighOfSplit(len: nat, q: nat, h: nat, x: nat)
    requires len == q * 0x2000_0000_0000_0000 + h * TWO32 + x && h < 0x2000_0000 && x < TWO32 && len % TWO32 == x
    ensures var t := h % 64 * 0x400_0000 + x / 64;
            t < TWO32 && CodeHigh(len) == (h % 64 + FirstCarryOf(t) + LastCarryOf(x) + x / 0x2000_0000) % TWO32
  {
    BlocksOfSplit(len, q, h, x);
    TopOfBlocks(h, x);
  }

  /** The carries out of the multiplication by 64, and out of the one by 8. */
  function FirstCarryOf(t: nat): nat { if 64 * t % TWO32 < t then 1 else 0 }
  function LastCarryOf(x: nat): nat { if 8 * x % TWO32 < x then 1 else 0 }

  lemma CodeHighIsRightIff(len: nat)
    ensures CodeHigh(len) == BitsHigh(len) <==> CountIsRight(len)
  {
    hide BitsHigh, CodeHigh, FirstCarryOf, LastCarryOf, CountIsRight;
    var q, h, x := SplitLength(len);
    BitsOfSplit(len, q, h, x);
    CodeHighOfSplit(len, q, h, x);
    CarriesAre(len, h, x);
    NoCarryIff(h, FirstCarryOf(h % 64 * 0x400_0000 + x / 64) + LastCarryOf(x), x / 0x2000_0000);
  }

  lemma CarriesAre(len: nat, h: nat, x: nat)
    requires h < 0x2000_0000 && x < TWO32 && len % 0x2000_0000_0000_0000 == h * TWO32 + x && len % TWO32 == x
    ensures FirstCarryOf(h % 64 * 0x400_0000 + x / 64) <= 1 && LastCarryOf(x) <= 1
    ensures CountIsRight(len) <==> h == 0 && LastCarryOf(x) == 0
    ensures h == 0 ==> FirstCarryOf(x / 64) == 0
  {
    FirstCarry(x);
  }

  /** Below 2^29 bytes the count is always right, and 2^29 is the first length for which it is wrong. */
  lemma CountBound(len: nat)
    ensures len < 0x2000_0000 ==> CountIsRight(len)
    ensures !CountIsRight(0x2000_0000)
  {
  }

  /** The digest that belongs to register contents: sixteen bytes, low-order byte of A first. */
  function Out(q: Quad): (b: seq<byte>)
    ensures |b| == 16
  {
    Bytes4(q.a.v as u32) + Bytes4(q.b.v as u32) + Bytes4(q.c.v as u32) + Bytes4(q.d.v as u32)
  }

  /** The message digest of RFC 1321. */
  function Digest(msg: seq<byte>): seq<byte> { Out(Fold(INIT, Padded(msg))) }

  /** What md5_final returns: the count may be wrong. */
  function CodeDigest(msg: seq<byte>): seq<byte> {
    Out(Fold(INIT, PaddedWith(msg, BitsLow(|msg|), CodeHigh(|msg|))))
  }

  lemma CodeDigestIsDigest(msg: seq<byte>)
    ensures CountIsRight(|msg|) ==> CodeDigest(msg) == Digest(msg)
    ensures PaddedWith(msg, BitsLow(|msg|), CodeHigh(|msg|)) == Padded(msg) <==> CountIsRight(|msg|)
  {
    CodeHighIsRightIff(|msg|);
    var n := |PaddedWith(msg, BitsLow(|msg|), CodeHigh(|msg|))|;
    assert PaddedWith(msg, BitsLow(|msg|), CodeHigh(|msg|))[n - 4..] == Bytes4(CodeHigh(|msg|));
    assert Padded(msg)[n - 4..] == Bytes4(BitsHigh(|msg|));
    if Bytes4(CodeHigh(|msg|)) == Bytes4(BitsHigh(|msg|)) {
      BytesDetermine(CodeHigh(|msg|), BitsHigh(|msg|));
    }
  }

  lemma BytesDetermine(v: u32, w: u32)
    requires Bytes4(v) == Bytes4(w)
    ensures v == w
  {
    assert Bytes4(v)[0] == Bytes4(w)[0] && Bytes4(v)[1] == Bytes4(w)[1] && Bytes4(v)[2] == Bytes4(w)[2] && Bytes4(v)[3] == Bytes4(w)[3];
    BytesRebuild(v);
    BytesRebuild(w);
  }

  lemma BytesRebuild(w: u32)
    ensures w == Bytes4(w)[0] as int + 256 * Bytes4(w)[1] as int + 65536 * Bytes4(w)[2] as int + 16777216 * Bytes4(w)[3] as int
  {
    var h: int, g: int := w / 256, w / 65536;
    assert w == 256 * h + w % 256 && h == 256 * g + h % 256 && g == 256 * (w / 16777216) + g % 256;
  }

  lemma InParts(msg: seq<byte>, inbuf: seq<byte>, i: nat, j: nat)
    requires i <= j <= |inbuf|
    ensures msg + inbuf[..i] + inbuf[i..j] + inbuf[j..][..|inbuf| - j] == msg + inbuf
  {
  }

  // ----- the context -----

  /** The state of a context after 'msg', of which the last 'count' bytes wait in the buffer. */
  ghost predicate Holds(msg: seq<byte>, q: Quad, nblocks: nat, waiting: seq<byte>) {
    && |waiting| <= |msg| && (|msg| - |waiting|) % 64 == 0
    && q == Fold(INIT, msg[..|msg| - |waiting|]) && waiting == msg[|msg| - |waiting|..]
    && nblocks == (|msg| - |waiting|) / 64 % TWO32
  }

  lemma Buffered(msg: seq<byte>, q: Quad, nblocks: nat, waiting: seq<byte>, more: seq<byte>)
    requires Holds(msg, q, nblocks, waiting)
    ensures Holds(msg + more, q, nblocks, waiting + more)
  {
    var n := |msg| - |waiting|;
    assert (msg + more)[..n] == msg[..n] && (msg + more)[n..] == msg[n..] + more;
  }

  lemma Digested(msg: seq<byte>, q: Quad, nblocks: nat, block: seq<byte>)
    requires Holds(msg, q, nblocks, block) && |block| == 64
    ensures Holds(msg, Transform(q, block), (nblocks + 1) % TWO32, [])
  {
    hide Transform, Fold;
    var n := |msg| - 64;
    FoldOne(INIT, msg[..n], block);
    assert msg[..n] + block == msg && msg[..|msg|] == msg && msg[|msg|..] == [];
    OneBlockMore(n, nblocks);
  }

  lemma OneBlockMore(n: nat, nblocks: nat)
    requires n % 64 == 0 && nblocks == n / 64 % TWO32
    ensures (n + 64) % 64 == 0 && (nblocks + 1) % TWO32 == (n + 64) / 64 % TWO32
  {
    assert (n + 64) / 64 == n / 64 + 1;
  }

  class Context {
    var a: Reg
    var b: Reg
    var c: Reg
    var d: Reg
    var nblocks: u32
    const buf: array<byte>
    var count: nat
    var finalized: bool

    /** All bytes given to Update so far. */
    ghost var msg: seq<byte>

    ghost function Regs(): Quad
      reads this
    {
      Quad(a, b, c, d)
    }

    ghost predicate Valid()
      reads this, buf
    {
      buf.Length == 64 && count <= 64 && Holds(msg, Regs(), nblocks, buf[..count])
    }

    /** md5_init */
    constructor ()
      ensures Valid() && msg == [] && count == 0 && !finalized && fresh(buf)
    {
      a, b, c, d := Reg(0x67452301), Reg(0xefcdab89), Reg(0x98badcfe), Reg(0x10325476);
      nblocks, count, finalized, msg := 0, 0, false, [];
      buf := new byte[64](_ => 0);
    }

    method TransformBlock(data: seq<byte>)
      requires |data| == 64
      modifies `a, `b, `c, `d
      ensures Regs() == Transform(old(Regs()), data)
    {
      hide Rol, Step, Plus;
      var x := Decode(data);
      var p := Quad(a, b, c, d);
      var r := Round1(x, p, p);
      r := Round2(x, p, r);
      r := Round3(x, p, r);
      r := Round4(x, p, r);
      a, b, c, d := Plus(a, r.a), Plus(b, r.b), Plus(c, r.c), Plus(d, r.d);
    }

    /** What md5_update does first, and all it does without input */
    method Flush()
      requires Valid()
      modifies this
      ensures Valid() && count == old(count) % 64 && msg == old(msg) && finalized == old(finalized)
    {
      hide Transform;
      if count == 64 {
        assert buf[..] == buf[..64];
        Digested(msg, Regs(), nblocks, buf[..]);
        TransformBlock(buf[..]);
        count := 0;
        nblocks := (nblocks + 1) % TWO32;
        assert buf[..0] == [];
      }
    }

    /** The input goes into the buffer byte by byte, for as long as there is input and room. */
    method Fill(inbuf: seq<byte>) returns (n: nat)
      requires Valid()
      modifies this, buf
      ensures Valid() && n <= |inbuf| && msg == old(msg) + inbuf[..n] && finalized == old(finalized)
      ensures count == old(count) + n && (n == |inbuf| || count == 64)
    {
      hide Holds;
      n := 0;
      while n < |inbuf| && count < 64
        invariant n <= |inbuf| && count == old(count) + n && Valid() && msg == old(msg) + inbuf[..n] && finalized == old(finalized)
      {
        Buffered(msg, Regs(), nblocks, buf[..count], [inbuf[n]]);
        assert inbuf[..n] + [inbuf[n]] == inbuf[..n + 1];
        buf[count] := inbuf[n];
        msg := msg + [inbuf[n]];
        count := count + 1;
        n := n + 1;
        assert buf[..count] == buf[..count - 1] + [inbuf[n - 1]];
      }
    }

    /** One whole block, digested where it is */
    method WholeBlock(block: seq<byte>)
      requires Valid() && count == 0 && |block| == 64
      modifies this
      ensures Valid() && count == 0 && msg == old(msg) + block && finalized == old(finalized)
    {
      hide Holds, Transform;
      assert buf[..0] == [] && [] + block == block;
      Buffered(msg, Regs(), nblocks, [], block);
      Digested(msg + block, Regs(), nblocks, block);
      TransformBlock(block);
      msg := msg + block;
      nblocks := (nblocks + 1) % TWO32;
    }

    /** As long as there is a whole block of input, it is digested. */
    method WholeBlocks(inbuf: seq<byte>, i0: nat) returns (i: nat)
      requires Valid() && count == 0 && i0 <= |inbuf|
      modifies this
      ensures Valid() && i0 <= i <= |inbuf| < i + 64 && count == 0 && msg == old(msg) + inbuf[i0..i] && finalized == old(finalized)
    {
      hide Holds;
      i := i0;
      while |inbuf| - i >= 64
        invariant i0 <= i <= |inbuf| && Valid() && count == 0 && msg == old(msg) + inbuf[i0..i] && finalized == old(finalized)
      {
        assert inbuf[i0..i] + inbuf[i..i + 64] == inbuf[i0..i + 64];
        WholeBlock(inbuf[i..i + 64]);
        i := i + 64;
      }
    }

    /** The first part of md5_update: an unfinished block is completed, and digested if there is enough for that. */
    method FillUp(inbuf: seq<byte>) returns (i: nat)
      requires Valid()
      modifies this, buf
      ensures Valid() && i <= |inbuf| && msg == old(msg) + inbuf[..i] && finalized == old(finalized)
      ensures count < 64 && (i == |inbuf| || count == 0)
    {
      hide Holds;
      Flush();
      i := 0;
      if count > 0 {
        i := Fill(inbuf);
        Flush();
      }
    }

    /** md5_update with input */
    method Update(inbuf: seq<byte>)
      requires Valid()
      modifies this, buf
      ensures Valid() && count < 64 && msg == old(msg) + inbuf && finalized == old(finalized)
    {
      hide Valid;
      var i := FillUp(inbuf);
      if i == |inbuf| {
        assert inbuf[..i] == inbuf;
        return;
      }
      var j := WholeBlocks(inbuf, i);
      var n := Fill(inbuf[j..]);
      assert n == |inbuf| - j;
      InParts(old(msg), inbuf, i, j);
    }

    /** The number of bits, as do_final computes it. */
    method BitCount() returns (lsb: u32, msb: u32)
      requires Valid() && count < 64
      ensures lsb == BitsLow(|msg|) && msb == CodeHigh(|msg|)
    {
      hide Fold, BitsLow, CodeHigh;
      WaitingIs(msg, Regs(), nblocks, buf[..count]);
      lsb, msb := CarryChain(nblocks, count, |msg|);
    }

    /** The byte 0x80, then zeros up to 'limit'. */
    method PadTo(limit: nat)
      requires Valid() && count < limit <= 64
      modifies this, buf
      ensures Valid() && count == limit && msg == old(msg) + [0x80] + Zeros(limit - 1 - old(count))
    {
      hide Holds;
      Buffered(msg, Regs(), nblocks, buf[..count], [0x80]);
      buf[count] := 0x80;
      msg := msg + [0x80];
      count := count + 1;
      assert buf[..count] == buf[..count - 1] + [0x80];
      ghost var c := count;
      while count < limit
        invariant c <= count <= limit && Valid() && msg == old(msg) + [0x80] + Zeros(count - c)
      {
        Buffered(msg, Regs(), nblocks, buf[..count], [0]);
        assert Zeros(count - c) + [0] == Zeros(count + 1 - c);
        buf[count] := 0;
        msg := msg + [0];
        count := count + 1;
        assert buf[..count] == buf[..count - 1] + [0];
      }
    }

    /** The block that has room for the count: the full one is digested, and zeros are put in front. */
    method ExtraBlock()
      requires Valid() && count == 64
      modifies this, buf
      ensures msg == old(msg) + Zeros(56) && Holds(msg, Regs(), nblocks, buf[..56]) && buf.Length == 64
    {
      hide Holds;
      Flush();
      assert buf[..0] == [];
      Buffered(msg, Regs(), nblocks, [], Zeros(56));
      forall i | 0 <= i < 56 {
        buf[i] := 0;
      }
      msg := msg + Zeros(56);
      assert [] + Zeros(56) == buf[..56];
    }

    /** Everything in front of the count */
    method PadMessage()
      requires Valid() && count < 64
      modifies this, buf
      ensures buf.Length == 64 && msg == old(msg) + [0x80] + Zeros(PadLength(|old(msg)|)) && Holds(msg, Regs(), nblocks, buf[..56])
    {
      hide Holds, PadLength;
      ghost var m, c := msg, count;
      WaitingIs(m, Regs(), nblocks, buf[..c]);
      PadLengthIs(|m|);
      if count < 56 {
        PadTo(56);
      } else {
        PadTo(64);
        ExtraBlock();
        assert Zeros(63 - c) + Zeros(56) == Zeros(PadLength(|m|));
        assert msg == m + [0x80] + (Zeros(63 - c) + Zeros(56));
      }
    }

    /** The padding and the count are digested; the digest ends up in the buffer. */
    method DoFinal()
      requires Valid() && !finalized
      modifies this, buf
      ensures finalized && buf[..16] == CodeDigest(old(msg))
    {
      hide Holds, Fold, Transform, Out, BitsLow, CodeHigh, Bytes4, PadLength;
      Flush();
      ghost var m := msg;
      var lsb, msb := BitCount();
      PadMessage();
      ghost var padded := msg;
      StoreCount(lsb, msb);
      ghost var whole := padded + (Bytes4(lsb) + Bytes4(msb));
      assert whole == PaddedWith(m, lsb, msb);
      Digested(whole, Regs(), nblocks, buf[..]);
      TransformBlock(buf[..]);
      WaitingIs(whole, Regs(), (nblocks + 1) % TWO32, []);
      StoreDigest();
      finalized := true;
    }

    /** The two count words end the block, low-order bytes first. */
    method StoreCount(lsb: u32, msb: u32)
      requires buf.Length == 64 && Holds(msg, Regs(), nblocks, buf[..56])
      modifies buf
      ensures Holds(msg + (Bytes4(lsb) + Bytes4(msb)), Regs(), nblocks, buf[..])
    {
      hide Holds;
      Buffered(msg, Regs(), nblocks, buf[..56], Bytes4(lsb) + Bytes4(msb));
      ghost var front := buf[..56];
      buf[56], buf[57], buf[58], buf[59] := ByteOf(lsb, 0), ByteOf(lsb, 1), ByteOf(lsb, 2), ByteOf(lsb, 3);
      buf[60], buf[61], buf[62], buf[63] := ByteOf(msb, 0), ByteOf(msb, 1), ByteOf(msb, 2), ByteOf(msb, 3);
      assert buf[..] == front + (Bytes4(lsb) + Bytes4(msb));
    }

    method StoreDigest()
      requires buf.Length == 64
      modifies buf
      ensures buf[..16] == Out(Regs())
    {
      hide Bytes4;
      StoreFour(a.v as u32, b.v as u32, c.v as u32, d.v as u32);
    }

    method StoreFour(wa: u32, wb: u32, wc: u32, wd: u32)
      requires buf.Length == 64
      modifies buf
      ensures buf[..16] == Bytes4(wa) + Bytes4(wb) + Bytes4(wc) + Bytes4(wd)
    {
      hide Bytes4;
      assert buf[..0] == [] && [] + Bytes4(wa) == Bytes4(wa);
      StoreWord(0, wa);
      StoreWord(4, wb);
      StoreWord(8, wc);
      StoreWord(12, wd);
    }

    /** *(uint32_t *) p = w on a little-endian host */
    method StoreWord(p: nat, w: u32)
      requires buf.Length == 64 && p <= 60
      modifies buf
      ensures buf[..p + 4] == old(buf[..p]) + Bytes4(w)
    {
      buf[p], buf[p + 1], buf[p + 2], buf[p + 3] := ByteOf(w, 0), ByteOf(w, 1), ByteOf(w, 2), ByteOf(w, 3);
    }

    /** md5_final */
    method Final() returns (digest: seq<byte>)
      requires Valid() || (finalized && buf.Length == 64)
      modifies this, buf
      ensures finalized && buf.Length == 64 && digest == buf[..16]
      ensures digest == if old(finalized) then old(buf[..16]) else CodeDigest(old(msg))
    {
      if !finalized {
        DoFinal();
      }
      digest := buf[..16];
    }
  }

  /** The carry chain of do_final, from the number of whole blocks and the bytes in the buffer */
  method CarryChain(nblocks: u32, count: nat, ghost len: nat) returns (lsb: u32, msb: u32)
    requires count == len % 64 && nblocks == len / 64 % TWO32
    ensures lsb == BitsLow(len) && msb == CodeHigh(len)
  {
    ByteCount(len);
    ghost var bytes: nat := len % TWO32;
    var hi := 0;
    var t := nblocks;
    lsb := 64 * t % TWO32;
    if lsb < t {
      hi := hi + 1;
    }
    hi := hi + t / 0x400_0000;
    t := lsb;
    SmallRest(t + count);
    lsb := (t + count) % TWO32;
    assert lsb == bytes;
    if lsb < t {
      hi := hi + 1;
    }
    t := lsb;
    lsb := 8 * t % TWO32;
    if lsb < t {
      hi := hi + 1;
    }
    msb := (hi + t / 0x2000_0000) % TWO32;
  }

  lemma SmallRest(x: nat)
    ensures x < TWO32 ==> x % TWO32 == x
  {
  }

  lemma WaitingIs(msg: seq<byte>, q: Quad, nblocks: nat, waiting: seq<byte>)
    requires Holds(msg, q, nblocks, waiting)
    ensures |waiting| < 64 ==> |waiting| == |msg| % 64 && nblocks == |msg| / 64 % TWO32
    ensures waiting == [] ==> q == Fold(INIT, msg)
  {
    assert msg[..|msg|] == msg;
    if |waiting| < 64 {
      var n := |msg| - |waiting|;
      assert n == 64 * (n / 64) && |msg| / 64 == n / 64;
    }
  }

  /** 64 times the number of whole blocks plus the rest, in 32 bits, is the number of bytes in 32 bits. */
  lemma ByteCount(len: nat)
    ensures 64 * (len / 64 % TWO32) % TWO32 + len % 64 == len % TWO32
    ensures 8 * (len % TWO32) % TWO32 == 8 * len % TWO32
  {
    var q, x := len / TWO32, len % TWO32;
    var g, r := x / 64, x % 64;
    assert len == q * TWO32 + x && len / 64 == q * 0x400_0000 + g && len % 64 == r;
    LowPart(8 * q, 8 * x % TWO32);
    var k := q * 0x400_0000 + g;
    var a, w := k / TWO32, k % TWO32;
    assert 64 * k == 64 * a * TWO32 + 64 * w;
    assert 64 * k == q * TWO32 + 64 * g;
    LowPart(q, 64 * g);
    SameLow(64 * a, 64 * w);
    assert 8 * len == 8 * q * TWO32 + 8 * x;
    SameLow(8 * q, 8 * x);
  }

  lemma SameLow(a: nat, w: nat)
    ensures (a * TWO32 + w) % TWO32 == w % TWO32
  {
  }

  function Concat(chunks: seq<seq<byte>>): seq<byte> {
    if chunks == [] then [] else Concat(chunks[..|chunks| - 1]) + chunks[|chunks| - 1]
  }

  /** The digest of a message depends on its bytes alone, not on how they were cut into calls of md5_update. */
  method DigestOf(chunks: seq<seq<byte>>) returns (digest: seq<byte>)
    ensures digest == CodeDigest(Concat(chunks))
    ensures CountIsRight(|Concat(chunks)|) ==> digest == Digest(Concat(chunks))
  {
    hide CodeDigest, Digest;
    var ctx := new Context();
    var i := 0;
    while i < |chunks|
      invariant 0 <= i <= |chunks| && ctx.Valid() && fresh(ctx) && fresh(ctx.buf) && ctx.msg == Concat(chunks[..i]) && !ctx.finalized
    {
      ctx.Update(chunks[i]);
      assert chunks[..i + 1][..i] == chunks[..i];
      i := i + 1;
    }
    assert chunks[..i] == chunks;
    CodeDigestIsDigest(Concat(chunks));
    digest := ctx.Final();
  }
}
