/** Machine words: bytes, 32-bit unsigned words, and the little-endian words of a disk block. */
module Words {

  const TWO32: int := 0x1_0000_0000

  type byte = x: int | 0 <= x < 256
  type u32 = x: int | 0 <= x < TWO32

  const BLKSIZE: nat := 1024
  const WORDS_PER_BLOCK: nat := 256

  /** The content of one disk block. */
  type Block = b: seq<byte> | |b| == BLKSIZE witness seq(BLKSIZE, _ => 0)

  function ZeroBlock(): Block { seq(BLKSIZE, _ => 0) }

  /** The i-th 32-bit word of a block, as a little-endian host reads it. */
  function Word(b: Block, i: nat): u32
    requires i < WORDS_PER_BLOCK
  {
    var b0: int, b1: int, b2: int, b3: int := b[4 * i], b[4 * i + 1], b[4 * i + 2], b[4 * i + 3];
    b0 + 256 * b1 + 65536 * b2 + 16777216 * b3
  }

  function PutWord(b: Block, i: nat, v: u32): Block
    requires i < WORDS_PER_BLOCK
  {
    b[4 * i := v % 256][4 * i + 1 := v / 256 % 256][4 * i + 2 := v / 65536 % 256][4 * i + 3 := v / 16777216]
  }

  /** Overwrites the bytes of a block from offset 'off' on. */
  function PutBytes(b: Block, off: nat, s: seq<byte>): Block
    requires off + |s| <= BLKSIZE
  {
    b[..off] + s + b[off + |s|..]
  }

  function WordsOf(b: Block): (w: seq<u32>)
    ensures |w| == WORDS_PER_BLOCK
  {
    seq(WORDS_PER_BLOCK, i requires 0 <= i < WORDS_PER_BLOCK => Word(b, i))
  }

  /** Storing a word writes its four bytes, and no other. */
  lemma BytesAfterPut(b: Block, i: nat, v: u32, k: nat)
    requires i < WORDS_PER_BLOCK && k < BLKSIZE
    ensures !(4 * i <= k < 4 * i + 4) ==> PutWord(b, i, v)[k] == b[k]
    ensures k == 4 * i ==> PutWord(b, i, v)[k] == v % 256
    ensures k == 4 * i + 1 ==> PutWord(b, i, v)[k] == v / 256 % 256
    ensures k == 4 * i + 2 ==> PutWord(b, i, v)[k] == v / 65536 % 256
    ensures k == 4 * i + 3 ==> PutWord(b, i, v)[k] == v / 16777216
  {
  }

  /** The four bytes of a word make the word. */
  lemma BytesPutTogether(v: u32)
    ensures v % 256 + 256 * (v / 256 % 256) + 65536 * (v / 65536 % 256) + 16777216 * (v / 16777216) == v
  {
    var h: int, g: int := v / 256, v / 65536;
    assert v == 256 * h + v % 256 && h == 256 * g + h % 256 && g == 256 * (v / 16777216) + g % 256;
  }

  lemma WordAfterPut(b: Block, i: nat, v: u32, j: nat)
    requires i < WORDS_PER_BLOCK && j < WORDS_PER_BLOCK
    ensures Word(PutWord(b, i, v), j) == if i == j then v else Word(b, j)
  {
    hide PutWord;
    BytesAfterPut(b, i, v, 4 * j);
    BytesAfterPut(b, i, v, 4 * j + 1);
    BytesAfterPut(b, i, v, 4 * j + 2);
    BytesAfterPut(b, i, v, 4 * j + 3);
    if i == j {
      BytesPutTogether(v);
    }
  }

  /** Storing one word changes that word and nothing else. */
  lemma WordsAfterPut(b: Block, i: nat, v: u32)
    requires i < WORDS_PER_BLOCK
    ensures WordsOf(PutWord(b, i, v)) == WordsOf(b)[i := v]
    ensures forall k | 0 <= k < BLKSIZE && !(4 * i <= k < 4 * i + 4) :: PutWord(b, i, v)[k] == b[k]
  {
    hide PutWord, Word;
    forall j | 0 <= j < WORDS_PER_BLOCK
      ensures WordsOf(PutWord(b, i, v))[j] == WordsOf(b)[i := v][j]
    {
      WordAfterPut(b, i, v, j);
    }
    forall k | 0 <= k < BLKSIZE && !(4 * i <= k < 4 * i + 4)
      ensures PutWord(b, i, v)[k] == b[k]
    {
      BytesAfterPut(b, i, v, k);
    }
  }

  /** Overwriting bytes leaves every word outside the overwritten range alone. */
  lemma WordsAfterPutBytes(b: Block, off: nat, s: seq<byte>)
    requires off + |s| <= BLKSIZE
    ensures forall j | 0 <= j < WORDS_PER_BLOCK && (4 * j + 4 <= off || off + |s| <= 4 * j) ::
              WordsOf(PutBytes(b, off, s))[j] == WordsOf(b)[j]
  {
  }

  lemma WordsOfZero()
    ensures WordsOf(ZeroBlock()) == seq(WORDS_PER_BLOCK, _ => 0)
  {
  }

  /** Byte m of a word in memory. */
  function ByteOf(w: u32, m: nat): byte
    requires m < 4
  {
    if m == 0 then w % 256 else if m == 1 then w / 256 % 256 else if m == 2 then w / 65536 % 256 else w / 16777216
  }

  lemma BytesOfWord(b: Block, i: nat, m: nat)
    requires i < WORDS_PER_BLOCK && m < 4
    ensures ByteOf(Word(b, i), m) == b[4 * i + m]
  {
    BytesTakenApart(b[4 * i], b[4 * i + 1], b[4 * i + 2], b[4 * i + 3]);
  }

  lemma BytesTakenApart(b0: int, b1: int, b2: int, b3: int)
    requires 0 <= b0 < 256 && 0 <= b1 < 256 && 0 <= b2 < 256 && 0 <= b3 < 256
    ensures var w := b0 + 256 * b1 + 65536 * b2 + 16777216 * b3;
            w % 256 == b0 && w / 256 % 256 == b1 && w / 65536 % 256 == b2 && w / 16777216 == b3
  {
    var w := b0 + 256 * b1 + 65536 * b2 + 16777216 * b3;
    assert w / 256 == b1 + 256 * b2 + 65536 * b3;
    assert w / 65536 == b2 + 256 * b3;
  }

  // ----- C strings -----

  /** The C string at the start of a byte buffer. */
  function CStr(b: seq<byte>): (s: seq<byte>)
    ensures |s| <= |b| && 0 !in s
    ensures s == b[..|s|] && (|s| < |b| ==> b[|s|] == 0)
  {
    if b == [] || b[0] == 0 then [] else [b[0]] + CStr(b[1..])
  }

  lemma {:induction false} CStrUnique(b: seq<byte>, name: seq<byte>)
    requires |name| < |b| && b[..|name|] == name && 0 !in name && b[|name|] == 0
    ensures CStr(b) == name
  {
    if name != [] {
      assert b[0] == name[0];
      assert b[1..][..|name| - 1] == name[1..];
      CStrUnique(b[1..], name[1..]);
    }
  }

  /** A string stored with its terminating zero is read back, whatever follows it. */
  lemma StringStored(b: Block, off: nat, name: seq<byte>, len: nat)
    requires |name| < len && off + len <= BLKSIZE && 0 !in name
    ensures CStr(PutBytes(b, off, name + [0])[off..off + len]) == name
  {
    var b' := PutBytes(b, off, name + [0]);
    var r := b'[off..off + len];
    forall i | 0 <= i < |name|
      ensures r[i] == name[i]
    {
      assert r[i] == b'[off + i] == (name + [0])[i];
    }
    assert r[|name|] == b'[off + |name|] == (name + [0])[|name|] == 0;
    assert r[..|name|] == name;
    CStrUnique(r, name);
  }

  // ----- bits of a word -----

  function Pow2(n: nat): (p: nat)
    ensures p >= 1
  {
    if n == 0 then 1 else 2 * Pow2(n - 1)
  }

  /** Bit k of a word: (w >> k) & 1. */
  predicate Bit(w: nat, k: nat) {
    if k == 0 then w % 2 == 1 else Bit(w / 2, k - 1)
  }

  /** The bits of a number, low part and high part. */
  lemma {:induction false} BitSplit(n: nat, lo: nat, hi: nat, k: nat)
    requires lo < Pow2(n)
    ensures Bit(lo + Pow2(n) * hi, k) <==> if k < n then Bit(lo, k) else Bit(hi, k - n)
  {
    if n > 0 {
      var p := Pow2(n - 1);
      var w := lo + 2 * (p * hi);
      assert Pow2(n) * hi == 2 * (p * hi);
      assert w % 2 == lo % 2 && w / 2 == lo / 2 + p * hi;
      if k > 0 { BitSplit(n - 1, lo / 2, hi, k - 1); }
    }
  }

  /** w | (1 << k) */
  function OrBit(w: nat, k: nat): nat {
    if k == 0 then w / 2 * 2 + 1 else OrBit(w / 2, k - 1) * 2 + w % 2
  }

  /** w & ~(1 << k) */
  function AndNotBit(w: nat, k: nat): nat {
    if k == 0 then w / 2 * 2 else AndNotBit(w / 2, k - 1) * 2 + w % 2
  }

  lemma {:induction false} BitsOfOr(w: nat, k: nat, j: nat)
    ensures Bit(OrBit(w, k), j) <==> j == k || Bit(w, j)
  {
    if k > 0 && j > 0 {
      BitsOfOr(w / 2, k - 1, j - 1);
    }
  }

  lemma {:induction false} BitsOfAndNot(w: nat, k: nat, j: nat)
    ensures Bit(AndNotBit(w, k), j) <==> j != k && Bit(w, j)
  {
    if k > 0 && j > 0 {
      BitsOfAndNot(w / 2, k - 1, j - 1);
    }
  }

  /** Setting or clearing a bit below n keeps an n-bit word an n-bit word. */
  lemma {:induction false} BitOpsStayInRange(w: nat, k: nat, n: nat)
    requires k < n && w < Pow2(n)
    ensures OrBit(w, k) < Pow2(n) && AndNotBit(w, k) < Pow2(n)
  {
    var p := Pow2(n - 1);
    assert w / 2 <= p - 1;
    if k > 0 {
      BitOpsStayInRange(w / 2, k - 1, n - 1);
      var x, y := OrBit(w / 2, k - 1), AndNotBit(w / 2, k - 1);
      assert OrBit(w, k) == 2 * x + w % 2 && AndNotBit(w, k) == 2 * y + w % 2;
    }
  }

  lemma Pow2Of32()
    ensures Pow2(32) == TWO32
  {
    assert Pow2(8) == 256;
    assert Pow2(16) == 65536 by { assert Pow2(12) == 4096; }
    assert Pow2(24) == 16777216 by { assert Pow2(20) == 1048576; }
    assert Pow2(28) == 268435456;
  }
}
