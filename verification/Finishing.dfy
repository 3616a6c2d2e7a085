/** opendisk and finishfs: the free block bitmap and the superblock around everything else. */
module Finishing {
  import opened Words
  import opened BlockTree
  import opened FileSystem
  import opened Ownership
  import opened BlockCache
  import opened Formatting
  import opened Building
  import opened HostFiles
  import opened RootDirectory
  import opened WholeImage

  const MAGIC: u32 := 0x013101AE
  const NBITS: nat := 8 * BLKSIZE

  /** Every bit of the bitmap block is set. */
  function Ones(): Block { seq(BLKSIZE, _ => 255) }

  /** The block numbers from lo up to, but not including, hi. */
  function Span(lo: nat, hi: nat): (r: set<nat>)
    ensures forall b: nat :: b in r <==> lo <= b < hi
  {
    if hi <= lo then {} else Span(lo, hi - 1) + {hi - 1}
  }

  lemma {:induction false} BitOfAllOnes(n: nat, k: nat)
    requires k < n
    ensures Bit(Pow2(n) - 1, k)
  {
    if k > 0 {
      BitOfAllOnes(n - 1, k - 1);
      assert (Pow2(n) - 1) / 2 == Pow2(n - 1) - 1;
    }
  }

  lemma BitsOfOnes()
    ensures BitsOf(Ones()) == Span(0, NBITS)
  {
    Pow2Of32();
    forall b: nat | b < NBITS
      ensures FreeBit(Ones(), b)
    {
      assert Word(Ones(), b / 32) == Pow2(32) - 1;
      BitOfAllOnes(32, b % 32);
    }
  }

  lemma LayoutAfterBitmap(l: Disk, g: Geometry, blk: Block)
    requires g.Ok() && |l| == g.nblocks
    ensures Layout(l[FREEMAP_BLK := blk], g) == Layout(l, g).(free := BitsOf(blk))
  {
    var l' := l[FREEMAP_BLK := blk];
    assert CellsIn(l', g) == CellsIn(l, g);
    assert InodesIn(l', g) == InodesIn(l, g);
  }

  lemma LayoutAfterSuper(l: Disk, g: Geometry, blk: Block)
    requires g.Ok() && |l| == g.nblocks
    ensures Layout(l[1 := blk], g) == Layout(l, g)
  {
    var l' := l[1 := blk];
    assert CellsIn(l', g) == CellsIn(l, g);
    assert InodesIn(l', g) == InodesIn(l, g);
  }

  /** Slot k pins the bitmap block. */
  ghost predicate HoldsBitmap(bs: seq<Buf>, k: nat) {
    k < |bs| && bs[k].busy > 0 && bs[k].bno == FREEMAP_BLK
  }

  lemma BitmapInSlot(f: Formatter, k: nat)
    requires f.Valid() && HoldsBitmap(f.cache.slots[..], k)
    ensures BitsOf(f.cache.slots[k].data) == f.View().free
  {
    InSlot(f.cache.slots[..], f.cache.disk, f.cache.logical, f.nblocks, f.cache.clock, k);
  }

  /** Stores into the pinned bitmap block. */
  method StoreBitmap(f: Formatter, k: nat, blk: Block)
    requires f.Ready() && HoldsBitmap(f.cache.slots[..], k)
    modifies f.cache, f.cache.slots
    ensures f.Ready() && Balanced(old(f.cache.slots[..]), f.cache.slots[..]) && HoldsBitmap(f.cache.slots[..], k)
    ensures f.View() == old(f.View()).(free := BitsOf(blk))
    ensures f.cache.logical == old(f.cache.logical)[FREEMAP_BLK := blk]
  {
    hide Layout, BitsOf;
    ghost var l := f.cache.logical;
    f.cache.Store(k, blk);
    LayoutAfterBitmap(l, f.Geo(), blk);
  }

  /** Block j counts as used: its bit is cleared in the word that holds it. */
  method ClearBit(f: Formatter, k: nat, j: nat)
    requires f.Ready() && HoldsBitmap(f.cache.slots[..], k) && j < NBITS
    modifies f.cache, f.cache.slots
    ensures f.Ready() && Balanced(old(f.cache.slots[..]), f.cache.slots[..]) && HoldsBitmap(f.cache.slots[..], k)
    ensures f.View() == old(f.View()).(free := old(f.View()).free - {j})
  {
    hide Layout, BitsOf;
    BitmapInSlot(f, k);
    ghost var bitmap := f.cache.slots[k].data;
    BitAfterStore(bitmap, j, false);
    var v: u32 := AndNotBit(Word(f.cache.slots[k].data, j / 32), j % 32);
    BitsAfterClear(bitmap, j, v);
    StoreBitmap(f, k, PutWord(f.cache.slots[k].data, j / 32, v));
  }

  lemma BitsAfterClear(bitmap: Block, j: nat, v: u32)
    requires j < NBITS && v == AndNotBit(Word(bitmap, j / 32), j % 32)
    ensures BitsOf(PutWord(bitmap, j / 32, v)) == BitsOf(bitmap) - {j}
  {
    hide PutWord, FreeBit;
    BitAfterStore(bitmap, j, false);
    assert v == BitmapWord(bitmap, j, false);
  }

  lemma BitmapGot(bs: seq<Buf>, bs1: seq<Buf>, k: nat)
    requires Got(bs, bs1, FREEMAP_BLK as u32, k)
    ensures HoldsBitmap(bs1, k) && Took(bs, bs1, FREEMAP_BLK, k)
  {
    GotTook(bs, bs1, FREEMAP_BLK, k);
  }

  /** getblk of the bitmap block */
  method GetBitmap(f: Formatter) returns (k: nat)
    requires f.Ready() && Pins(f.cache.slots[..]) < NCACHE
    modifies f.cache, f.cache.slots
    ensures f.Ready() && f.cache.logical == old(f.cache.logical) && HoldsBitmap(f.cache.slots[..], k)
    ensures Took(old(f.cache.slots[..]), f.cache.slots[..], FREEMAP_BLK, k)
  {
    hide Layout, Pins, PinsOk, Got;
    ghost var bs := f.cache.slots[..];
    BitmapKind(f.Geo(), f.kinds);
    k := f.GetOld(FREEMAP_BLK, BitsBlock);
    BitmapGot(bs, f.cache.slots[..], k);
  }

  lemma BitmapKind(g: Geometry, kinds: map<nat, Kind>)
    requires g.Ok()
    ensures KindOf(g, kinds, FREEMAP_BLK) == BitsBlock && KindOf(g, kinds, 1) == SuperBlock && FREEMAP_BLK < g.DataStart()
  {
  }

  /** putblk of the bitmap block */
  method PutBitmap(f: Formatter, k: nat, ghost bs: seq<Buf>, ghost bs1: seq<Buf>)
    requires f.Ready() && Took(bs, bs1, FREEMAP_BLK, k) && Balanced(bs1, f.cache.slots[..]) && HoldsBitmap(f.cache.slots[..], k)
    modifies f.cache.slots
    ensures f.Ready() && Balanced(bs, f.cache.slots[..])
  {
    hide Layout, Pins, PinsOk, Took, Balanced;
    ghost var bs2 := f.cache.slots[..];
    TookBalanced(bs, bs1, bs2, FREEMAP_BLK, k);
    f.Put(k);
    TookAndPut(bs, bs2, f.cache.slots[..], FREEMAP_BLK, k);
  }

  lemma SpanStep(free: set<nat>, lo: nat, i: nat)
    requires lo <= i
    ensures free - Span(lo, i) - {i} == free - Span(lo, i + 1) && free - Span(lo, lo) == free
  {
    hide Span;
  }

  /** One bit, with a getblk and a putblk of its own */
  method MarkUsed(f: Formatter, i: nat)
    requires f.Ready() && Pins(f.cache.slots[..]) < NCACHE && i < NBITS
    modifies f.cache, f.cache.slots
    ensures f.Ready() && Balanced(old(f.cache.slots[..]), f.cache.slots[..])
    ensures f.View() == old(f.View()).(free := old(f.View()).free - {i})
  {
    hide Layout, Pins, PinsOk, Took, Balanced, HoldsBitmap;
    ghost var bs := f.cache.slots[..];
    var k := GetBitmap(f);
    ghost var bs1 := f.cache.slots[..];
    ClearBit(f, k, i);
    PutBitmap(f, k, bs, bs1);
  }

  /** The blocks handed out so far count as used. */
  method MarkAllUsed(f: Formatter)
    requires f.Ready() && Pins(f.cache.slots[..]) < NCACHE
    modifies f.cache, f.cache.slots
    ensures f.Ready() && Balanced(old(f.cache.slots[..]), f.cache.slots[..])
    ensures f.View() == old(f.View()).(free := old(f.View()).free - Span(0, f.nextb))
  {
    hide Layout, Pins, PinsOk, Balanced, Span;
    ghost var bs, s := f.cache.slots[..], f.View();
    BalancedSame(bs);
    SpanStep(s.free, 0, 0);
    var i: nat := 0;
    while i < f.nextb
      invariant i <= f.nextb && f.Ready() && Balanced(bs, f.cache.slots[..])
      invariant f.View() == s.(free := s.free - Span(0, i))
    {
      ghost var bs1 := f.cache.slots[..];
      BalancedPins(bs, bs1);
      SpanStep(s.free, 0, i);
      MarkUsed(f, i);
      BalancedTransitive(bs, bs1, f.cache.slots[..]);
      i := i + 1;
    }
  }

  /** The bits beyond the end of the disk, in the last bitmap block, are cleared too. */
  method MarkBeyond(f: Formatter)
    requires f.Ready() && Pins(f.cache.slots[..]) < NCACHE
    modifies f.cache, f.cache.slots
    ensures f.Ready() && Balanced(old(f.cache.slots[..]), f.cache.slots[..])
    ensures f.View() == old(f.View()).(free := old(f.View()).free - Span(f.nblocks, NBITS))
  {
    hide Layout, Pins, PinsOk, Balanced, Span, Took, HoldsBitmap;
    ghost var bs, s := f.cache.slots[..], f.View();
    SpanStep(s.free, f.nblocks, f.nblocks);
    var nbitblock := (f.nblocks + NBITS - 1) / NBITS;
    if f.nblocks == nbitblock * NBITS {
      BalancedSame(bs);
      return;
    }
    var k := GetBitmap(f);
    ghost var bs1 := f.cache.slots[..];
    BalancedSame(bs1);
    var i: nat := f.nblocks % NBITS;
    while i < NBITS
      invariant f.nblocks <= i <= NBITS && f.Ready() && Balanced(bs1, f.cache.slots[..]) && HoldsBitmap(f.cache.slots[..], k)
      invariant f.View() == s.(free := s.free - Span(f.nblocks, i))
    {
      ghost var bs2 := f.cache.slots[..];
      SpanStep(s.free, f.nblocks, i);
      ClearBit(f, k, i);
      BalancedTransitive(bs1, bs2, f.cache.slots[..]);
      i := i + 1;
    }
    PutBitmap(f, k, bs, bs1);
  }

  lemma SameView(f: Formatter, l: seq<Block>)
    requires f.Valid() && l == f.cache.logical
    ensures f.View() == Layout(l, f.Geo())
  {
  }

  /** struct ospfs_super in an otherwise cleared block */
  function SuperOf(nblocks: u32, ninodes: u32, firstinob: u32): Block {
    PutWord(PutWord(PutWord(PutWord(ZeroBlock(), 0, MAGIC), 1, nblocks), 2, ninodes), 3, firstinob)
  }

  lemma SuperWords(nblocks: u32, ninodes: u32, firstinob: u32)
    ensures var b := SuperOf(nblocks, ninodes, firstinob);
            Word(b, 0) == MAGIC && Word(b, 1) == nblocks && Word(b, 2) == ninodes && Word(b, 3) == firstinob
  {
    hide PutWord, Word;
    var b0 := ZeroBlock();
    var b1 := PutWord(b0, 0, MAGIC);
    var b2 := PutWord(b1, 1, nblocks);
    var b3 := PutWord(b2, 2, ninodes);
    forall i: nat | i < 4
      ensures Word(PutWord(b3, 3, firstinob), i) ==
              if i == 3 then firstinob else if i == 2 then ninodes else if i == 1 then nblocks else MAGIC
    {
      WordAfterPut(b3, 3, firstinob, i);
      WordAfterPut(b2, 2, ninodes, i);
      WordAfterPut(b1, 1, nblocks, i);
      WordAfterPut(b0, 0, MAGIC, i);
    }
  }

  /** The bytes of a struct ospfs_super: the magic number, the two sizes, the first inode block, and zeros. */
  ghost predicate IsSuper(b: Block, nblocks: u32, ninodes: u32) {
    && NumberAt(b, 0) == 0x013101AE && NumberAt(b, 4) == nblocks && NumberAt(b, 8) == ninodes && NumberAt(b, 12) == 3
    && forall k :: 16 <= k < BLKSIZE ==> b[k] == 0
  }

  lemma SuperIs(nblocks: u32, ninodes: u32)
    ensures IsSuper(SuperOf(nblocks, ninodes, FREEMAP_BLK + 1), nblocks, ninodes)
  {
    hide PutWord;
    SuperWords(nblocks, ninodes, FREEMAP_BLK + 1);
    var b1 := PutWord(ZeroBlock(), 0, MAGIC);
    var b2 := PutWord(b1, 1, nblocks);
    var b3 := PutWord(b2, 2, ninodes);
    var b4 := PutWord(b3, 3, FREEMAP_BLK + 1);
    forall k | 16 <= k < BLKSIZE
      ensures b4[k] == 0
    {
      BytesAfterPut(b3, 3, FREEMAP_BLK + 1, k);
      BytesAfterPut(b2, 2, ninodes, k);
      BytesAfterPut(b1, 1, nblocks, k);
      BytesAfterPut(ZeroBlock(), 0, MAGIC, k);
    }
  }

  /** A metadata block that was got, filled and put back. */
  lemma MetaPins(bs: seq<Buf>, bs1: seq<Buf>, bs2: seq<Buf>, g: Geometry, kinds: map<nat, Kind>, limit: nat, b: u32, k: nat)
    requires PinsOk(bs, g, kinds, limit) && Got(bs, bs1, b, k) && 0 < b < limit && bs1[k].kind == KindOf(g, kinds, b) && bs1[k].busy > 0
    requires |bs2| == |bs1| && bs2 == bs1[k := bs1[k].(data := bs2[k].data, busy := bs1[k].busy - 1)]
    ensures PinsOk(bs2, g, kinds, limit) && PinsOk(bs2, g, kinds, limit + 1) && Balanced(bs, bs2)
  {
  }

  /** A metadata block is fetched cleared, filled, and put back. */
  method WriteMeta(f: Formatter, b: u32, kind: Kind, blk: Block)
    requires f.Ready() && Pins(f.cache.slots[..]) < NCACHE && 0 < b < f.nextb && kind == KindOf(f.Geo(), f.kinds, b)
    modifies f.cache, f.cache.slots
    ensures f.cache.Valid() && f.cache.logical == old(f.cache.logical)[b := blk] && Balanced(old(f.cache.slots[..]), f.cache.slots[..])
    ensures f.Ready()
  {
    hide Layout, Pins, PinsOk, BitsOf, Balanced, Got, CanGet, SlotsOk, Reflects;
    ghost var bs, l := f.cache.slots[..], f.cache.logical;
    CanGetIff(bs, f.nblocks, f.Geo(), f.kinds, f.nextb, b, kind);
    var ok, k := f.cache.GetBlk(b, true, kind);
    ghost var bs1 := f.cache.slots[..];
    GotIs(bs, bs1, b, k);
    f.cache.Store(k, blk);
    f.cache.PutBlk(k);
    assert f.cache.logical == l[b := blk];
    MetaPins(bs, bs1, f.cache.slots[..], f.Geo(), f.kinds, f.nextb, b, k);
  }

  /** write superblock */
  method WriteSuper(f: Formatter)
    requires f.Ready() && Pins(f.cache.slots[..]) < NCACHE
    modifies f.cache, f.cache.slots
    ensures f.Ready() && Balanced(old(f.cache.slots[..]), f.cache.slots[..]) && f.View() == old(f.View())
    ensures |f.cache.logical| > FREEMAP_BLK && f.cache.logical[1] == SuperOf(f.nblocks, f.ninodes, FREEMAP_BLK + 1)
  {
    hide Layout, Pins, PinsOk, BitsOf, SuperOf;
    ghost var l := f.cache.logical;
    BitmapKind(f.Geo(), f.kinds);
    WriteMeta(f, 1, SuperBlock, SuperOf(f.nblocks, f.ninodes, FREEMAP_BLK + 1));
    LayoutAfterSuper(l, f.Geo(), SuperOf(f.nblocks, f.ninodes, FREEMAP_BLK + 1));
  }

  /** finishfs: exactly the blocks from nextb to the end of the disk are marked free. */
  method FinishFs(f: Formatter)
    requires f.Ready() && Pins(f.cache.slots[..]) < NCACHE && f.View().free == Span(0, NBITS)
    modifies f.cache, f.cache.slots
    ensures f.Ready() && f.View() == old(f.View()).(free := Span(f.nextb, f.nblocks))
    ensures |f.cache.logical| == f.nblocks > FREEMAP_BLK && GeometryOf(f.cache.logical) == f.Geo()
    ensures IsSuper(f.cache.logical[1], f.nblocks, f.ninodes)
  {
    hide Layout, Pins, PinsOk, Balanced, SuperOf, Word, IsSuper;
    SuperIs(f.nblocks, f.ninodes);
    ghost var bs := f.cache.slots[..];
    MarkAllUsed(f);
    ghost var bs1 := f.cache.slots[..];
    BalancedPins(bs, bs1);
    MarkBeyond(f);
    BalancedPins(bs1, f.cache.slots[..]);
    assert Span(0, NBITS) - Span(0, f.nextb) - Span(f.nblocks, NBITS) == Span(f.nextb, f.nblocks);
    WriteSuper(f);
    SuperWords(f.nblocks, f.ninodes, FREEMAP_BLK + 1);
  }

  // ----- opendisk -----

  /** An image with nothing in it: blank blocks, blank inodes, and a bitmap of ones. */
  ghost predicate Blank(s: FS) {
    && ShapeOk(s) && s.free == Span(0, NBITS)
    && (forall i: nat :: i < |s.inodes| ==> s.inodes[i] == BLANK_INODE)
  }

  lemma BlankInode(j: nat)
    requires j < BLKINODES
    ensures InodeAt(ZeroBlock(), j) == BLANK_INODE
  {
    WordsOfZero();
    var ws := WordsOf(ZeroBlock())[16 * j..16 * j + 16];
    assert forall k :: 0 <= k < 16 ==> ws[k] == 0;
    assert forall k :: 0 <= k < NDIRECT ==> NO_POINTERS.direct[k] == 0;
    assert ws[4..14] == NO_POINTERS.direct;
  }

  lemma BlankLayout(l: Disk, g: Geometry)
    requires g.Ok() && |l| == g.nblocks && l[FREEMAP_BLK] == Ones()
    requires forall b :: FREEMAP_BLK < b < g.DataStart() ==> l[b] == ZeroBlock()
    ensures Blank(Layout(l, g))
  {
    hide CellOf, BitsOf, InodeAt;
    BitsOfOnes();
    LayoutShape(l, g);
    forall i: nat | i < g.ninodes
      ensures InodesIn(l, g)[i] == BLANK_INODE
    {
      BlankInode(i % BLKINODES);
      assert FREEMAP_BLK < g.firstinob + i / BLKINODES < g.DataStart();
    }
  }

  /** There is one bitmap block, and the inode blocks follow it. */
  lemma MetaLayout(g: Geometry, kinds: map<nat, Kind>)
    requires g.Ok() && g.nblocks > FREEMAP_BLK
    ensures (g.nblocks + NBITS - 1) / NBITS == 1 && g.DataStart() == FREEMAP_BLK + 1 + (g.ninodes + BLKINODES - 1) / BLKINODES
    ensures forall b :: FREEMAP_BLK < b < g.DataStart() ==> KindOf(g, kinds, b) == InodeBlock
  {
  }

  ghost predicate Cleared(l: seq<Block>, n: nat) {
    |l| > FREEMAP_BLK + n && l[FREEMAP_BLK] == Ones() && forall b :: FREEMAP_BLK < b <= FREEMAP_BLK + n ==> l[b] == ZeroBlock()
  }

  lemma ClearedNext(l: seq<Block>, n: nat)
    requires Cleared(l, n) && |l| > FREEMAP_BLK + n + 1
    ensures Cleared(l[FREEMAP_BLK + n + 1 := ZeroBlock()], n + 1)
  {
  }

  /** opendisk: the bitmap is filled with ones, and the inode blocks are cleared. */
  method OpenDisk(f: Formatter)
    requires f.Ready() && Pins(f.cache.slots[..]) < NCACHE && f.nextb == f.Geo().DataStart()
    modifies f.cache, f.cache.slots
    ensures f.Ready() && Balanced(old(f.cache.slots[..]), f.cache.slots[..]) && Blank(f.View())
  {
    hide Layout, Pins, PinsOk, BitsOf, Balanced, Blank, Took, HoldsBitmap, Cleared, KindOf;
    ghost var bs := f.cache.slots[..];
    MetaLayout(f.Geo(), f.kinds);
    var nbitblock := (f.nblocks + NBITS - 1) / NBITS;
    var k := GetBitmap(f);
    ghost var bs1 := f.cache.slots[..];
    StoreBitmap(f, k, Ones());
    PutBitmap(f, k, bs, bs1);
    var ninodeblock := (f.ninodes + BLKINODES - 1) / BLKINODES;
    ClearedStart(f.cache.logical);
    var i: nat := 0;
    while i < ninodeblock
      invariant i <= ninodeblock && f.Ready() && Balanced(bs, f.cache.slots[..]) && Cleared(f.cache.logical, i)
    {
      ghost var bs2 := f.cache.slots[..];
      BalancedPins(bs, bs2);
      ClearedNext(f.cache.logical, i);
      WriteMeta(f, FREEMAP_BLK + nbitblock + i, InodeBlock, ZeroBlock());
      BalancedTransitive(bs, bs2, f.cache.slots[..]);
      i := i + 1;
    }
    BlankView(f, ninodeblock);
  }

  lemma ClearedStart(l: seq<Block>)
    requires |l| > FREEMAP_BLK && l[FREEMAP_BLK] == Ones()
    ensures Cleared(l, 0)
  {
  }

  lemma BlankView(f: Formatter, n: nat)
    requires f.Valid() && Cleared(f.cache.logical, n) && f.Geo().DataStart() == FREEMAP_BLK + 1 + n
    ensures Blank(f.View())
  {
    BlankLayout(f.cache.logical, f.Geo());
  }
}
