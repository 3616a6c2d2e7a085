/** The mounted image: one array of blocks holding superblock, bitmap, inodes and data, updated in place. */
module Image {
  import opened Words
  import opened BlockTree
  import opened FileSystem
  import opened Ownership

  const ENOSPC: int := 28
  const EIO: int := 5

  class Ospfs {
    const data: array<Block>
    ghost var own: Owners

    ghost predicate Valid()
      reads data
    {
      data.Length > FREEMAP_BLK && HasGeometry(data[..])
    }

    ghost function View(): (s: FS)
      requires Valid()
      reads data
      ensures ShapeOk(s) && |s.disk| == data.Length
    {
      ViewOf(data[..])
    }

    // ----- reading -----

    function FirstInodeBlock(): (b: u32)
      requires Valid()
      reads data
      ensures b == View().geo.firstinob
    {
      Word(data[1], 3)
    }

    function NInodes(): (n: u32)
      requires Valid()
      reads data
      ensures n == View().geo.ninodes
    {
      Word(data[1], 2)
    }

    /** The struct that ospfs_inode points to. */
    function Oi(i: nat): (x: Inode)
      requires Valid() && i < View().geo.ninodes
      reads data
      ensures x == View().inodes[i]
    {
      InodeAt(data[FirstInodeBlock() + i / BLKINODES], i % BLKINODES)
    }

    /** Word j of block b */
    function Peek(b: nat, j: nat): (v: u32)
      requires Valid() && View().geo.DataStart() <= b < data.Length && j < WORDS_PER_BLOCK
      reads data
      ensures v == W(View().disk, b, j)
    {
      Word(data[b], j)
    }

    /** ospfs_block(b) */
    function Bytes(b: nat): (blk: Block)
      requires Valid() && View().geo.DataStart() <= b < data.Length
      reads data
      ensures blk == BytesAt(View().disk, b)
    {
      data[b]
    }

    // ----- writing -----

    method PokeData(b: nat, j: nat, v: u32)
      requires Valid() && View().geo.DataStart() <= b < data.Length && j < WORDS_PER_BLOCK
      modifies data
      ensures Valid()
      ensures View() == old(View()).(disk := old(View()).disk[b := PutCellWord(old(View()).disk[b], j, v)])
    {
      StoreDataWord(data[..], b, j, v);
      var blk := PutWord(data[b], j, v);
      ghost var d' := data[..][b := blk];
      data[b] := blk;
      assert data[..] == d';
    }

    method PokeBlock(b: nat, blk: Block)
      requires Valid() && View().geo.DataStart() <= b < data.Length
      modifies data
      ensures Valid()
      ensures View() == old(View()).(disk := old(View()).disk[b := CellOf(blk)])
    {
      StoreDataBlock(data[..], b, blk);
      ghost var d' := data[..][b := blk];
      data[b] := blk;
      assert data[..] == d';
    }

    /** Block b is cleared and gets one pointer. */
    method FreshPointerBlock(b: nat, v: u32)
      requires Valid() && View().geo.DataStart() <= b < data.Length
      modifies data
      ensures Valid()
      ensures View() == old(View()).(disk := old(View()).disk[b := View().disk[b]])
      ensures View().disk[b].words == Zeros()[0 := v]
    {
      WordsOfZero();
      PokeBlock(b, ZeroBlock());
      PokeData(b, 0, v);
    }

    method PokeInode(i: nat, f: nat, v: u32)
      requires Valid() && i < View().geo.ninodes && f < 16
      modifies data
      ensures Valid()
      ensures View() == old(View()).(inodes := old(View()).inodes[i := SetField(old(View()).inodes[i], f, v)])
    {
      StoreInodeWord(data[..], i, f, v);
      var b := FirstInodeBlock() + i / BLKINODES;
      var blk := PutWord(data[b], 16 * (i % BLKINODES) + f, v);
      ghost var d' := data[..][b := blk];
      data[b] := blk;
      assert data[..] == d';
    }

    /** The target of a symbolic link, with the zero that ends it, goes into the inode. */
    method PokeTarget(i: nat, target: seq<byte>)
      requires Valid() && i < View().geo.ninodes && |target| < TARGET_BYTES && 0 !in target
      modifies data
      ensures Valid() && i < |View().inodes|
      ensures View() == old(View()).(inodes := old(View()).inodes[i := View().inodes[i]])
      ensures var x, x' := old(View()).inodes[i], View().inodes[i];
              x'.size == x.size && x'.ftype == x.ftype && x'.nlink == x.nlink && CStr(TargetArea(x')) == target
    {
      StoreInodeTarget(data[..], i, target);
      var b := FirstInodeBlock() + i / BLKINODES;
      var blk := PutBytes(data[b], 64 * (i % BLKINODES) + 12, target + [0]);
      ghost var d' := data[..][b := blk];
      data[b] := blk;
      assert data[..] == d';
    }

    method PokeBit(b: nat, value: bool)
      requires Valid() && b < ALLOC_BITS
      modifies data
      ensures Valid()
      ensures View() == old(View()).(free := if value then old(View()).free + {b} else old(View()).free - {b})
    {
      StoreBit(data[..], b, value);
      var blk := PutWord(data[FREEMAP_BLK], b / 32, BitmapWord(data[FREEMAP_BLK], b, value));
      ghost var d' := data[..][FREEMAP_BLK := blk];
      data[FREEMAP_BLK] := blk;
      assert data[..] == d';
    }

    // ----- allocation -----

    /** Returns the lowest free block and marks it allocated, or returns 0 when no block is free. */
    method AllocateBlock() returns (b: u32)
      requires Valid() && 0 !in View().free
      modifies data
      ensures Valid()
      ensures b == 0 ==> View() == old(View()) && View().free == {}
      ensures b != 0 ==> b in old(View()).free && forall c :: c in old(View()).free ==> b <= c
      ensures b != 0 ==> View() == old(View()).(free := old(View()).free - {b as nat})
    {
      var hold: nat := FREEMAP_BLK;
      assert View().geo.Ok();
      while hold < FirstInodeBlock()
        invariant data.Length > FREEMAP_BLK && data[..] == old(data[..]) && FREEMAP_BLK <= hold <= FREEMAP_BLK + 1
        invariant hold > FREEMAP_BLK ==> View().free == {}
      {
        var e: nat := 0;
        while e < ALLOC_BITS
          invariant data[..] == old(data[..]) && e <= ALLOC_BITS
          invariant forall c: nat :: c < e ==> c !in View().free
        {
          if FreeBit(data[hold], e) {
            assert e in View().free;
            PokeBit(e, false);
            return e + ALLOC_BITS * (hold - FREEMAP_BLK);
          }
          e := e + 1;
        }
        assert View().free == {};
        hold := hold + 1;
      }
      return 0;
    }

    /**
     * Marks a block free. Smaller block numbers are ignored; the bound is rounded down, so that the last inode block is
     * not protected unless the inodes fill it.
     */
    method FreeBlock(b: u32)
      requires Valid() && b < ALLOC_BITS
      modifies data
      ensures Valid()
      ensures b < old(View()).geo.Unprotected() ==> View() == old(View())
      ensures b >= old(View()).geo.Unprotected() ==> View() == old(View()).(free := old(View()).free + {b as nat})
    {
      if b < FirstInodeBlock() + NInodes() / BLKINODES {
        return;
      }
      PokeBit(b, true);
    }
  }
}
