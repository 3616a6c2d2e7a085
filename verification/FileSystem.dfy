/** The file system image as a value: what the bytes of the disk mean, and when they are consistent. */
module FileSystem {
  import opened Words
  import opened BlockTree

  const FTYPE_REG: u32 := 0
  const FTYPE_DIR: u32 := 1
  const FTYPE_SYMLINK: u32 := 2

  const FREEMAP_BLK: nat := 2
  const BLKINODES: nat := 16

  /** The block allocator looks at the first 1024 bits of a bitmap block only. */
  const ALLOC_BITS: nat := 1024

  datatype Geometry = Geometry(nblocks: nat, ninodes: nat, firstinob: nat) {
    /** First block after the inode blocks. */
    function DataStart(): nat { firstinob + (ninodes + BLKINODES - 1) / BLKINODES }

    /** The first block that free_block agrees to free: rounded down, which may be the last inode block. */
    function Unprotected(): (b: nat)
      ensures 0 < firstinob ==> 0 < b <= DataStart()
    {
      firstinob + ninodes / BLKINODES
    }

    /** Blocks that the allocator can hand out and take back. */
    predicate Usable(b: nat) { DataStart() <= b < nblocks && b < ALLOC_BITS }

    /** A formatted image has one bitmap block. */
    predicate Ok() {
      firstinob == FREEMAP_BLK + 1 && DataStart() <= nblocks <= 8 * BLKSIZE
    }
  }

  /** struct ospfs_inode */
  datatype Inode = Inode(size: u32, ftype: u32, nlink: u32, mode: u32, ptrs: Pointers)

  /**
   * The image as the file system sees it. Metadata blocks are not part of 'disk': the superblock is 'geo',
   * the bitmap is 'free', and the inode blocks are 'inodes'.
   */
  datatype FS = FS(geo: Geometry, disk: seq<Cell>, inodes: seq<Inode>, free: set<nat>)

  // ----- reading the image -----

  type Disk = d: seq<Block> | |d| > FREEMAP_BLK witness [ZeroBlock(), ZeroBlock(), ZeroBlock()]

  function GeometryOf(d: Disk): Geometry {
    Geometry(Word(d[1], 1), Word(d[1], 2), Word(d[1], 3))
  }

  /** Every block the superblock promises is there. */
  predicate HasGeometry(d: Disk) {
    GeometryOf(d).Ok() && |d| == GeometryOf(d).nblocks
  }

  function CellOf(b: Block): Cell { Cell(WordsOf(b), b) }

  /** The sixteen words of a struct ospfs_inode. */
  function InodeOf(ws: seq<u32>): Inode
    requires |ws| == 16
  {
    Inode(ws[0], ws[1], ws[2], ws[3], Pointers(ws[4..14], ws[14], ws[15]))
  }

  function InodeAt(b: Block, j: nat): Inode
    requires j < BLKINODES
  {
    InodeOf(WordsOf(b)[16 * j..16 * j + 16])
  }

  /** The bit for block b is bit b % 8 of byte b / 8; the module takes only the first 1024 of them into account. */
  lemma BitmapLayout(bitmap: Block, b: nat)
    requires b < 8 * BLKSIZE
    ensures FreeBit(bitmap, b) <==> Bit(bitmap[b / 8], b % 8)
    ensures b in FreeView(bitmap) <==> b < 1024 && Bit(bitmap[b / 8], b % 8)
  {
    hide Bit;
    var at, k := 4 * (b / 32), b % 32;
    var b0: int, b1: int, b2: int, b3: int := bitmap[at], bitmap[at + 1], bitmap[at + 2], bitmap[at + 3];
    assert Pow2(8) == 256 by { EightBits(); }
    BitSplit(8, b0, b1 + 256 * (b2 + 256 * b3), k);
    if k >= 8 { BitSplit(8, b1, b2 + 256 * b3, k - 8); }
    if k >= 16 { BitSplit(8, b2, b3, k - 16); }
    assert b / 8 == at + k / 8 && b % 8 == k % 8;
  }

  lemma EightBits()
    ensures Pow2(8) == 256
  {
    assert Pow2(4) == 16;
  }

  /** Four bytes of a block, low-order byte first. */
  function NumberAt(b: Block, at: nat): int
    requires at + 4 <= BLKSIZE
  {
    b[at] as int + 256 * b[at + 1] as int + 65536 * b[at + 2] as int + 16777216 * b[at + 3] as int
  }

  /** Where the fields of a struct ospfs_inode lie: 64 bytes, in the order of its declaration. */
  lemma InodeLayout(b: Block, j: nat)
    requires j < BLKINODES
    ensures var x, at := InodeAt(b, j), 64 * j;
            && x.size == NumberAt(b, at) && x.ftype == NumberAt(b, at + 4) && x.nlink == NumberAt(b, at + 8) && x.mode == NumberAt(b, at + 12)
            && (forall k :: 0 <= k < 10 ==> x.ptrs.direct[k] == NumberAt(b, at + 16 + 4 * k))
            && x.ptrs.indirect == NumberAt(b, at + 56) && x.ptrs.indirect2 == NumberAt(b, at + 60)
  {
    var x, at := InodeAt(b, j), 64 * j;
    forall k | 0 <= k < 10
      ensures x.ptrs.direct[k] == NumberAt(b, at + 16 + 4 * k)
    {
      assert x.ptrs.direct[k] == WordsOf(b)[16 * j + (4 + k)];
    }
  }

  /** The blocks of an image with this layout, metadata left out. */
  function CellsIn(d: Disk, g: Geometry): seq<Cell> {
    seq(|d|, b requires 0 <= b < |d| => if b < g.DataStart() then CellOf(ZeroBlock()) else CellOf(d[b]))
  }

  function InodesIn(d: Disk, g: Geometry): seq<Inode>
    requires g.Ok() && |d| == g.nblocks
  {
    seq(g.ninodes, i requires 0 <= i < g.ninodes => InodeAt(d[g.firstinob + i / BLKINODES], i % BLKINODES))
  }

  predicate FreeBit(bitmap: Block, b: nat)
    requires b < 8 * BLKSIZE
  {
    Bit(Word(bitmap, b / 32), b % 32)
  }

  function FreeView(bitmap: Block): set<nat> {
    set b: nat | b < ALLOC_BITS && FreeBit(bitmap, b)
  }

  function ViewOf(d: Disk): FS
    requires HasGeometry(d)
  {
    FS(GeometryOf(d), CellsIn(d, GeometryOf(d)), InodesIn(d, GeometryOf(d)), FreeView(d[FREEMAP_BLK]))
  }

  // ----- writing the image -----

  function PutCellWord(c: Cell, j: nat, v: u32): Cell
    requires j < |c.words| && j < WORDS_PER_BLOCK
  {
    Cell(c.words[j := v], PutWord(c.bytes, j, v))
  }

  lemma SameGeometry(d: Disk, d': Disk, b: nat)
    requires HasGeometry(d) && |d'| == |d| && b > 1 && forall c :: 0 <= c < |d| && c != b ==> d'[c] == d[c]
    ensures GeometryOf(d') == GeometryOf(d) && HasGeometry(d')
  {
  }

  /** A block written as a whole outside the metadata area. */
  lemma DataBlockIn(d: Disk, g: Geometry, b: nat, blk: Block)
    requires g.Ok() && |d| == g.nblocks && g.DataStart() <= b < |d|
    ensures var d' := d[b := blk]; CellsIn(d', g) == CellsIn(d, g)[b := CellOf(blk)] && InodesIn(d', g) == InodesIn(d, g)
  {
    var d' := d[b := blk];
    assert CellsIn(d', g) == CellsIn(d, g)[b := CellOf(blk)];
    assert InodesIn(d', g) == InodesIn(d, g);
  }

  /** A word stored outside the metadata area shows up as that word of that block. */
  lemma StoreDataWord(d: Disk, b: nat, j: nat, v: u32)
    requires HasGeometry(d) && GeometryOf(d).DataStart() <= b < |d| && j < WORDS_PER_BLOCK
    ensures var d' := d[b := PutWord(d[b], j, v)];
            HasGeometry(d') &&
            ViewOf(d') == ViewOf(d).(disk := ViewOf(d).disk[b := PutCellWord(ViewOf(d).disk[b], j, v)])
  {
    WordsAfterPut(d[b], j, v);
    StoreDataBlock(d, b, PutWord(d[b], j, v));
  }

  lemma StoreDataBlock(d: Disk, b: nat, blk: Block)
    requires HasGeometry(d) && GeometryOf(d).DataStart() <= b < |d|
    ensures var d' := d[b := blk];
            HasGeometry(d') && ViewOf(d') == ViewOf(d).(disk := ViewOf(d).disk[b := CellOf(blk)])
  {
    SameGeometry(d, d[b := blk], b);
    DataBlockIn(d, GeometryOf(d), b, blk);
  }

  /** The inode whose f-th word was overwritten. */
  function SetField(x: Inode, f: nat, v: u32): Inode
    requires f < 16
  {
    if f == 0 then x.(size := v) else if f == 1 then x.(ftype := v) else if f == 2 then x.(nlink := v)
    else if f == 3 then x.(mode := v)
    else if f < 14 then x.(ptrs := x.ptrs.(direct := x.ptrs.direct[f - 4 := v]))
    else if f == 14 then x.(ptrs := x.ptrs.(indirect := v)) else x.(ptrs := x.ptrs.(indirect2 := v))
  }

  lemma InodeFieldUpdate(ws: seq<u32>, f: nat, v: u32)
    requires |ws| == 16 && f < 16
    ensures InodeOf(ws[f := v]) == SetField(InodeOf(ws), f, v)
  {
    var ws': seq<u32> := ws[f := v];
    assert ws'[4..14] == if 4 <= f < 14 then ws[4..14][f - 4 := v] else ws[4..14];
  }

  lemma InodeAfterPut(b: Block, j: nat, f: nat, v: u32, k: nat)
    requires j < BLKINODES && f < 16 && k < BLKINODES
    ensures InodeAt(PutWord(b, 16 * j + f, v), k) == if k == j then SetField(InodeAt(b, j), f, v) else InodeAt(b, k)
  {
    WordsAfterPut(b, 16 * j + f, v);
    var ws := WordsOf(b);
    var ws': seq<u32> := ws[16 * j + f := v];
    if k == j {
      InodeFieldUpdate(ws[16 * j..16 * j + 16], f, v);
      assert ws'[16 * j..16 * j + 16] == ws[16 * j..16 * j + 16][f := v];
    } else {
      assert ws'[16 * k..16 * k + 16] == ws[16 * k..16 * k + 16];
    }
  }

  /** The block of inode i. */
  function InodeBlockOf(g: Geometry, i: nat): nat { g.firstinob + i / BLKINODES }

  /** A rewritten inode block changes its own inodes only. */
  lemma InodeBlockIn(d: Disk, g: Geometry, i: nat, blk: Block)
    requires g.Ok() && |d| == g.nblocks && i < g.ninodes
    requires forall k: nat :: k < BLKINODES && k != i % BLKINODES ==> InodeAt(blk, k) == InodeAt(d[InodeBlockOf(g, i)], k)
    ensures var d' := d[InodeBlockOf(g, i) := blk];
            CellsIn(d', g) == CellsIn(d, g) && InodesIn(d', g) == InodesIn(d, g)[i := InodeAt(blk, i % BLKINODES)]
  {
    hide InodeAt;
    var d' := d[InodeBlockOf(g, i) := blk];
    assert CellsIn(d', g) == CellsIn(d, g);
    forall k | 0 <= k < g.ninodes
      ensures InodesIn(d', g)[k] == if k == i then InodeAt(blk, i % BLKINODES) else InodesIn(d, g)[k]
    {
      if k / BLKINODES == i / BLKINODES && k != i {
        assert k % BLKINODES != i % BLKINODES;
      }
    }
    assert InodesIn(d', g) == InodesIn(d, g)[i := InodeAt(blk, i % BLKINODES)];
  }

  /** One word of an inode. */
  lemma InodeWordIn(d: Disk, g: Geometry, i: nat, f: nat, v: u32)
    requires g.Ok() && |d| == g.nblocks && i < g.ninodes && f < 16
    ensures var b := InodeBlockOf(g, i); var d' := d[b := PutWord(d[b], 16 * (i % BLKINODES) + f, v)];
            CellsIn(d', g) == CellsIn(d, g) && InodesIn(d', g) == InodesIn(d, g)[i := SetField(InodesIn(d, g)[i], f, v)]
  {
    hide InodeAt, SetField, PutWord, WordsOf;
    var b := InodeBlockOf(g, i);
    forall k: nat | k < BLKINODES
      ensures InodeAt(PutWord(d[b], 16 * (i % BLKINODES) + f, v), k)
           == if k == i % BLKINODES then SetField(InodeAt(d[b], k), f, v) else InodeAt(d[b], k)
    {
      InodeAfterPut(d[b], i % BLKINODES, f, v, k);
    }
    InodeBlockIn(d, g, i, PutWord(d[b], 16 * (i % BLKINODES) + f, v));
  }

  lemma StoreInodeWord(d: Disk, i: nat, f: nat, v: u32)
    requires HasGeometry(d) && i < GeometryOf(d).ninodes && f < 16
    ensures var b := InodeBlockOf(GeometryOf(d), i);
            b < GeometryOf(d).DataStart() &&
            var d' := d[b := PutWord(d[b], 16 * (i % BLKINODES) + f, v)];
            HasGeometry(d') &&
            ViewOf(d') == ViewOf(d).(inodes := ViewOf(d).inodes[i := SetField(ViewOf(d).inodes[i], f, v)])
  {
    hide InodeAt, SetField, PutWord, WordsOf;
    var b := InodeBlockOf(GeometryOf(d), i);
    SameGeometry(d, d[b := PutWord(d[b], 16 * (i % BLKINODES) + f, v)], b);
    InodeWordIn(d, GeometryOf(d), i, f, v);
  }

  // ----- symbolic links: the target overlays everything from oi_mode on -----

  const TARGET_BYTES: nat := 52

  function TargetWord(x: Inode, k: nat): u32
    requires k < 13
  {
    if k == 0 then x.mode else if k < 11 then x.ptrs.direct[k - 1] else if k == 11 then x.ptrs.indirect else x.ptrs.indirect2
  }

  /** The character array oi_symlink. */
  function TargetArea(x: Inode): (r: seq<byte>)
    ensures |r| == TARGET_BYTES
  {
    seq(TARGET_BYTES, k requires 0 <= k < TARGET_BYTES => ByteOf(TargetWord(x, k / 4), k % 4))
  }

  lemma TargetWordAt(b: Block, j: nat, m: nat)
    requires j < BLKINODES && m < 13
    ensures TargetWord(InodeAt(b, j), m) == Word(b, 16 * j + 3 + m)
  {
    hide Word;
    var ws := WordsOf(b);
    var inode := ws[16 * j..16 * j + 16];
    assert inode[3 + m] == ws[16 * j + 3 + m];
    assert InodeAt(b, j) == Inode(inode[0], inode[1], inode[2], inode[3], Pointers(inode[4..14], inode[14], inode[15]));
    if 1 <= m < 11 {
      assert inode[4..14][m - 1] == inode[3 + m];
    }
  }

  lemma TargetInBlock(b: Block, j: nat)
    requires j < BLKINODES
    ensures TargetArea(InodeAt(b, j)) == b[64 * j + 12..64 * j + 64]
  {
    hide InodeAt, Word, TargetWord;
    var x, area := InodeAt(b, j), b[64 * j + 12..64 * j + 64];
    forall k | 0 <= k < TARGET_BYTES
      ensures TargetArea(x)[k] == area[k]
    {
      var w := 16 * j + 3 + k / 4;
      TargetWordAt(b, j, k / 4);
      BytesOfWord(b, w, k % 4);
      assert 4 * w + k % 4 == 64 * j + 12 + k;
    }
  }

  /** Bytes 12.. of inode i are overwritten by a string and its terminating zero. */
  lemma StoreInodeTarget(d: Disk, i: nat, target: seq<byte>)
    requires HasGeometry(d) && i < GeometryOf(d).ninodes && |target| < TARGET_BYTES && 0 !in target
    ensures var b := InodeBlockOf(GeometryOf(d), i);
            b < GeometryOf(d).DataStart() &&
            var d' := d[b := PutBytes(d[b], 64 * (i % BLKINODES) + 12, target + [0])];
            HasGeometry(d') &&
            var x, x' := ViewOf(d).inodes[i], ViewOf(d').inodes[i];
            ViewOf(d') == ViewOf(d).(inodes := ViewOf(d).inodes[i := x']) &&
            x'.size == x.size && x'.ftype == x.ftype && x'.nlink == x.nlink && CStr(TargetArea(x')) == target
  {
    hide InodeAt, CStr, TargetArea, PutBytes;
    var g := GeometryOf(d);
    var b, j := InodeBlockOf(g, i), i % BLKINODES;
    var blk := PutBytes(d[b], 64 * j + 12, target + [0]);
    SameGeometry(d, d[b := blk], b);
    TargetStored(d[b], j, target);
    InodeBlockIn(d, g, i, blk);
  }

  lemma TargetStored(b: Block, j: nat, target: seq<byte>)
    requires j < BLKINODES && |target| < TARGET_BYTES && 0 !in target
    ensures var b' := PutBytes(b, 64 * j + 12, target + [0]);
            var x, x' := InodeAt(b, j), InodeAt(b', j);
            && (forall k: nat :: k < BLKINODES && k != j ==> InodeAt(b', k) == InodeAt(b, k))
            && x'.size == x.size && x'.ftype == x.ftype && x'.nlink == x.nlink && CStr(TargetArea(x')) == target
  {
    hide CStr, TargetArea, PutBytes, WordsOf;
    var b' := PutBytes(b, 64 * j + 12, target + [0]);
    WordsAfterPutBytes(b, 64 * j + 12, target + [0]);
    forall k: nat | k < BLKINODES && k != j
      ensures InodeAt(b', k) == InodeAt(b, k)
    {
      assert WordsOf(b')[16 * k..16 * k + 16] == WordsOf(b)[16 * k..16 * k + 16];
    }
    assert WordsOf(b')[16 * j..16 * j + 3] == WordsOf(b)[16 * j..16 * j + 3];
    TargetRead(b, j, target);
  }

  lemma TargetRead(b: Block, j: nat, target: seq<byte>)
    requires j < BLKINODES && |target| < TARGET_BYTES && 0 !in target
    ensures CStr(TargetArea(InodeAt(PutBytes(b, 64 * j + 12, target + [0]), j))) == target
  {
    hide InodeAt, CStr, TargetArea;
    TargetInBlock(PutBytes(b, 64 * j + 12, target + [0]), j);
    StringStored(b, 64 * j + 12, target, TARGET_BYTES);
  }

  /** The bitmap word with bit b set or cleared. */
  function BitmapWord(bitmap: Block, b: nat, value: bool): nat
    requires b < 8 * BLKSIZE
  {
    if value then OrBit(Word(bitmap, b / 32), b % 32) else AndNotBit(Word(bitmap, b / 32), b % 32)
  }

  lemma BitAfterStore(bitmap: Block, b: nat, value: bool)
    requires b < 8 * BLKSIZE
    ensures BitmapWord(bitmap, b, value) < TWO32
    ensures forall c: nat | c < 8 * BLKSIZE ::
              FreeBit(PutWord(bitmap, b / 32, BitmapWord(bitmap, b, value)), c) == if c == b then value else FreeBit(bitmap, c)
  {
    Pow2Of32();
    BitOpsStayInRange(Word(bitmap, b / 32), b % 32, 32);
    var v := BitmapWord(bitmap, b, value);
    forall c: nat | c < 8 * BLKSIZE
      ensures FreeBit(PutWord(bitmap, b / 32, v), c) == if c == b then value else FreeBit(bitmap, c)
    {
      WordAfterPut(bitmap, b / 32, v, c / 32);
      BitsOfOr(Word(bitmap, b / 32), b % 32, c % 32);
      BitsOfAndNot(Word(bitmap, b / 32), b % 32, c % 32);
    }
  }

  lemma StoreBit(d: Disk, b: nat, value: bool)
    requires HasGeometry(d) && b < ALLOC_BITS
    ensures var v := BitmapWord(d[FREEMAP_BLK], b, value);
            v < TWO32 &&
            var d' := d[FREEMAP_BLK := PutWord(d[FREEMAP_BLK], b / 32, v)]; var free := ViewOf(d).free;
            HasGeometry(d') && ViewOf(d') == ViewOf(d).(free := if value then free + {b} else free - {b})
  {
    BitAfterStore(d[FREEMAP_BLK], b, value);
    var d' := d[FREEMAP_BLK := PutWord(d[FREEMAP_BLK], b / 32, BitmapWord(d[FREEMAP_BLK], b, value))];
    assert CellsIn(d', GeometryOf(d)) == CellsIn(d, GeometryOf(d));
    assert InodesIn(d', GeometryOf(d)) == InodesIn(d, GeometryOf(d));
  }
}
