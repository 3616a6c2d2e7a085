/** Which file owns which block: the invariant of the file system, and what resizing one file may change. */
module Ownership {
  import opened Words
  import opened BlockTree
  import opened FileSystem

  /** ospfs_size2nblocks, with the 32-bit wrap-around of its addition. */
  function Size2NBlocks(size: u32): nat {
    (size + BLKSIZE - 1) % TWO32 / BLKSIZE
  }

  /** Sizes beyond this make the addition in ospfs_size2nblocks wrap around. */
  const MAX_SIZE: u32 := TWO32 - BLKSIZE

  lemma Size2NBlocksIsCeiling(size: u32)
    ensures size <= MAX_SIZE ==> BLKSIZE * (Size2NBlocks(size) - 1) < size <= BLKSIZE * Size2NBlocks(size)
    ensures size > MAX_SIZE ==> Size2NBlocks(size) == 0
  {
  }

  /** Data blocks of an inode; a symbolic link keeps its target in the inode and owns none. */
  function NBlocks(x: Inode): nat {
    if x.ftype == FTYPE_SYMLINK then 0 else Size2NBlocks(x.size)
  }

  /** The pointers of an inode; in a symbolic link the same words hold the target. */
  function Tree(x: Inode): Pointers {
    if x.ftype == FTYPE_SYMLINK then NO_POINTERS else x.ptrs
  }

  ghost predicate FileOk(d: seq<Cell>, x: Inode, i: nat, own: Owners) {
    && TreeOk(d, Tree(x), i, own, NBlocks(x))
    && (x.ftype != FTYPE_SYMLINK ==> x.size <= BLKSIZE * NBlocks(x))
  }

  ghost predicate ShapeOk(s: FS) {
    s.geo.Ok() && |s.disk| == s.geo.nblocks && Shape(s.disk) && |s.inodes| == s.geo.ninodes
  }

  /** Free and owned split the allocatable data area: nothing leaks and nothing is allocated twice. */
  ghost predicate FreeOk(geo: Geometry, free: set<nat>, own: Owners) {
    && (forall b :: b in own ==> geo.Usable(b) && own[b].ino < geo.ninodes)
    && (forall b :: b in free <==> geo.Usable(b) && b !in own)
  }

  /** Every block in the allocatable area is free or serves one purpose in one file. */
  ghost predicate Consistent(s: FS, own: Owners) {
    && ShapeOk(s) && FreeOk(s.geo, s.free, own)
    && forall i :: 0 <= i < |s.inodes| ==> FileOk(s.disk, s.inodes[i], i, own)
  }

  /** A doubly indirect pointer in a file too short to have that block. */
  predicate Stale(x: Inode) {
    x.ftype != FTYPE_SYMLINK && NBlocks(x) <= NFLAT && x.ptrs.indirect2 != 0
  }

  ghost predicate Inv(s: FS, own: Owners) {
    Consistent(s, own) && forall i :: 0 <= i < |s.inodes| ==> !Stale(s.inodes[i])
  }

  // ----- changing one file -----

  /** The blocks of every other file belong to it as before and hold what they held. */
  ghost predicate OthersKeep(d: seq<Cell>, own: Owners, d': seq<Cell>, own': Owners, i: nat) {
    && (forall b :: (b in own && own[b].ino != i) || (b in own' && own'[b].ino != i) ==>
                      b in own && b in own' && own'[b] == own[b])
    && (forall b :: b in own && own[b].ino != i && b < |d| && b < |d'| ==> d'[b] == d[b])
  }

  /** Every other inode and every block of every other file is as it was. */
  ghost predicate OthersSame(s: FS, own: Owners, s': FS, own': Owners, i: nat) {
    && s'.geo == s.geo && |s'.disk| == |s.disk| && i < |s.inodes| == |s'.inodes| && s'.inodes == s.inodes[i := s'.inodes[i]]
    && OthersKeep(s.disk, own, s'.disk, own', i)
  }

  lemma OtherFileKeeps(d: seq<Cell>, own: Owners, d': seq<Cell>, own': Owners, i: nat, x: Inode, j: nat)
    requires |d'| == |d| && OthersKeep(d, own, d', own', i) && FileOk(d, x, j, own) && j != i
    ensures FileOk(d', x, j, own')
  {
    TreeFrame(d, d', Tree(x), j, own, own', NBlocks(x));
  }

  /** If only file i changed and file i is well formed, the whole image is. */
  lemma ConsistentFromOneFile(s: FS, own: Owners, s': FS, own': Owners, i: nat)
    requires Consistent(s, own) && OthersSame(s, own, s', own', i)
    requires Shape(s'.disk) && FreeOk(s'.geo, s'.free, own') && FileOk(s'.disk, s'.inodes[i], i, own')
    ensures Consistent(s', own')
  {
    hide FileOk, OthersKeep;
    forall j | 0 <= j < |s.inodes| && j != i
      ensures FileOk(s'.disk, s'.inodes[j], j, own')
    {
      OtherFileKeeps(s.disk, own, s'.disk, own', i, s.inodes[j], j);
    }
  }

  function BytesAt(d: seq<Cell>, b: nat): Block {
    if b < |d| then d[b].bytes else ZeroBlock()
  }

  /** The bytes of the k-th data block of a file. */
  function DataBytes(d: seq<Cell>, p: Pointers, k: nat): Block {
    BytesAt(d, At(d, p, Data(k)))
  }

  /** Going from n to m blocks, the slots both sizes need keep their blocks and the data in them; added data is zero. */
  ghost predicate TreeResized(d: seq<Cell>, p: Pointers, d': seq<Cell>, p': Pointers, n: nat, m: nat) {
    && (forall slot :: Needs(n, slot) && Needs(m, slot) ==> At(d', p', slot) == At(d, p, slot))
    && (forall k: nat :: k < m ==> DataBytes(d', p', k) == if k < n then DataBytes(d, p, k) else ZeroBlock())
  }

  /** Only slots of file i that one of the two sizes does not need change hands. */
  ghost predicate OwnersResized(own: Owners, own': Owners, i: nat, n: nat, m: nat) {
    && (forall b :: b in own && own[b].ino == i && Needs(m, own[b].slot) ==> b in own' && own'[b] == own[b])
    && (forall b :: b in own' && own'[b].ino == i && Needs(n, own'[b].slot) ==> b in own && own'[b] == own[b])
  }

  /** File i went from n to m data blocks and nothing else changed. */
  ghost predicate Resized(s: FS, own: Owners, s': FS, own': Owners, i: nat, n: nat, m: nat) {
    && OthersSame(s, own, s', own', i)
    && s'.inodes[i] == s.inodes[i].(size := s'.inodes[i].size, ptrs := s'.inodes[i].ptrs)
    && TreeResized(s.disk, s.inodes[i].ptrs, s'.disk, s'.inodes[i].ptrs, n, m)
    && OwnersResized(own, own', i, n, m)
  }

  lemma NeedsBelow(a: nat, b: nat, slot: Slot)
    requires a <= b && Needs(a, slot)
    ensures Needs(b, slot)
  {
  }

  function Min(a: nat, b: nat): nat { if a <= b then a else b }

  lemma OwnersResizedTransitive(own: Owners, own1: Owners, own2: Owners, i: nat, n: nat, m: nat, q: nat)
    requires OwnersResized(own, own1, i, n, m) && OwnersResized(own1, own2, i, m, q) && m >= Min(n, q)
    requires forall b :: b in own && own[b].ino == i ==> Needs(n, own[b].slot)
    requires forall b :: b in own2 && own2[b].ino == i ==> Needs(q, own2[b].slot)
    ensures OwnersResized(own, own2, i, n, q)
  {
    forall b | b in own && own[b].ino == i && Needs(q, own[b].slot)
      ensures b in own2 && own2[b] == own[b]
    {
      NeedsBelow(Min(n, q), m, own[b].slot);
    }
    forall b | b in own2 && own2[b].ino == i && Needs(n, own2[b].slot)
      ensures b in own && own2[b] == own[b]
    {
      NeedsBelow(Min(n, q), m, own2[b].slot);
    }
  }

  lemma TreeResizedTransitive(d: seq<Cell>, p: Pointers, d1: seq<Cell>, p1: Pointers, d2: seq<Cell>, p2: Pointers,
                              n: nat, m: nat, q: nat)
    requires TreeResized(d, p, d1, p1, n, m) && TreeResized(d1, p1, d2, p2, m, q) && m >= Min(n, q)
    ensures TreeResized(d, p, d2, p2, n, q)
  {
    forall slot | Needs(n, slot) && Needs(q, slot)
      ensures At(d2, p2, slot) == At(d, p, slot)
    {
      NeedsBelow(Min(n, q), m, slot);
    }
  }

  /** Resizing composes, as long as no block both ends share was dropped on the way. */
  lemma ResizedTransitive(s: FS, own: Owners, s1: FS, own1: Owners, s2: FS, own2: Owners, i: nat, n: nat, m: nat, q: nat)
    requires Resized(s, own, s1, own1, i, n, m) && Resized(s1, own1, s2, own2, i, m, q) && m >= Min(n, q)
    requires forall b :: b in own && own[b].ino == i ==> Needs(n, own[b].slot)
    requires forall b :: b in own2 && own2[b].ino == i ==> Needs(q, own2[b].slot)
    ensures Resized(s, own, s2, own2, i, n, q)
  {
    hide TreeResized, OwnersResized;
    TreeResizedTransitive(s.disk, s.inodes[i].ptrs, s1.disk, s1.inodes[i].ptrs, s2.disk, s2.inodes[i].ptrs, n, m, q);
    OwnersResizedTransitive(own, own1, own2, i, n, m, q);
  }

  /** Growing and shrinking back gives the ownership, hence the free set, of before. */
  lemma ResizedBack(s: FS, own: Owners, s': FS, own': Owners, i: nat, n: nat)
    requires Consistent(s, own) && Consistent(s', own') && Resized(s, own, s', own', i, n, n)
    requires n == NBlocks(s.inodes[i]) == NBlocks(s'.inodes[i])
    ensures own' == own && s'.free == s.free
  {
    assert FileOk(s.disk, s.inodes[i], i, own) && FileOk(s'.disk, s'.inodes[i], i, own');
    SameOwnersBothWays(own, own', i, n);
    assert forall b :: b in s.free <==> b in s'.free;
  }

  lemma SameOwnersBothWays(own: Owners, own': Owners, i: nat, n: nat)
    requires OwnersResized(own, own', i, n, n)
    requires forall b :: (b in own && own[b].ino != i) || (b in own' && own'[b].ino != i) ==>
                           b in own && b in own' && own'[b] == own[b]
    requires forall b :: b in own && own[b].ino == i ==> Needs(n, own[b].slot)
    requires forall b :: b in own' && own'[b].ino == i ==> Needs(n, own'[b].slot)
    ensures own' == own
  {
    assert own'.Keys == own.Keys;
  }

  // ----- counting -----

  function RangeSet(n: nat): (r: set<nat>)
    ensures |r| == n && forall b: nat :: b in r <==> b < n
  {
    if n == 0 then {} else RangeSet(n - 1) + {n - 1}
  }

  lemma SubsetCard(a: set<nat>, b: set<nat>)
    requires a <= b
    ensures |a| <= |b| && |b - a| == |b| - |a|
  {
    assert b == a + (b - a);
  }

  /** The first m data blocks of a file, as a set. */
  function DataSet(d: seq<Cell>, p: Pointers, m: nat): set<nat> {
    if m == 0 then {} else DataSet(d, p, m - 1) + {At(d, p, Data(m - 1))}
  }

  lemma {:induction false} DataSetCard(d: seq<Cell>, p: Pointers, i: nat, own: Owners, n: nat, m: nat)
    requires TreeOk(d, p, i, own, n) && m <= n
    ensures |DataSet(d, p, m)| == m
    ensures forall b :: b in DataSet(d, p, m) ==> b in own && own[b].slot.Data? && own[b].slot.k < m
  {
    if m > 0 {
      DataSetCard(d, p, i, own, n, m - 1);
      assert Needs(n, Data(m - 1));
    }
  }

  /** Pigeonhole: owned block numbers are distinct and below 1024, so no file is longer than that. */
  lemma FileIsShort(s: FS, own: Owners, i: nat)
    requires Consistent(s, own) && i < |s.inodes|
    ensures NBlocks(s.inodes[i]) <= ALLOC_BITS
  {
    var n, p := NBlocks(s.inodes[i]), Tree(s.inodes[i]);
    assert FileOk(s.disk, s.inodes[i], i, own);
    DataSetCard(s.disk, p, i, own, n, n);
    SubsetCard(DataSet(s.disk, p, n), RangeSet(ALLOC_BITS));
  }
}
