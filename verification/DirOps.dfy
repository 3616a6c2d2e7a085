/** find_direntry and create_blank_direntry. */
module DirOps {
  import opened Words
  import opened BlockTree
  import opened FileSystem
  import opened Ownership
  import opened Appending
  import opened Image
  import opened FileSize
  import opened FileIO
  import opened Directories

  const EEXIST: int := 17
  const ENAMETOOLONG: int := 36

  /** Entry e of directory 'dir' is slot j of block b. */
  ghost predicate Place(s: FS, dir: nat, e: nat, b: u32, j: nat) {
    && dir < |s.inodes| && e < |DirEntries(s, dir)| && j == e % PER_BLOCK && s.geo.DataStart() <= b < |s.disk|
    && b == At(s.disk, s.inodes[dir].ptrs, Data(e / PER_BLOCK))
  }

  ghost predicate IsDir(s: FS, own: Owners, dir: nat) {
    && Consistent(s, own) && dir < |s.inodes| && s.inodes[dir].ftype == FTYPE_DIR && s.inodes[dir].size % BLKSIZE == 0
    && !Stale(s.inodes[dir])
  }

  lemma PlaceOf(s: FS, own: Owners, dir: nat, e: nat)
    requires IsDir(s, own, dir) && e < |DirEntries(s, dir)|
    ensures Place(s, dir, e, At(s.disk, s.inodes[dir].ptrs, Data(e / PER_BLOCK)), e % PER_BLOCK)
    ensures BLKSIZE * NBlocks(s.inodes[dir]) == s.inodes[dir].size
    ensures DirEntries(s, dir)[e] == EntryIn(BytesAt(s.disk, At(s.disk, s.inodes[dir].ptrs, Data(e / PER_BLOCK))), e % PER_BLOCK)
  {
    DirSize(s, own, dir);
    LookupIsOwned(s, own, dir, DIRENTRY_SIZE * e);
    assert DIRENTRY_SIZE * e / BLKSIZE == e / PER_BLOCK;
  }

  lemma DirSize(s: FS, own: Owners, dir: nat)
    requires IsDir(s, own, dir)
    ensures BLKSIZE * NBlocks(s.inodes[dir]) == s.inodes[dir].size && NBlocks(s.inodes[dir]) <= ALLOC_BITS
  {
    SizeFits(s, own, dir);
    Size2NBlocksIsCeiling(s.inodes[dir].size);
  }

  /** Looks the entry at a directory offset up, and says whether it is live and has this name. */
  method Matches(fs: Ospfs, dir: nat, off: nat, name: seq<byte>, ghost e: nat) returns (hit: bool, b: u32, j: nat)
    requires fs.Valid() && IsDir(fs.View(), fs.own, dir) && e < |DirEntries(fs.View(), dir)| && off == DIRENTRY_SIZE * e
    ensures Place(fs.View(), dir, e, b, j)
    ensures hit <==> DirEntries(fs.View(), dir)[e].Live() && DirEntries(fs.View(), dir)[e].name == name
  {
    hide ViewOf, HasGeometry, Consistent, At, NBlocks;
    ghost var s := fs.View();
    DirSize(s, fs.own, dir);
    assert off / BLKSIZE == e / PER_BLOCK && off % BLKSIZE / DIRENTRY_SIZE == e % PER_BLOCK;
    PlaceOf(s, fs.own, dir, e);
    b := InodeBlockNo(fs, dir, off);
    j := off % BLKSIZE / DIRENTRY_SIZE;
    var od := fs.Bytes(b)[128 * j + 4..128 * j + 128];
    hit := Word(fs.Bytes(b), 32 * j) != 0 && |CStr(od)| == |name| && od[..|name|] == name;
  }

  method FindDirentry(fs: Ospfs, dir: nat, name: seq<byte>) returns (found: bool, b: u32, j: nat, ghost e: nat)
    requires fs.Valid() && IsDir(fs.View(), fs.own, dir) && NamesOk(DirEntries(fs.View(), dir))
    ensures found <==> HasName(DirEntries(fs.View(), dir), name)
    ensures found ==> Place(fs.View(), dir, e, b, j)
    ensures found ==> DirEntries(fs.View(), dir)[e].Live() && DirEntries(fs.View(), dir)[e].name == name
  {
    hide ViewOf, HasGeometry, Consistent, NamesOk, DirEntries, Place, NBlocks;
    ghost var es := DirEntries(fs.View(), dir);
    DirSize(fs.View(), fs.own, dir);
    var off: nat := 0;
    e := 0;
    while off < fs.Oi(dir).size
      invariant off == DIRENTRY_SIZE * e && e <= |es|
      invariant forall f :: 0 <= f < e ==> !(es[f].Live() && es[f].name == name)
    {
      found, b, j := Matches(fs, dir, off, name, e);
      if found {
        return;
      }
      off := off + DIRENTRY_SIZE;
      e := e + 1;
    }
    found, b, j := false, 0, 0;
  }

  // ----- create_blank_direntry -----

  /** The first k blocks of a directory are full. */
  ghost predicate NoBlanks(s: FS, dir: nat, k: nat)
    requires dir < |s.inodes|
  {
    k <= NBlocks(s.inodes[dir]) && forall e :: 0 <= e < PER_BLOCK * k ==> DirEntries(s, dir)[e].Live()
  }

  /** e is the first empty entry. */
  ghost predicate FirstBlank(s: FS, dir: nat, e: nat) {
    && dir < |s.inodes| && e < |DirEntries(s, dir)| && !DirEntries(s, dir)[e].Live()
    && forall f :: 0 <= f < e ==> DirEntries(s, dir)[f].Live()
  }

  /** The first entry of one block that is free for use, if there is any */
  method BlankIn(fs: Ospfs, dir: nat, b: u32, ghost k: nat) returns (j: nat)
    requires fs.Valid() && IsDir(fs.View(), fs.own, dir) && k < NBlocks(fs.View().inodes[dir]) && NoBlanks(fs.View(), dir, k)
    requires b == At(fs.View().disk, fs.View().inodes[dir].ptrs, Data(k))
    ensures j <= PER_BLOCK
    ensures if j == PER_BLOCK then NoBlanks(fs.View(), dir, k + 1)
            else FirstBlank(fs.View(), dir, PER_BLOCK * k + j) && Place(fs.View(), dir, PER_BLOCK * k + j, b, j)
  {
    hide ViewOf, HasGeometry, Consistent, At, NBlocks;
    ghost var es := DirEntries(fs.View(), dir);
    PlaceOf(fs.View(), fs.own, dir, PER_BLOCK * k);
    j := 0;
    while j < PER_BLOCK
      invariant j <= PER_BLOCK
      invariant forall f :: 0 <= f < PER_BLOCK * k + j ==> es[f].Live()
    {
      ghost var e := PER_BLOCK * k + j;
      assert e / PER_BLOCK == k && e % PER_BLOCK == j;
      PlaceOf(fs.View(), fs.own, dir, e);
      if Word(fs.Bytes(b), 32 * j) == 0 {
        return;
      }
      j := j + 1;
    }
  }

  /** The scan of the direct blocks. */
  method ScanDirect(fs: Ospfs, dir: nat, n: nat) returns (b: u32, j: nat, cur: nat)
    requires fs.Valid() && IsDir(fs.View(), fs.own, dir) && n == NBlocks(fs.View().inodes[dir])
    ensures j <= PER_BLOCK && cur <= n
    ensures if j == PER_BLOCK then cur == Min(NDIRECT, n) && NoBlanks(fs.View(), dir, cur)
            else cur < NDIRECT && FirstBlank(fs.View(), dir, PER_BLOCK * cur + j) && Place(fs.View(), dir, PER_BLOCK * cur + j, b, j)
  {
    hide ViewOf, HasGeometry, Consistent, FirstBlank, Place, NBlocks, DirEntries;
    cur, b, j := 0, 0, PER_BLOCK;
    while cur < NDIRECT && cur < n
      invariant cur <= Min(NDIRECT, n) && NoBlanks(fs.View(), dir, cur) && j == PER_BLOCK
    {
      b := fs.Oi(dir).ptrs.direct[cur];
      j := BlankIn(fs, dir, b, cur);
      if j < PER_BLOCK {
        return;
      }
      cur := cur + 1;
    }
  }

  /** The scan of the blocks listed in the indirect block. */
  method ScanIndirect(fs: Ospfs, dir: nat, n: nat, start: nat) returns (b: u32, j: nat, cur: nat)
    requires fs.Valid() && IsDir(fs.View(), fs.own, dir) && n == NBlocks(fs.View().inodes[dir])
    requires start == Min(NDIRECT, n) && NoBlanks(fs.View(), dir, start)
    ensures j <= PER_BLOCK && cur <= n
    ensures if j == PER_BLOCK then cur == Min(NFLAT, n) && NoBlanks(fs.View(), dir, cur)
            else cur < NFLAT && FirstBlank(fs.View(), dir, PER_BLOCK * cur + j) && Place(fs.View(), dir, PER_BLOCK * cur + j, b, j)
  {
    hide ViewOf, HasGeometry, Consistent, FirstBlank, Place, NBlocks, DirEntries, NoBlanks;
    cur, b, j := start, 0, PER_BLOCK;
    if cur < n {
      IndirectOf(fs.View(), fs.own, dir, n);
    }
    var i: nat := 0;
    while i < NINDIRECT && cur < n
      invariant start <= cur <= n && (start == NDIRECT ==> cur == NDIRECT + i) && i <= NINDIRECT && j == PER_BLOCK
      invariant NoBlanks(fs.View(), dir, cur)
    {
      b := fs.Peek(fs.Oi(dir).ptrs.indirect, i);
      j := BlankIn(fs, dir, b, cur);
      if j < PER_BLOCK {
        return;
      }
      i, cur := i + 1, cur + 1;
    }
  }

  lemma IndirectOf(s: FS, own: Owners, dir: nat, n: nat)
    requires IsDir(s, own, dir) && n == NBlocks(s.inodes[dir]) && n > NDIRECT
    ensures s.geo.DataStart() <= s.inodes[dir].ptrs.indirect < |s.disk|
  {
    assert FileOk(s.disk, s.inodes[dir], dir, own);
    assert Needs(n, Ind) && At(s.disk, s.inodes[dir].ptrs, Ind) in own;
    OwnedIsUsable(s, own, s.inodes[dir].ptrs.indirect);
  }

  /**
   * The third scan is meant for blocks beyond the indirect block, but it looks into blocks listed in the indirect
   * block again, and these are known to be full.
   */
  method ScanAgain(fs: Ospfs, dir: nat, n: nat, start: nat) returns (j: nat)
    requires fs.Valid() && IsDir(fs.View(), fs.own, dir) && n == NBlocks(fs.View().inodes[dir])
    requires start == Min(NFLAT, n) && NoBlanks(fs.View(), dir, start)
    ensures j == PER_BLOCK
  {
    hide ViewOf, HasGeometry, Consistent, FirstBlank, Place, NBlocks, DirEntries, NoBlanks;
    DirSize(fs.View(), fs.own, dir);
    var cur := start;
    if cur < n {
      IndirectOf(fs.View(), fs.own, dir, n);
    }
    j := PER_BLOCK;
    var i: nat := 0;
    while i < NINDIRECT && cur < n
      invariant start <= cur <= n && j == PER_BLOCK && (start == NFLAT ==> cur == n || cur == NFLAT + NINDIRECT * i)
    {
      var k: nat := 0;
      ghost var c0 := cur;
      while k < NINDIRECT && cur < n
        invariant c0 <= cur <= n && cur == c0 + k && k <= NINDIRECT && j == PER_BLOCK
      {
        assert i < NFLAT - NDIRECT;
        var b := fs.Peek(fs.Oi(dir).ptrs.indirect, i);
        FullBefore(fs.View(), dir, start, NDIRECT + i);
        j := BlankIn(fs, dir, b, NDIRECT + i);
        FullMeansLive(fs.View(), dir, start, NDIRECT + i, j);
        k, cur := k + 1, cur + 1;
      }
      i := i + 1;
    }
  }

  lemma FullBefore(s: FS, dir: nat, k: nat, m: nat)
    requires dir < |s.inodes| && NoBlanks(s, dir, k) && m <= k
    ensures NoBlanks(s, dir, m)
  {
  }

  lemma FullMeansLive(s: FS, dir: nat, k: nat, m: nat, j: nat)
    requires dir < |s.inodes| && NoBlanks(s, dir, k) && m < k && j <= PER_BLOCK
    requires j < PER_BLOCK ==> FirstBlank(s, dir, PER_BLOCK * m + j)
    ensures j == PER_BLOCK
  {
  }

  /** An empty entry among the blocks that create_blank_direntry really looks at, or the blocks for another one. */
  ghost predicate HasRoom(s: FS, dir: nat)
    requires dir < |s.inodes|
  {
    var n := NBlocks(s.inodes[dir]);
    !NoBlanks(s, dir, Min(NFLAT, n)) || |s.free| >= Cost(n, n + 1)
  }

  /** Entry e of the directory is empty; it was found there, or the directory got a block and it is the first entry in it. */
  ghost predicate Room(s: FS, own: Owners, t: FS, own': Owners, dir: nat, e: nat) {
    && dir < |s.inodes| && IsDir(t, own', dir) && e < |DirEntries(t, dir)|
    && if !NoBlanks(s, dir, Min(NFLAT, NBlocks(s.inodes[dir]))) then t == s && own' == own && FirstBlank(s, dir, e)
       else Grew(s, own, t, own', dir) && e == |DirEntries(s, dir)| && DirEntries(t, dir) == DirEntries(s, dir) + Blanks(PER_BLOCK)
  }

  lemma GrownDir(s: FS, own: Owners, t: FS, own': Owners, dir: nat)
    requires IsDir(s, own, dir) && Grew(s, own, t, own', dir) && Consistent(t, own')
    ensures IsDir(t, own', dir) && NBlocks(t.inodes[dir]) == NBlocks(s.inodes[dir]) + 1
    ensures t.inodes[dir].size == BLKSIZE * (NBlocks(s.inodes[dir]) + 1)
    ensures DirEntries(t, dir) == DirEntries(s, dir) + Blanks(PER_BLOCK)
  {
    var n := NBlocks(s.inodes[dir]);
    assert GrewTo(s, own, t, own', dir, n, n + 1);
    hide Consistent, OthersSame, OwnersResized;
    assert TreeResized(s.disk, s.inodes[dir].ptrs, t.disk, t.inodes[dir].ptrs, n, n + 1);
    hide TreeResized;
    EntriesAfterGrowth(s.disk, s.inodes[dir].ptrs, t.disk, t.inodes[dir].ptrs, n);
  }

  /** The three scans. */
  method ScanForBlank(fs: Ospfs, dir: nat, n: nat) returns (b: u32, j: nat, ghost e: nat)
    requires fs.Valid() && IsDir(fs.View(), fs.own, dir) && n == NBlocks(fs.View().inodes[dir])
    ensures j <= PER_BLOCK && (j == PER_BLOCK <==> NoBlanks(fs.View(), dir, Min(NFLAT, n)))
    ensures j < PER_BLOCK ==> FirstBlank(fs.View(), dir, e) && Place(fs.View(), dir, e, b, j)
  {
    hide ViewOf, HasGeometry, Consistent, FirstBlank, Place, NBlocks, DirEntries, NoBlanks;
    var cur;
    b, j, cur := ScanDirect(fs, dir, n);
    if j == PER_BLOCK {
      b, j, cur := ScanIndirect(fs, dir, n, cur);
    }
    e := PER_BLOCK * cur + j;
    if j < PER_BLOCK {
      DirBlocks(fs.View(), fs.own, dir);
      FirstBlankIs(fs.View(), dir, e);
      NotFull(fs.View(), dir, e, Min(NFLAT, n));
    } else {
      j := ScanAgain(fs, dir, n, cur);
    }
  }

  /** The directory gets a block; its first entry is the one returned. */
  method BlankInNewBlock(fs: Ospfs, dir: nat) returns (r: int, b: u32, j: nat, ghost e: nat)
    requires fs.Valid() && IsDir(fs.View(), fs.own, dir)
    requires NoBlanks(fs.View(), dir, Min(NFLAT, NBlocks(fs.View().inodes[dir])))
    modifies fs`own, fs.data
    ensures fs.Valid() && r == if HasRoom(old(fs.View()), dir) then 0 else -ENOSPC
    ensures r == 0 ==> Room(old(fs.View()), old(fs.own), fs.View(), fs.own, dir, e) && Place(fs.View(), dir, e, b, j)
    ensures r != 0 ==> Refused(old(fs.View()), old(fs.own), fs.View(), fs.own, dir) && Consistent(fs.View(), fs.own)
  {
    hide ViewOf, HasGeometry, Consistent, FirstBlank, Place, NBlocks, DirEntries, NoBlanks, Grew, Refused;
    ghost var s, own, n := fs.View(), fs.own, NBlocks(fs.View().inodes[dir]);
    DirBlocks(s, own, dir);
    r := AddBlock(fs, dir);
    e, b, j := PER_BLOCK * n, 0, 0;
    if r < 0 {
      return;
    }
    GrownDir(s, own, fs.View(), fs.own, dir);
    DirBlocks(fs.View(), fs.own, dir);
    PlaceOf(fs.View(), fs.own, dir, e);
    var off := fs.Oi(dir).size - BLKSIZE;
    assert off / BLKSIZE == n == e / PER_BLOCK && off % BLKSIZE / DIRENTRY_SIZE == 0 == e % PER_BLOCK;
    b := InodeBlockNo(fs, dir, off);
    j := off % BLKSIZE / DIRENTRY_SIZE;
    assert b == At(fs.View().disk, fs.View().inodes[dir].ptrs, Data(e / PER_BLOCK));
  }

  method CreateBlankDirentry(fs: Ospfs, dir: nat) returns (r: int, b: u32, j: nat, ghost e: nat)
    requires fs.Valid() && IsDir(fs.View(), fs.own, dir)
    modifies fs`own, fs.data
    ensures fs.Valid() && r == if HasRoom(old(fs.View()), dir) then 0 else -ENOSPC
    ensures r == 0 ==> Room(old(fs.View()), old(fs.own), fs.View(), fs.own, dir, e) && Place(fs.View(), dir, e, b, j)
    ensures r != 0 ==> Refused(old(fs.View()), old(fs.own), fs.View(), fs.own, dir) && Consistent(fs.View(), fs.own)
  {
    hide ViewOf, HasGeometry, Consistent, FirstBlank, Place, NBlocks, DirEntries, NoBlanks, Grew, Refused;
    var n := Size2NBlocks(fs.Oi(dir).size);
    DirBlocks(fs.View(), fs.own, dir);
    b, j, e := ScanForBlank(fs, dir, n);
    if j < PER_BLOCK {
      FirstBlankIs(fs.View(), dir, e);
      return 0, b, j, e;
    }
    r, b, j, e := BlankInNewBlock(fs, dir);
  }

  lemma FirstBlankIs(s: FS, dir: nat, e: nat)
    requires FirstBlank(s, dir, e)
    ensures dir < |s.inodes| && e < |DirEntries(s, dir)|
  {
  }

  lemma DirBlocks(s: FS, own: Owners, dir: nat)
    requires IsDir(s, own, dir)
    ensures NBlocks(s.inodes[dir]) == Size2NBlocks(s.inodes[dir].size)
    ensures |DirEntries(s, dir)| == PER_BLOCK * NBlocks(s.inodes[dir]) && s.inodes[dir].ftype != FTYPE_SYMLINK
    ensures BLKSIZE * NBlocks(s.inodes[dir]) == s.inodes[dir].size
  {
    DirSize(s, own, dir);
  }

  lemma NotFull(s: FS, dir: nat, e: nat, k: nat)
    requires FirstBlank(s, dir, e) && e < PER_BLOCK * k
    ensures !NoBlanks(s, dir, k)
  {
  }
}
