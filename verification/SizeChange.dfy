/** change_size as it is written, when it meets its own comment, and a repaired version that always does. */
module SizeChange {
  import opened Words
  import opened BlockTree
  import opened FileSystem
  import opened Ownership
  import opened Resizing
  import opened Appending
  import opened Image
  import opened FileSize

  lemma {:induction false} TotalIsMonotone(n: nat, m: nat)
    requires n <= m
    ensures Total(n) <= Total(m)
    decreases m - n
  {
    if n < m {
      assert Subs(n) <= Subs(n + 1);
      TotalIsMonotone(n + 1, m);
    }
  }

  /** Enough blocks are free to go from n to m blocks. */
  predicate Fits(n: nat, m: nat, free: nat) {
    m <= n || Cost(n, m) <= free
  }

  /** Growing from n towards m blocks runs out exactly where add_block leaves a pointer to a freed block behind. */
  predicate StaleOnTheWay(n: nat, m: nat, free: nat) {
    n <= NFLAT < m && Cost(n, NFLAT) + 2 == free
  }

  /** How far growing from n blocks gets: k blocks are there, the next one is too many. */
  lemma WhereGrowthStops(n: nat, k: nat, m: nat, free: nat)
    requires n <= k < m && Cost(n, k) <= free && free - Cost(n, k) < Cost(k, k + 1)
    ensures !Fits(n, m, free)
    ensures LeavesStale(k, (free - Cost(n, k)) as nat) <==> StaleOnTheWay(n, m, free)
  {
    TotalIsMonotone(k + 1, m);
    if k < NFLAT {
      if n <= NFLAT < m { TotalIsMonotone(k + 1, NFLAT); }
    } else if k > NFLAT {
      TotalIsMonotone(NFLAT + 1, k);
    }
  }

  // ----- one file on its way from n to m blocks -----

  /** File i has gone from n to m blocks; its size field may still be wrong within the last block. */
  ghost predicate Moved(s: FS, own: Owners, t: FS, own': Owners, i: nat, n: nat, m: nat) {
    && Consistent(s, own) && Consistent(t, own') && Resized(s, own, t, own', i, n, m)
    && n == NBlocks(s.inodes[i]) && m == NBlocks(t.inodes[i]) && s.inodes[i].ftype != FTYPE_SYMLINK
  }

  lemma MovedOnwards(s: FS, own: Owners, s1: FS, own1: Owners, s2: FS, own2: Owners, i: nat, n: nat, m: nat, q: nat)
    requires Moved(s, own, s1, own1, i, n, m) && Consistent(s2, own2) && Resized(s1, own1, s2, own2, i, m, q)
    requires q == NBlocks(s2.inodes[i]) && m >= Min(n, q)
    ensures Moved(s, own, s2, own2, i, n, q)
  {
    hide TreeOk, TreeResized, OwnersResized;
    assert FileOk(s.disk, s.inodes[i], i, own) && FileOk(s2.disk, s2.inodes[i], i, own2);
    assert TreeOk(s.disk, s.inodes[i].ptrs, i, own, n) && TreeOk(s2.disk, s2.inodes[i].ptrs, i, own2, q);
    OwnsWhatItNeeds(s.disk, s.inodes[i].ptrs, i, own, n);
    OwnsWhatItNeeds(s2.disk, s2.inodes[i].ptrs, i, own2, q);
    hide Consistent, Resized;
    ResizedTransitive(s, own, s1, own1, s2, own2, i, n, m, q);
    ResizedKeepsType(s, own, s2, own2, i, n, q);
  }

  lemma ResizedKeepsType(s: FS, own: Owners, t: FS, own': Owners, i: nat, n: nat, m: nat)
    requires Resized(s, own, t, own', i, n, m)
    ensures i < |s.inodes| == |t.inodes| && t.inodes[i].ftype == s.inodes[i].ftype
  {
  }

  lemma OwnsWhatItNeeds(d: seq<Cell>, p: Pointers, i: nat, own: Owners, n: nat)
    requires TreeOk(d, p, i, own, n)
    ensures forall b :: b in own && own[b].ino == i ==> Needs(n, own[b].slot)
  {
  }

  lemma GrewMoved(s: FS, own: Owners, t: FS, ownT: Owners, t': FS, own': Owners, i: nat, n: nat, m: nat)
    requires Moved(s, own, t, ownT, i, n, m) && n <= m && Consistent(t', own') && Grew(t, ownT, t', own', i)
    ensures i < |t'.inodes| && Moved(s, own, t', own', i, n, m + 1) && !Stale(t'.inodes[i]) && t'.inodes[i].size == BLKSIZE * (m + 1)
    ensures |t'.free| == |t.free| - Cost(m, m + 1)
  {
    hide Moved, Consistent, Resized, TreeOk, Total;
    MovedFile(s, own, t, ownT, i, n, m);
    assert GrewTo(t, ownT, t', own', i, m, m + 1);
    ResizedKeepsType(t, ownT, t', own', i, m, m + 1);
    MovedOnwards(s, own, t, ownT, t', own', i, n, m, m + 1);
  }

  /** One more block removed; a stale pointer stays exactly as stale as it was. */
  lemma ShrankMoved(s: FS, own: Owners, t: FS, ownT: Owners, t': FS, own': Owners, i: nat, n: nat, m: nat)
    requires Moved(s, own, t, ownT, i, n, m) && Consistent(t', own') && Shrank(t, ownT, t', own', i)
    ensures i < |t'.inodes| && Moved(s, own, t', own', i, n, Before(m)) && (Stale(t'.inodes[i]) <==> Stale(t.inodes[i]))
    ensures if m > 0 then t'.inodes[i].size == BLKSIZE * Before(m) else t' == t
  {
    hide Moved, Consistent, Resized;
    MovedFile(s, own, t, ownT, i, n, m);
    if m > 0 {
      ResizedKeepsType(t, ownT, t', own', i, m, m - 1);
      MovedOnwards(s, own, t, ownT, t', own', i, n, m, m - 1);
    }
  }

  function Before(n: nat): nat { if n == 0 then 0 else n - 1 }

  /** What change_size leaves behind when the disk is full: one block fewer than the file had. */
  ghost predicate RolledBack(s: FS, own: Owners, t: FS, own': Owners, i: nat, m: nat) {
    && i < |s.inodes| && var n := NBlocks(s.inodes[i]);
    && Moved(s, own, t, own', i, n, Before(n))
    && t.inodes[i].size == BLKSIZE * Before(n)
    && (Stale(t.inodes[i]) <==> StaleOnTheWay(n, m, |s.free|))
  }

  /** What change_size leaves behind when it succeeds. */
  ghost predicate SizeSet(s: FS, own: Owners, t: FS, own': Owners, i: nat, size: u32) {
    && i < |s.inodes| && Resized(s, own, t, own', i, NBlocks(s.inodes[i]), Size2NBlocks(size))
    && t.inodes[i].size == size && !Stale(t.inodes[i])
    && (size <= MAX_SIZE ==> Consistent(t, own'))
  }

  lemma SizeStored(s: FS, own: Owners, t: FS, own': Owners, i: nat, n: nat, size: u32, t': FS)
    requires Moved(s, own, t, own', i, n, Size2NBlocks(size)) && !Stale(t.inodes[i])
    requires t' == t.(inodes := t.inodes[i := SetField(t.inodes[i], F_SIZE, size)])
    ensures SizeSet(s, own, t', own', i, size)
  {
    Size2NBlocksIsCeiling(size);
    if size <= MAX_SIZE {
      assert FileOk(t.disk, t.inodes[i], i, own');
      assert FileOk(t'.disk, t'.inodes[i], i, own');
      ConsistentFromOneFile(t, own', t', own', i);
    }
  }

  lemma NotMovedYet(s: FS, own: Owners, i: nat)
    requires Consistent(s, own) && i < |s.inodes| && s.inodes[i].ftype != FTYPE_SYMLINK
    ensures Moved(s, own, s, own, i, NBlocks(s.inodes[i]), NBlocks(s.inodes[i]))
  {
  }

  lemma RefusedMoved(s: FS, own: Owners, t: FS, ownT: Owners, t': FS, own': Owners, i: nat, n: nat, m: nat)
    requires Moved(s, own, t, ownT, i, n, m) && n <= m && Consistent(t', own') && Refused(t, ownT, t', own', i) && !Stale(t.inodes[i])
    ensures i < |t'.inodes| && Moved(s, own, t', own', i, n, m) && t'.inodes[i].size == t.inodes[i].size
    ensures Stale(t'.inodes[i]) <==> LeavesStale(m, |t.free|)
  {
    if LeavesStale(m, |t.free|) { ZeroIsNotOwned(t, ownT); }
    MovedOnwards(s, own, t, ownT, t', own', i, n, m, m);
  }

  function Monus(a: nat, b: nat): nat { if a <= b then 0 else a - b }

  /** abort: removes 'count' blocks, at most one more than were added. */
  method RollBack(fs: Ospfs, i: nat, count: nat, ghost s: FS, ghost own: Owners, ghost n: nat, ghost m: nat)
    requires fs.Valid() && Moved(s, own, fs.View(), fs.own, i, n, m) && n + count <= m + 1
    modifies fs`own, fs.data
    ensures fs.Valid() && i < |fs.View().inodes| && Moved(s, own, fs.View(), fs.own, i, n, Monus(m, count))
    ensures count > 0 ==> fs.View().inodes[i].size == BLKSIZE * Monus(m, count)
    ensures Stale(fs.View().inodes[i]) <==> old(Stale(fs.View().inodes[i]))
  {
    hide ViewOf, HasGeometry, Moved, Shrank, Consistent;
    MovedFile(s, own, fs.View(), fs.own, i, n, m);
    ghost var stale := Stale(fs.View().inodes[i]);
    var c: nat := count;
    while c > 0
      invariant fs.Valid() && c <= count && Moved(s, own, fs.View(), fs.own, i, n, Monus(m, count - c))
      invariant i < |fs.View().inodes| && Stale(fs.View().inodes[i]) == stale
      invariant c < count ==> fs.View().inodes[i].size == BLKSIZE * Monus(m, count - c)
    {
      ghost var t, ownT, k := fs.View(), fs.own, Monus(m, count - c);
      MovedFile(s, own, t, ownT, i, n, k);
      var e := RemoveBlock(fs, i);
      ShrankMoved(s, own, t, ownT, fs.View(), fs.own, i, n, k);
      c := c - 1;
    }
  }

  lemma MovedFile(s: FS, own: Owners, t: FS, own': Owners, i: nat, n: nat, m: nat)
    requires Moved(s, own, t, own', i, n, m)
    ensures i < |s.inodes| == |t.inodes| && t.inodes[i].ftype != FTYPE_SYMLINK && Consistent(t, own') && m == NBlocks(t.inodes[i])
    ensures m == 0 ==> t.inodes[i].size == 0
  {
    assert FileOk(t.disk, t.inodes[i], i, own');
  }

  /** The loop that adds blocks, and the jump to abort when one of the additions fails. */
  method AddBlocks(fs: Ospfs, i: nat, oldBlocks: nat, newBlocks: nat, ghost s: FS, ghost own: Owners) returns (r: int, count: nat)
    requires fs.Valid() && Moved(s, own, fs.View(), fs.own, i, oldBlocks, oldBlocks) && fs.View() == s
    requires !Stale(s.inodes[i])
    modifies fs`own, fs.data
    ensures fs.Valid() && (count == 0 <==> newBlocks <= oldBlocks)
    ensures r == if Fits(oldBlocks, newBlocks, |s.free|) then 0 else -ENOSPC
    ensures r == 0 ==> Moved(s, own, fs.View(), fs.own, i, oldBlocks, oldBlocks + count) && oldBlocks + count == Max(oldBlocks, newBlocks)
    ensures r == 0 ==> !Stale(fs.View().inodes[i])
    ensures r != 0 ==> RolledBack(s, own, fs.View(), fs.own, i, newBlocks)
  {
    hide ViewOf, HasGeometry, Moved, Consistent, Grew, Refused;
    count, r := 0, 0;
    MovedFile(s, own, s, fs.own, i, oldBlocks, oldBlocks);
    while oldBlocks + count < newBlocks
      invariant fs.Valid() && r == 0
      invariant Moved(s, own, fs.View(), fs.own, i, oldBlocks, oldBlocks + count)
      invariant i < |fs.View().inodes| && !Stale(fs.View().inodes[i])
      invariant count == 0 || oldBlocks + count <= newBlocks
      invariant |fs.View().free| == |s.free| - Cost(oldBlocks, oldBlocks + count)
    {
      ghost var t, ownT, m := fs.View(), fs.own, oldBlocks + count;
      MovedFile(s, own, t, ownT, i, oldBlocks, m);
      r := AddBlock(fs, i);
      count := count + 1;
      if r < 0 {
        RefusedMoved(s, own, t, ownT, fs.View(), fs.own, i, oldBlocks, m);
        WhereGrowthStops(oldBlocks, m, newBlocks, |s.free|);
        RollBack(fs, i, count, s, own, oldBlocks, m);
        assert Monus(m, count) == Before(oldBlocks);
        return;
      }
      GrewMoved(s, own, t, ownT, fs.View(), fs.own, i, oldBlocks, m);
    }
  }

  function Max(a: nat, b: nat): nat { if a <= b then b else a }

  method RemoveBlocks(fs: Ospfs, i: nat, oldBlocks: nat, newBlocks: nat, ghost s: FS, ghost own: Owners)
    requires fs.Valid() && Moved(s, own, fs.View(), fs.own, i, oldBlocks, oldBlocks) && newBlocks <= oldBlocks
    requires !Stale(fs.View().inodes[i])
    modifies fs`own, fs.data
    ensures fs.Valid() && Moved(s, own, fs.View(), fs.own, i, oldBlocks, newBlocks)
    ensures !Stale(fs.View().inodes[i])
  {
    hide ViewOf, HasGeometry, Moved, Consistent, Shrank;
    MovedFile(s, own, fs.View(), fs.own, i, oldBlocks, oldBlocks);
    var count := 0;
    while oldBlocks > newBlocks + count
      invariant fs.Valid() && 0 <= count <= oldBlocks - newBlocks
      invariant Moved(s, own, fs.View(), fs.own, i, oldBlocks, oldBlocks - count)
      invariant i < |fs.View().inodes| && !Stale(fs.View().inodes[i])
    {
      ghost var t, ownT, m := fs.View(), fs.own, oldBlocks - count;
      MovedFile(s, own, t, ownT, i, oldBlocks, m);
      var r := RemoveBlock(fs, i);
      count := count + 1;
      ShrankMoved(s, own, t, ownT, fs.View(), fs.own, i, oldBlocks, m);
    }
  }

  method ChangeSize(fs: Ospfs, i: nat, newSize: u32) returns (r: int)
    requires fs.Valid() && Consistent(fs.View(), fs.own) && i < |fs.View().inodes|
    requires fs.View().inodes[i].ftype != FTYPE_SYMLINK && !Stale(fs.View().inodes[i])
    modifies fs`own, fs.data
    ensures fs.Valid()
    ensures ChangedSize(old(fs.View()), old(fs.own), fs.View(), fs.own, i, newSize, r)
  {
    hide ViewOf, HasGeometry, Moved, Consistent, RolledBack, SizeSet;
    ghost var s, own := fs.View(), fs.own;
    var oldBlocks := Size2NBlocks(fs.Oi(i).size);
    var newBlocks := Size2NBlocks(newSize);
    NotMovedYet(s, own, i);
    var count;
    r, count := AddBlocks(fs, i, oldBlocks, newBlocks, s, own);
    if r < 0 {
      return;
    }
    if count == 0 {
      RemoveBlocks(fs, i, oldBlocks, newBlocks, s, own);
    }
    StoreSize(fs, i, newSize, s, own, oldBlocks);
  }

  // ----- the comment above change_size -----

  function CeilingBlocks(size: nat): nat { (size + BLKSIZE - 1) / BLKSIZE }

  /**
   * On success the file has the size asked for, in exactly as many blocks as that takes, keeping the blocks and bytes
   * both sizes share; when the disk is full, size, blocks and contents are those of before.
   */
  ghost predicate MeetsItsComment(s: FS, own: Owners, t: FS, own': Owners, i: nat, size: u32, r: int) {
    && i < |s.inodes| == |t.inodes| && Consistent(t, own') && !Stale(t.inodes[i])
    && (r == 0 ==> t.inodes[i].size == size && NBlocks(t.inodes[i]) == CeilingBlocks(size)
                   && Resized(s, own, t, own', i, NBlocks(s.inodes[i]), CeilingBlocks(size)))
    && (r != 0 ==> t.inodes[i].size == s.inodes[i].size && own' == own && t.free == s.free
                   && Resized(s, own, t, own', i, NBlocks(s.inodes[i]), NBlocks(s.inodes[i])))
  }

  /** The outcome of ChangeSize, as its postcondition gives it. */
  ghost predicate ChangedSize(s: FS, own: Owners, t: FS, own': Owners, i: nat, size: u32, r: int) {
    && i < |s.inodes|
    && r == (if Fits(NBlocks(s.inodes[i]), Size2NBlocks(size), |s.free|) then 0 else -ENOSPC)
    && if r == 0 then SizeSet(s, own, t, own', i, size) else RolledBack(s, own, t, own', i, Size2NBlocks(size))
  }

  lemma SizeDeterminesBlocks(s: FS, own: Owners, i: nat)
    requires Consistent(s, own) && i < |s.inodes| && s.inodes[i].ftype != FTYPE_SYMLINK
    ensures var n := NBlocks(s.inodes[i]); if n == 0 then s.inodes[i].size == 0 else BLKSIZE * Before(n) < s.inodes[i].size
  {
    assert FileOk(s.disk, s.inodes[i], i, own);
    Size2NBlocksIsCeiling(s.inodes[i].size);
  }

  /** change_size does what its comment promises exactly when this holds of the state it is called in. */
  predicate CommentHolds(n: nat, size: u32, free: nat) {
    && size <= MAX_SIZE
    && (Fits(n, Size2NBlocks(size), free) || (n == 0 && !StaleOnTheWay(n, Size2NBlocks(size), free)))
  }

  lemma ChangeSizeMeetsItsCommentIff(s: FS, own: Owners, t: FS, own': Owners, i: nat, size: u32, r: int)
    requires Consistent(s, own) && i < |s.inodes| && s.inodes[i].ftype != FTYPE_SYMLINK
    requires ChangedSize(s, own, t, own', i, size, r)
    ensures MeetsItsComment(s, own, t, own', i, size, r) <==> CommentHolds(NBlocks(s.inodes[i]), size, |s.free|)
  {
    hide Consistent, Resized;
    var n := NBlocks(s.inodes[i]);
    Size2NBlocksIsCeiling(size);
    SizeDeterminesBlocks(s, own, i);
    if r == 0 {
      ResizedKeepsType(s, own, t, own', i, n, Size2NBlocks(size));
    } else {
      MovedFile(s, own, t, own', i, n, Before(n));
      if n == 0 {
        ResizedBack(s, own, t, own', i, n);
      }
    }
  }

  /** A disk whose only data block is the only block of file 0, one byte long. */
  function FullDisk(): (s: FS) {
    var ptrs := Pointers([4, 0, 0, 0, 0, 0, 0, 0, 0, 0], 0, 0);
    FS(Geometry(5, 1, 3), seq(5, _ => CellOf(ZeroBlock())), [Inode(1, FTYPE_REG, 1, 0, ptrs)], {})
  }

  lemma FullDiskIsConsistent()
    ensures Inv(FullDisk(), map[4 := Owner(0, Data(0))])
  {
    var s, own: Owners := FullDisk(), map[4 := Owner(0, Data(0))];
    forall slot
      ensures Needs(1, slot) ==> slot == Data(0)
      ensures ScannedAsUnused(1, slot) ==> slot == Ind
    {
      match slot case Data(k) => case Ind => case Ind2 => case Sub(t) =>
    }
    assert At(s.disk, s.inodes[0].ptrs, Data(0)) == 4;
    assert FileOk(s.disk, s.inodes[0], 0, own);
  }

  /** Asking for a second block on a full disk empties the file instead of leaving it alone. */
  lemma RollBackLosesABlock(t: FS, own': Owners, r: int)
    requires ChangedSize(FullDisk(), map[4 := Owner(0, Data(0))], t, own', 0, 1025, r)
    ensures r == -ENOSPC && t.inodes[0].size == 0 && FullDisk().inodes[0].size == 1
  {
    assert !Fits(1, 2, 0);
  }

  // ----- repaired -----

  /** add_block with oi_indirect2 cleared again where its block is freed. */
  method AddBlockRepaired(fs: Ospfs, i: nat) returns (r: int)
    requires fs.Valid() && Consistent(fs.View(), fs.own) && i < |fs.View().inodes|
    requires fs.View().inodes[i].ftype != FTYPE_SYMLINK && !Stale(fs.View().inodes[i])
    modifies fs`own, fs.data
    ensures fs.Valid() && Consistent(fs.View(), fs.own)
    ensures r == if |old(fs.View()).free| >= old(Cost(NBlocks(fs.View().inodes[i]), NBlocks(fs.View().inodes[i]) + 1)) then 0 else -ENOSPC
    ensures r == 0 ==> Grew(old(fs.View()), old(fs.own), fs.View(), fs.own, i)
    ensures r != 0 ==> RefusedCleanly(old(fs.View()), old(fs.own), fs.View(), fs.own, i)
  {
    hide ViewOf, HasGeometry, Grew, Consistent, Refused, RefusedCleanly;
    ghost var s, own := fs.View(), fs.own;
    var e := fs.Oi(i).ptrs.indirect2;
    r := AddBlock(fs, i);
    if r < 0 {
      ghost var t := fs.View();
      RefusedShape(s, own, t, fs.own, i);
      fs.PokeInode(i, F_INDIRECT2, e);
      PointerRestored(s, own, t, fs.own, i, fs.View());
    }
  }

  /** Nothing but the content of free blocks changed. */
  ghost predicate RefusedCleanly(s: FS, own: Owners, t: FS, own': Owners, i: nat) {
    && i < |s.inodes| && t.inodes == s.inodes && t.free == s.free && own' == own
    && Resized(s, own, t, own', i, NBlocks(s.inodes[i]), NBlocks(s.inodes[i]))
  }

  lemma RefusedShape(s: FS, own: Owners, t: FS, own': Owners, i: nat)
    requires Refused(s, own, t, own', i) && Consistent(t, own')
    ensures i < |t.inodes| == |t.inodes| == t.geo.ninodes
  {
  }

  lemma PointerRestored(s: FS, own: Owners, t: FS, own': Owners, i: nat, t': FS)
    requires Consistent(s, own) && Consistent(t, own') && Refused(s, own, t, own', i) && s.inodes[i].ftype != FTYPE_SYMLINK
    requires t' == t.(inodes := t.inodes[i := SetField(t.inodes[i], F_INDIRECT2, s.inodes[i].ptrs.indirect2)])
    ensures Consistent(t', own') && RefusedCleanly(s, own, t', own', i)
  {
    hide TreeOk, OthersKeep, TreeResized, FileOk;
    var n := NBlocks(s.inodes[i]);
    assert t'.inodes[i] == s.inodes[i];
    assert t'.inodes == s.inodes;
    assert Moved(s, own, t, own', i, n, n);
    if LeavesStale(n, |s.free|) {
      NothingLinked(t, own', t', i);
      MovedOnwards(s, own, t, own', t', own', i, n, n, n);
    } else {
      assert t' == t;
    }
  }

  /** change_size that counts the additions that succeeded, and puts the old size back when one fails. */
  /** The loop that adds blocks; when one of the additions fails, size and blocks are put back. */
  method AddBlocksRepaired(fs: Ospfs, i: nat, oldSize: u32, newSize: u32, ghost s: FS, ghost own: Owners) returns (r: int, count: nat)
    requires fs.Valid() && fs.View() == s && fs.own == own && i < |s.inodes| && oldSize == s.inodes[i].size && !Stale(s.inodes[i])
    requires Moved(s, own, s, own, i, NBlocks(s.inodes[i]), NBlocks(s.inodes[i]))
    modifies fs`own, fs.data
    ensures fs.Valid() && r == if Fits(NBlocks(s.inodes[i]), Size2NBlocks(newSize), |s.free|) then 0 else -ENOSPC
    ensures r != 0 ==> MeetsItsComment(s, own, fs.View(), fs.own, i, newSize, -ENOSPC)
    ensures r == 0 ==> Moved(s, own, fs.View(), fs.own, i, NBlocks(s.inodes[i]), Max(NBlocks(s.inodes[i]), Size2NBlocks(newSize)))
    ensures r == 0 ==> i < |fs.View().inodes| && !Stale(fs.View().inodes[i]) && (count == 0 ==> fs.View() == s && fs.own == own)
    ensures r == 0 ==> (count == 0 <==> Size2NBlocks(newSize) <= NBlocks(s.inodes[i]))
  {
    hide ViewOf, HasGeometry, Moved, Consistent, SizeSet, MeetsItsComment, RefusedCleanly, Grew, Size2NBlocks;
    MovedFile(s, own, s, own, i, NBlocks(s.inodes[i]), NBlocks(s.inodes[i]));
    var oldBlocks := Size2NBlocks(oldSize);
    var newBlocks := Size2NBlocks(newSize);
    count, r := 0, 0;
    while oldBlocks + count < newBlocks
      invariant fs.Valid() && r == 0
      invariant Moved(s, own, fs.View(), fs.own, i, oldBlocks, oldBlocks + count)
      invariant i < |fs.View().inodes| && !Stale(fs.View().inodes[i])
      invariant if count == 0 then fs.View() == s && fs.own == own else oldBlocks + count <= newBlocks
      invariant |fs.View().free| == |s.free| - Cost(oldBlocks, oldBlocks + count)
    {
      ghost var t, ownT, m := fs.View(), fs.own, oldBlocks + count;
      MovedFile(s, own, t, ownT, i, oldBlocks, m);
      r := AddBlockRepaired(fs, i);
      if r < 0 {
        RefusedCleanlyMoved(s, own, t, ownT, fs.View(), fs.own, i, oldBlocks, m);
        WhereGrowthStops(oldBlocks, m, newBlocks, |s.free|);
        PutBack(fs, i, count, oldSize, s, own, oldBlocks, m, newSize);
        return;
      }
      count := count + 1;
      GrewMoved(s, own, t, ownT, fs.View(), fs.own, i, oldBlocks, m);
    }
  }

  method ChangeSizeRepaired(fs: Ospfs, i: nat, newSize: u32) returns (r: int)
    requires fs.Valid() && Consistent(fs.View(), fs.own) && i < |fs.View().inodes|
    requires fs.View().inodes[i].ftype != FTYPE_SYMLINK && !Stale(fs.View().inodes[i]) && newSize <= MAX_SIZE
    modifies fs`own, fs.data
    ensures fs.Valid()
    ensures r == if Fits(NBlocks(old(fs.View()).inodes[i]), Size2NBlocks(newSize), |old(fs.View()).free|) then 0 else -ENOSPC
    ensures MeetsItsComment(old(fs.View()), old(fs.own), fs.View(), fs.own, i, newSize, r)
  {
    hide ViewOf, HasGeometry, Moved, Consistent, SizeSet, MeetsItsComment, Size2NBlocks;
    ghost var s, own := fs.View(), fs.own;
    NotMovedYet(s, own, i);
    var oldSize := fs.Oi(i).size;
    var count;
    r, count := AddBlocksRepaired(fs, i, oldSize, newSize, s, own);
    if r < 0 {
      return;
    }
    if count == 0 {
      RemoveBlocks(fs, i, Size2NBlocks(oldSize), Size2NBlocks(newSize), s, own);
    }
    StoreSize(fs, i, newSize, s, own, NBlocks(s.inodes[i]));
    SizeSetMeetsComment(s, own, fs.View(), fs.own, i, newSize);
  }

  method StoreSize(fs: Ospfs, i: nat, size: u32, ghost s: FS, ghost own: Owners, ghost n: nat)
    requires fs.Valid() && Moved(s, own, fs.View(), fs.own, i, n, Size2NBlocks(size)) && !Stale(fs.View().inodes[i])
    modifies fs.data
    ensures fs.Valid() && SizeSet(s, own, fs.View(), fs.own, i, size)
  {
    hide ViewOf, HasGeometry, Moved, SizeSet;
    ghost var t := fs.View();
    MovedFile(s, own, t, fs.own, i, n, Size2NBlocks(size));
    fs.PokeInode(i, F_SIZE, size);
    SizeStored(s, own, t, fs.own, i, n, size, fs.View());
  }

  /** Undoes 'count' additions and restores the size. */
  method PutBack(fs: Ospfs, i: nat, count: nat, oldSize: u32, ghost s: FS, ghost own: Owners, ghost n: nat, ghost m: nat, ghost size: u32)
    requires fs.Valid() && Moved(s, own, fs.View(), fs.own, i, n, m) && m == n + count && !Stale(fs.View().inodes[i])
    requires oldSize == s.inodes[i].size
    modifies fs`own, fs.data
    ensures fs.Valid() && MeetsItsComment(s, own, fs.View(), fs.own, i, size, -ENOSPC)
  {
    hide ViewOf, HasGeometry, Moved, SizeSet, MeetsItsComment;
    MovedFile(s, own, fs.View(), fs.own, i, n, m);
    MovedFrom(s, own, fs.View(), fs.own, i, n, m);
    RollBack(fs, i, count, s, own, n, m);
    StoreSize(fs, i, oldSize, s, own, n);
    SizeRestoredMeetsComment(s, own, fs.View(), fs.own, i, size);
  }

  lemma MovedFrom(s: FS, own: Owners, t: FS, own': Owners, i: nat, n: nat, m: nat)
    requires Moved(s, own, t, own', i, n, m)
    ensures Consistent(s, own) && s.inodes[i].ftype != FTYPE_SYMLINK && n == NBlocks(s.inodes[i])
    ensures s.inodes[i].size <= MAX_SIZE
  {
    assert FileOk(s.disk, s.inodes[i], i, own);
    Size2NBlocksIsCeiling(s.inodes[i].size);
  }

  lemma RefusedCleanlyMoved(s: FS, own: Owners, t: FS, ownT: Owners, t': FS, own': Owners, i: nat, n: nat, m: nat)
    requires Moved(s, own, t, ownT, i, n, m) && n <= m && Consistent(t', own') && RefusedCleanly(t, ownT, t', own', i)
    ensures i < |t'.inodes| && Moved(s, own, t', own', i, n, m) && t'.inodes[i] == t.inodes[i]
  {
    hide Consistent, TreeOk, TreeResized, OthersKeep;
    MovedFile(s, own, t, ownT, i, n, m);
    MovedOnwards(s, own, t, ownT, t', own', i, n, m, m);
  }

  lemma SizeSetMeetsComment(s: FS, own: Owners, t: FS, own': Owners, i: nat, size: u32)
    requires Consistent(s, own) && SizeSet(s, own, t, own', i, size) && size <= MAX_SIZE && s.inodes[i].ftype != FTYPE_SYMLINK
    ensures MeetsItsComment(s, own, t, own', i, size, 0)
  {
    hide Consistent, Resized;
    ResizedKeepsType(s, own, t, own', i, NBlocks(s.inodes[i]), Size2NBlocks(size));
  }

  lemma SizeRestoredMeetsComment(s: FS, own: Owners, t: FS, own': Owners, i: nat, size: u32)
    requires Consistent(s, own) && i < |s.inodes| && s.inodes[i].size <= MAX_SIZE && s.inodes[i].ftype != FTYPE_SYMLINK
    requires SizeSet(s, own, t, own', i, s.inodes[i].size)
    ensures MeetsItsComment(s, own, t, own', i, size, -ENOSPC)
  {
    hide Consistent, Resized;
    ResizedKeepsType(s, own, t, own', i, NBlocks(s.inodes[i]), NBlocks(s.inodes[i]));
    ResizedBack(s, own, t, own', i, NBlocks(s.inodes[i]));
  }

  // ----- add_block and remove_block undo each other -----

  /** remove_block after a successful add_block gives back the bitmap, the index-to-block map and the data. */
  lemma AddThenRemove(s: FS, own: Owners, t: FS, ownT: Owners, u: FS, ownU: Owners, i: nat)
    requires Consistent(s, own) && i < |s.inodes| && s.inodes[i].ftype != FTYPE_SYMLINK
    requires Grew(s, own, t, ownT, i) && Consistent(t, ownT) && Shrank(t, ownT, u, ownU, i) && Consistent(u, ownU)
    ensures ownU == own && u.free == s.free
    ensures Resized(s, own, u, ownU, i, NBlocks(s.inodes[i]), NBlocks(s.inodes[i]))
    ensures u.inodes[i].size == BLKSIZE * NBlocks(s.inodes[i]) && !Stale(u.inodes[i])
  {
    hide Consistent, Resized, Total;
    var n := NBlocks(s.inodes[i]);
    NotMovedYet(s, own, i);
    GrewMoved(s, own, s, own, t, ownT, i, n, n);
    ShrankMoved(s, own, t, ownT, u, ownU, i, n, n + 1);
    assert Moved(s, own, u, ownU, i, n, n);
    ResizedBack(s, own, u, ownU, i, n);
  }
}
