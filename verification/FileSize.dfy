/** add_block and remove_block. */
module FileSize {
  import opened Words
  import opened BlockTree
  import opened FileSystem
  import opened Ownership
  import opened Resizing
  import opened Appending
  import opened Removing
  import opened Image

  /** What adding one block to an n-block file takes from the disk. */
  function Cost(n: nat, m: nat): int { Total(m) - Total(n) }

  // ----- the branches of add_block -----

  method LinkDirect(fs: Ospfs, i: nat, n: nat, b: u32, ghost s: FS, ghost m: nat) returns (ghost own': Owners, ghost add: Owners)
    requires fs.Valid() && Ready(s, fs.own, i, n) && Reserved(s, fs.View(), b)
    requires n < NDIRECT && m == n + 1
    modifies fs.data
    ensures fs.Valid() && Appended(s, fs.own, fs.View(), own', i, n, m, b, add)
  {
    hide ViewOf, HasGeometry;
    FreeIsUsable(s, fs.own, b);
    fs.PokeInode(i, F_DIRECT + n, b);
    add := map[b as nat := Owner(i, Data(n))];
    own' := fs.own + add;
    AppendDirect(s, fs.own, fs.View(), own', i, n, m, b, add, SetField(s.inodes[i], F_DIRECT + n, b));
  }

  /** The free set after a second block was taken beside b. */
  ghost predicate ReservedTwo(s: FS, t: FS, b: nat, c: nat) {
    && b in s.free && c in s.free && b != c && b < |s.disk|
    && t == s.(free := s.free - {b, c}, disk := s.disk[b := CellOf(ZeroBlock())])
  }

  /** Takes a block for pointers beside data block b, or gives b back when the disk is full. */
  method ReserveSecond(fs: Ospfs, b: u32, ghost s: FS) returns (c: u32)
    requires fs.Valid() && ShapeOk(s) && FreeOk(s.geo, s.free, fs.own) && Reserved(s, fs.View(), b)
    modifies fs.data
    ensures fs.Valid()
    ensures c == 0 ==> |s.free| == 1 && Untouched(s, fs.View())
    ensures c != 0 ==> |s.free| >= 2 && ReservedTwo(s, fs.View(), b, c)
  {
    hide ViewOf, HasGeometry;
    FreeIsUsable(s, fs.own, b);
    SubsetCard({b as nat}, s.free);
    c := fs.AllocateBlock();
    if c == 0 {
      fs.FreeBlock(b);
      assert s.free - {b as nat} + {b as nat} == s.free;
    } else {
      SubsetCard({b as nat, c as nat}, s.free);
      assert s.free - {b as nat} - {c as nat} == s.free - {b as nat, c as nat};
    }
  }

  /** The eleventh block: the indirect block has to be allocated first. */
  method LinkFirstIndirect(fs: Ospfs, i: nat, n: nat, b: u32, ghost s: FS, ghost m: nat)
    returns (ok: bool, ghost own': Owners, ghost add: Owners)
    requires fs.Valid() && Ready(s, fs.own, i, n) && Reserved(s, fs.View(), b)
    requires n == NDIRECT && m == n + 1
    modifies fs.data
    ensures fs.Valid()
    ensures ok <==> |s.free| >= 2
    ensures ok ==> Appended(s, fs.own, fs.View(), own', i, n, m, b, add)
    ensures !ok ==> |s.free| == 1 && Untouched(s, fs.View())
  {
    hide ViewOf, HasGeometry;
    own', add := fs.own, map[];
    var q := ReserveSecond(fs, b, s);
    if q == 0 {
      return false, own', add;
    }
    FreeIsUsable(s, fs.own, q);
    fs.PokeInode(i, F_INDIRECT, q);
    fs.FreshPointerBlock(q, b);
    ok := true;
    add := map[b as nat := Owner(i, Data(n)), q as nat := Owner(i, Ind)];
    own' := fs.own + add;
    assert add.Keys == {b as nat, q as nat};
    ghost var x := SetField(s.inodes[i], F_INDIRECT, q);
    HungFirstIndirect(s, fs.own, fs.View().disk, x.ptrs, own', i, n, m, b, add, q);
    TakenFirstIndirect(s, fs.own, fs.View().disk, own', i, n, m, b, add, q);
    MakeAppended(s, fs.own, fs.View(), own', i, n, m, b, add, x);
  }

  method LinkIndirect(fs: Ospfs, i: nat, n: nat, b: u32, ghost s: FS, ghost m: nat)
    returns (ghost own': Owners, ghost add: Owners)
    requires fs.Valid() && Ready(s, fs.own, i, n) && Reserved(s, fs.View(), b)
    requires NDIRECT < n < NFLAT && m == n + 1
    modifies fs.data
    ensures fs.Valid() && Appended(s, fs.own, fs.View(), own', i, n, m, b, add)
  {
    hide ViewOf, HasGeometry;
    FreeIsUsable(s, fs.own, b);
    assert Needs(n, Ind) && At(s.disk, s.inodes[i].ptrs, Ind) in fs.own;
    OwnedIsUsable(s, fs.own, s.inodes[i].ptrs.indirect);
    var q := fs.Oi(i).ptrs.indirect;
    fs.PokeData(q, n - NDIRECT, b);
    add := map[b as nat := Owner(i, Data(n))];
    own' := fs.own + add;
    AppendIndirect(s, fs.own, fs.View(), own', i, n, m, b, add, q);
  }

  datatype Outcome = Done | Full | FullAndStale

  /**
   * The first block beyond the indirect block needs two pointer blocks. When only one of them can be had it is freed
   * again, but its number stays in oi_indirect2.
   */
  method LinkFirstIndirect2(fs: Ospfs, i: nat, n: nat, b: u32, ghost s: FS, ghost m: nat)
    returns (r: Outcome, ghost own': Owners, ghost add: Owners)
    requires fs.Valid() && Ready(s, fs.own, i, n) && Reserved(s, fs.View(), b)
    requires n == NFLAT && m == n + 1
    modifies fs.data
    ensures fs.Valid()
    ensures r == if |s.free| == 1 then Full else if |s.free| == 2 then FullAndStale else Done
    ensures r.Done? ==> |s.free| >= 3 && Appended(s, fs.own, fs.View(), own', i, n, m, b, add)
    ensures r.Full? ==> Untouched(s, fs.View())
    ensures r.FullAndStale? ==> LeftStale(s, fs.View(), i)
  {
    hide ViewOf, HasGeometry;
    own', add := fs.own, map[];
    var e := ReserveSecond(fs, b, s);
    if e == 0 {
      return Full, own', add;
    }
    FreeIsUsable(s, fs.own, e);
    fs.PokeInode(i, F_INDIRECT2, e);
    fs.PokeBlock(e, ZeroBlock());
    var c := ReserveThird(fs, b, e, s);
    if c == 0 {
      return FullAndStale, own', add;
    }
    FreeIsUsable(s, fs.own, c);
    WordsOfZero();
    fs.PokeData(e, 0, c);
    fs.FreshPointerBlock(c, b);
    r := Done;
    add := map[b as nat := Owner(i, Data(n)), c as nat := Owner(i, Sub(0)), e as nat := Owner(i, Ind2)];
    own' := fs.own + add;
    assert add.Keys == {b as nat, c as nat, e as nat};
    ghost var x := SetField(s.inodes[i], F_INDIRECT2, e);
    HungFirstIndirect2(s, fs.own, fs.View().disk, x.ptrs, own', i, n, m, b, add, c, e);
    TakenFirstIndirect2(s, fs.own, fs.View().disk, own', i, n, m, b, add, c, e);
    MakeAppended(s, fs.own, fs.View(), own', i, n, m, b, add, x);
  }

  /** Takes a third block, or gives the other two back when the disk is full. */
  method ReserveThird(fs: Ospfs, b: u32, e: u32, ghost s: FS) returns (c: u32)
    requires fs.Valid() && ShapeOk(s) && FreeOk(s.geo, s.free, fs.own)
    requires b in s.free && e in s.free && b != e && fs.View().free == s.free - {b as nat, e as nat} && fs.View().geo == s.geo
    modifies fs.data
    ensures fs.Valid()
    ensures c == 0 ==> |s.free| == 2 && fs.View() == old(fs.View()).(free := s.free)
    ensures c != 0 ==> |s.free| >= 3 && c in s.free && c != b && c != e
    ensures c != 0 ==> fs.View() == old(fs.View()).(free := s.free - {b as nat, c as nat, e as nat})
  {
    hide ViewOf, HasGeometry;
    FreeIsUsable(s, fs.own, b);
    FreeIsUsable(s, fs.own, e);
    SubsetCard({b as nat, e as nat}, s.free);
    c := fs.AllocateBlock();
    if c == 0 {
      fs.FreeBlock(e);
      fs.FreeBlock(b);
      assert s.free - {b as nat, e as nat} + {e as nat} + {b as nat} == s.free;
    } else {
      SubsetCard({b as nat, c as nat, e as nat}, s.free);
      assert s.free - {b as nat, e as nat} - {c as nat} == s.free - {b as nat, c as nat, e as nat};
    }
  }

  // ----- the doubly indirect block already exists -----

  /** The scan for the last pointer in use stops in front of the first zero; its bound is one beyond the block. */
  method LastSub(fs: Ospfs, q: u32, ghost s: FS, ghost i: nat, ghost n: nat) returns (k: nat)
    requires fs.Valid() && Ready(s, fs.own, i, n) && NFLAT < n <= ALLOC_BITS && q in fs.own && q == s.inodes[i].ptrs.indirect2
    requires SamePointerBlocks(s.disk, fs.View().disk, fs.own, i) && fs.View().geo == s.geo
    ensures k + 1 == Subs(n)
    ensures W(s.disk, q, k) in fs.own && fs.own[W(s.disk, q, k)] == Owner(i, Sub(k)) && fs.Peek(q, k) == W(s.disk, q, k)
  {
    hide ViewOf, HasGeometry;
    PointersDistinct(s.disk, s.inodes[i].ptrs, i, fs.own, n);
    OwnedIsUsable(s, fs.own, q);
    ZeroIsNotOwned(s, fs.own);
    k := 0;
    while k < NINDIRECT + 1
      invariant k < Subs(n)
    {
      assert W(fs.View().disk, q, k + 1) == W(s.disk, q, k + 1) == At(s.disk, s.inodes[i].ptrs, Sub(k + 1));
      if fs.Peek(q, k + 1) == 0 {
        assert k + 1 >= Subs(n);
        break;
      }
      assert !ScannedAsUnused(n, Sub(k + 1));
      k := k + 1;
    }
    assert W(fs.View().disk, q, k) == W(s.disk, q, k);
  }

  /** The scan for the first unused pointer of a pointer block. */
  method FirstUnused(fs: Ospfs, q: u32, ghost t: nat, ghost s: FS, ghost i: nat, ghost n: nat) returns (j: nat)
    requires fs.Valid() && Ready(s, fs.own, i, n) && n > NFLAT && t + 1 == Subs(n)
    requires q == W(s.disk, s.inodes[i].ptrs.indirect2, t) && q in fs.own
    requires SamePointerBlocks(s.disk, fs.View().disk, fs.own, i) && fs.View().geo == s.geo
    ensures j <= NINDIRECT && NFLAT + NINDIRECT * t + j == n
  {
    hide ViewOf, HasGeometry;
    PointersDistinct(s.disk, s.inodes[i].ptrs, i, fs.own, n);
    OwnedIsUsable(s, fs.own, q);
    ZeroIsNotOwned(s, fs.own);
    j := 0;
    while j < NINDIRECT
      invariant j <= NINDIRECT && NFLAT + NINDIRECT * t + j <= n
    {
      ghost var k := NFLAT + NINDIRECT * t + j;
      assert (k - NFLAT) / NINDIRECT == t && (k - NFLAT) % NINDIRECT == j;
      assert W(fs.View().disk, q, j) == W(s.disk, q, j) == At(s.disk, s.inodes[i].ptrs, Data(k));
      if fs.Peek(q, j) == 0 {
        assert !Needs(n, Data(k));
        break;
      }
      assert !ScannedAsUnused(n, Data(k));
      j := j + 1;
    }
  }

  method LinkIntoSub(fs: Ospfs, i: nat, n: nat, b: u32, q: u32, j: nat, ghost s: FS, ghost m: nat)
    returns (ghost own': Owners, ghost add: Owners)
    requires fs.Valid() && Ready(s, fs.own, i, n) && Reserved(s, fs.View(), b)
    requires n > NFLAT && m == n + 1 && 0 < j < NINDIRECT && j == (n - NFLAT) % NINDIRECT
    requires q == W(s.disk, s.inodes[i].ptrs.indirect2, (n - NFLAT) / NINDIRECT) && q in fs.own
    modifies fs.data
    ensures fs.Valid() && Appended(s, fs.own, fs.View(), own', i, n, m, b, add)
  {
    hide ViewOf, HasGeometry;
    FreeIsUsable(s, fs.own, b);
    OwnedIsUsable(s, fs.own, q);
    fs.PokeData(q, j, b);
    add := map[b as nat := Owner(i, Data(n))];
    own' := fs.own + add;
    AppendSub(s, fs.own, fs.View(), own', i, n, m, b, add, q);
  }

  method LinkNewSub(fs: Ospfs, i: nat, n: nat, b: u32, q: u32, k: nat, ghost s: FS, ghost m: nat)
    returns (ok: bool, ghost own': Owners, ghost add: Owners)
    requires fs.Valid() && Ready(s, fs.own, i, n) && Reserved(s, fs.View(), b)
    requires n > NFLAT && m == n + 1 && (n - NFLAT) % NINDIRECT == 0 && k == (n - NFLAT) / NINDIRECT < NINDIRECT
    requires q == s.inodes[i].ptrs.indirect2 && q in fs.own
    modifies fs.data
    ensures fs.Valid()
    ensures ok <==> |s.free| >= 2
    ensures ok ==> Appended(s, fs.own, fs.View(), own', i, n, m, b, add)
    ensures !ok ==> |s.free| == 1 && Untouched(s, fs.View())
  {
    hide ViewOf, HasGeometry;
    own', add := fs.own, map[];
    var c := ReserveSecond(fs, b, s);
    if c == 0 {
      return false, own', add;
    }
    FreeIsUsable(s, fs.own, b);
    FreeIsUsable(s, fs.own, c);
    OwnedIsUsable(s, fs.own, q);
    fs.FreshPointerBlock(c, b);
    fs.PokeData(q, k, c);
    ok := true;
    add := map[b as nat := Owner(i, Data(n)), c as nat := Owner(i, Sub(k))];
    own' := fs.own + add;
    assert add.Keys == {b as nat, c as nat};
    AppendNewSub(s, fs.own, fs.View(), own', i, n, m, b, add, c, q);
  }

  method LinkIndirect2(fs: Ospfs, i: nat, n: nat, b: u32, ghost s: FS, ghost m: nat)
    returns (ok: bool, ghost own': Owners, ghost add: Owners)
    requires fs.Valid() && Ready(s, fs.own, i, n) && Reserved(s, fs.View(), b)
    requires NFLAT < n <= ALLOC_BITS && m == n + 1
    modifies fs.data
    ensures fs.Valid()
    ensures ok <==> |s.free| >= Cost(n, m)
    ensures ok ==> Appended(s, fs.own, fs.View(), own', i, n, m, b, add)
    ensures !ok ==> |s.free| == 1 && Untouched(s, fs.View())
  {
    hide ViewOf, HasGeometry;
    FreeIsUsable(s, fs.own, b);
    SubsetCard({b as nat}, s.free);
    PointersDistinct(s.disk, s.inodes[i].ptrs, i, fs.own, n);
    var q2 := fs.Oi(i).ptrs.indirect2;
    var k := LastSub(fs, q2, s, i, n);
    OwnedIsUsable(s, fs.own, q2);
    var q := fs.Peek(q2, k);
    var j := FirstUnused(fs, q, k, s, i, n);
    if j == NINDIRECT {
      assert (n - NFLAT) / NINDIRECT == k + 1 && Subs(m) == Subs(n) + 1;
      ok, own', add := LinkNewSub(fs, i, n, b, q2, k + 1, s, m);
    } else {
      assert j > 0 && (n - NFLAT) / NINDIRECT == k && (n - NFLAT) % NINDIRECT == j && Subs(m) == Subs(n);
      own', add := LinkIntoSub(fs, i, n, b, q, j, s, m);
      ok := true;
    }
  }

  // ----- add_block -----

  /** Whether an append to an n-block file with this many free blocks leaves a stale oi_indirect2. */
  predicate LeavesStale(n: nat, free: nat) {
    n == NFLAT && free == 2
  }

  /** Hangs block b, already taken and erased, into file i. */
  method LinkBlock(fs: Ospfs, i: nat, n: nat, b: u32, ghost s: FS, ghost m: nat)
    returns (r: Outcome, ghost own': Owners, ghost add: Owners)
    requires fs.Valid() && Ready(s, fs.own, i, n) && Reserved(s, fs.View(), b)
    requires n <= ALLOC_BITS && m == n + 1 && (n <= NFLAT ==> s.inodes[i].ptrs.indirect2 == 0)
    modifies fs.data
    ensures fs.Valid()
    ensures r.Done? <==> |s.free| >= Cost(n, m)
    ensures r.FullAndStale? <==> LeavesStale(n, |s.free|)
    ensures r.Done? ==> Appended(s, fs.own, fs.View(), own', i, n, m, b, add)
    ensures r.Full? ==> Untouched(s, fs.View())
    ensures r.FullAndStale? ==> LeftStale(s, fs.View(), i)
  {
    hide ViewOf, HasGeometry;
    var oi := fs.Oi(i);
    SubsetCard({b as nat}, s.free);
    ZeroIsNotOwned(s, fs.own);
    assert At(s.disk, oi.ptrs, Ind) == oi.ptrs.indirect && At(s.disk, oi.ptrs, Ind2) == oi.ptrs.indirect2;
    assert ScannedAsUnused(n, Ind) ==> At(s.disk, oi.ptrs, Ind) == 0;
    var ok := true;
    if n < NDIRECT {
      own', add := LinkDirect(fs, i, n, b, s, m);
    } else if n < NFLAT {
      if oi.ptrs.indirect == 0 {
        assert !Needs(n, Ind);
        ok, own', add := LinkFirstIndirect(fs, i, n, b, s, m);
      } else {
        own', add := LinkIndirect(fs, i, n, b, s, m);
      }
    } else if oi.ptrs.indirect2 == 0 {
      assert !Needs(n, Ind2);
      r, own', add := LinkFirstIndirect2(fs, i, n, b, s, m);
      return;
    } else {
      ok, own', add := LinkIndirect2(fs, i, n, b, s, m);
    }
    r := if ok then Done else Full;
  }

  lemma ReadyFromConsistent(s: FS, own: Owners, i: nat)
    requires Consistent(s, own) && i < |s.inodes| && s.inodes[i].ftype != FTYPE_SYMLINK
    ensures Ready(s, own, i, NBlocks(s.inodes[i])) && NBlocks(s.inodes[i]) <= ALLOC_BITS
    ensures 0 !in s.free
  {
    assert FileOk(s.disk, s.inodes[i], i, own);
    FileIsShort(s, own, i);
  }

  /** File i grew from n to m blocks, at the price of the pointer blocks the new length needs. */
  ghost predicate GrewTo(s: FS, own: Owners, t: FS, own': Owners, i: nat, n: nat, m: nat) {
    && Resized(s, own, t, own', i, n, m)
    && t.inodes[i].size == BLKSIZE * m && NBlocks(t.inodes[i]) == m && !Stale(t.inodes[i])
    && |t.free| == |s.free| - Cost(n, m)
  }

  /** The file grew by one zeroed block. */
  ghost predicate Grew(s: FS, own: Owners, t: FS, own': Owners, i: nat) {
    i < |s.inodes| && GrewTo(s, own, t, own', i, NBlocks(s.inodes[i]), NBlocks(s.inodes[i]) + 1)
  }

  /** Nothing but the content of free blocks changed, unless a pointer to a freed block was left behind. */
  ghost predicate Refused(s: FS, own: Owners, t: FS, own': Owners, i: nat) {
    && i < |s.inodes| && Resized(s, own, t, own', i, NBlocks(s.inodes[i]), NBlocks(s.inodes[i]))
    && own' == own && t.free == s.free
    && (if LeavesStale(NBlocks(s.inodes[i]), |s.free|)
        then t.inodes[i] == SetField(s.inodes[i], F_INDIRECT2, t.inodes[i].ptrs.indirect2)
             && t.inodes[i].ptrs.indirect2 in s.free
        else t.inodes == s.inodes)
  }

  lemma TwiceUpdated(xs: seq<Inode>, i: nat, x: Inode, y: Inode)
    requires i < |xs|
    ensures xs[i := x][i := y] == xs[i := y]
  {
  }

  lemma TakenIsNext(s: FS, own: Owners, d: seq<Cell>, own': Owners, i: nat, n: nat, m: nat, b: nat, add: Owners)
    requires Taken(s, own, d, own', i, n, m, b, add)
    ensures m == n + 1
  {
  }

  lemma AppendedGrew(s: FS, own: Owners, t: FS, t': FS, own': Owners, i: nat, n: nat, m: nat, b: nat, add: Owners)
    requires Consistent(s, own) && Appended(s, own, t, own', i, n, m, b, add)
    requires s.inodes[i].ftype != FTYPE_SYMLINK && !Stale(s.inodes[i]) && n == NBlocks(s.inodes[i]) <= ALLOC_BITS
    requires t' == t.(inodes := t.inodes[i := SetField(t.inodes[i], F_SIZE, BLKSIZE * m)])
    ensures Consistent(t', own') && Grew(s, own, t', own', i)
  {
    hide Consistent, Taken, Hung, Resized, Total, NBlocks;
    TakenIsNext(s, own, t.disk, own', i, n, m, b, add);
    TwiceUpdated(s.inodes, i, t.inodes[i], t'.inodes[i]);
    assert t' == Rewritten(s, i, t.disk, t.inodes[i].ptrs, m, s.free - add.Keys);
    LinkedThenSized(s, own, t.disk, t.inodes[i].ptrs, own', i, n, m, b, add, t');
    assert GrewTo(s, own, t', own', i, n, m);
  }

  lemma UntouchedRefused(s: FS, own: Owners, t: FS, i: nat)
    requires Consistent(s, own) && i < |s.inodes| && s.inodes[i].ftype != FTYPE_SYMLINK
    requires if LeavesStale(NBlocks(s.inodes[i]), |s.free|) then LeftStale(s, t, i) else Untouched(s, t)
    ensures Consistent(t, own) && Refused(s, own, t, own, i)
  {
    NothingLinked(s, own, t, i);
  }

  /** The rest of add_block, once the data block is there. */
  method AddReserved(fs: Ospfs, i: nat, n: nat, b: u32, ghost s: FS) returns (r: int)
    requires fs.Valid() && Consistent(s, fs.own) && i < |s.inodes| && Reserved(s, fs.View(), b)
    requires s.inodes[i].ftype != FTYPE_SYMLINK && !Stale(s.inodes[i]) && n == NBlocks(s.inodes[i])
    modifies fs`own, fs.data
    ensures fs.Valid() && Consistent(fs.View(), fs.own)
    ensures r == if |s.free| >= Cost(n, n + 1) then 0 else -ENOSPC
    ensures r == 0 ==> Grew(s, old(fs.own), fs.View(), fs.own, i)
    ensures r != 0 ==> Refused(s, old(fs.own), fs.View(), fs.own, i)
  {
    hide ViewOf, HasGeometry, Grew, Refused;
    ghost var m := n + 1;
    ReadyFromConsistent(s, fs.own, i);
    var o;
    ghost var own', add;
    o, own', add := LinkBlock(fs, i, n, b, s, m);
    if o != Done {
      UntouchedRefused(s, fs.own, fs.View(), i);
      return -ENOSPC;
    }
    ghost var t := fs.View();
    fs.PokeInode(i, F_SIZE, BLKSIZE * (n + 1));
    assert fs.View() == t.(inodes := t.inodes[i := SetField(t.inodes[i], F_SIZE, BLKSIZE * m)]);
    AppendedGrew(s, fs.own, t, fs.View(), own', i, n, m, b, add);
    fs.own := own';
    r := 0;
  }

  method AddBlock(fs: Ospfs, i: nat) returns (r: int)
    requires fs.Valid() && Consistent(fs.View(), fs.own) && i < |fs.View().inodes|
    requires fs.View().inodes[i].ftype != FTYPE_SYMLINK && !Stale(fs.View().inodes[i])
    modifies fs`own, fs.data
    ensures fs.Valid() && Consistent(fs.View(), fs.own)
    ensures r == if |old(fs.View()).free| >= old(Cost(NBlocks(fs.View().inodes[i]), NBlocks(fs.View().inodes[i]) + 1)) then 0 else -ENOSPC
    ensures r == 0 ==> Grew(old(fs.View()), old(fs.own), fs.View(), fs.own, i)
    ensures r != 0 ==> Refused(old(fs.View()), old(fs.own), fs.View(), fs.own, i)
  {
    hide ViewOf, HasGeometry, Grew, Refused;
    ghost var s := fs.View();
    var n := Size2NBlocks(fs.Oi(i).size);
    ReadyFromConsistent(s, fs.own, i);
    var b := fs.AllocateBlock();
    if b == 0 {
      UntouchedRefused(s, fs.own, fs.View(), i);
      return -ENOSPC;
    }
    FreeIsUsable(s, fs.own, b);
    fs.PokeBlock(b, ZeroBlock());
    WordsOfZero();
    r := AddReserved(fs, i, n, b, s);
  }

  // ----- remove_block -----

  method UnlinkDirect(fs: Ospfs, i: nat, n: nat, ghost s: FS, ghost m: nat, ghost own': Owners)
    requires fs.Valid() && fs.View() == s && Ready(s, fs.own, i, n) && 0 < n <= NDIRECT
    requires n == m + 1 && own' == Release(fs.own, i, m)
    modifies fs.data
    ensures fs.Valid() && Detached(s, fs.own, fs.View(), own', i, n, m)
  {
    hide ViewOf, HasGeometry;
    assert Needs(n, Data(m)) && At(s.disk, s.inodes[i].ptrs, Data(m)) == s.inodes[i].ptrs.direct[m];
    OwnedIsUsable(s, fs.own, s.inodes[i].ptrs.direct[m]);
    var b := fs.Oi(i).ptrs.direct[n - 1];
    if b != 0 {
      fs.FreeBlock(b);
    }
    fs.PokeInode(i, F_DIRECT + (n - 1), 0);
    DetachDirect(s, fs.own, fs.View(), own', i, n, m, b, SetField(s.inodes[i], F_DIRECT + m, 0));
  }

  method UnlinkLastIndirect(fs: Ospfs, i: nat, n: nat, ghost s: FS, ghost m: nat, ghost own': Owners)
    requires fs.Valid() && fs.View() == s && Ready(s, fs.own, i, n) && n == NDIRECT + 1
    requires n == m + 1 && own' == Release(fs.own, i, m)
    modifies fs.data
    ensures fs.Valid() && Detached(s, fs.own, fs.View(), own', i, n, m)
  {
    hide ViewOf, HasGeometry;
    assert Needs(n, Ind) && At(s.disk, s.inodes[i].ptrs, Ind) == s.inodes[i].ptrs.indirect;
    assert Needs(n, Data(m)) && At(s.disk, s.inodes[i].ptrs, Data(m)) == W(s.disk, s.inodes[i].ptrs.indirect, 0);
    OwnedIsUsable(s, fs.own, s.inodes[i].ptrs.indirect);
    OwnedIsUsable(s, fs.own, W(s.disk, s.inodes[i].ptrs.indirect, 0));
    var q := fs.Oi(i).ptrs.indirect;
    var b := fs.Peek(q, 0);
    fs.FreeBlock(b);
    fs.PokeData(q, 0, 0);
    fs.FreeBlock(q);
    fs.PokeInode(i, F_INDIRECT, 0);
    assert s.free + {b as nat} + {q as nat} == s.free + {b as nat, q as nat};
    DetachLastIndirect(s, fs.own, fs.View(), own', i, n, m, b, q, SetField(s.inodes[i], F_INDIRECT, 0));
  }

  method UnlinkIndirect(fs: Ospfs, i: nat, n: nat, ghost s: FS, ghost m: nat, ghost own': Owners)
    requires fs.Valid() && fs.View() == s && Ready(s, fs.own, i, n) && NDIRECT + 1 < n <= NFLAT
    requires n == m + 1 && own' == Release(fs.own, i, m)
    modifies fs.data
    ensures fs.Valid() && Detached(s, fs.own, fs.View(), own', i, n, m)
  {
    hide ViewOf, HasGeometry;
    assert Needs(n, Ind) && At(s.disk, s.inodes[i].ptrs, Ind) == s.inodes[i].ptrs.indirect;
    assert Needs(n, Data(m)) && At(s.disk, s.inodes[i].ptrs, Data(m)) == W(s.disk, s.inodes[i].ptrs.indirect, m - NDIRECT);
    OwnedIsUsable(s, fs.own, s.inodes[i].ptrs.indirect);
    OwnedIsUsable(s, fs.own, W(s.disk, s.inodes[i].ptrs.indirect, m - NDIRECT));
    var q := fs.Oi(i).ptrs.indirect;
    var b := fs.Peek(q, n - NDIRECT - 1);
    fs.FreeBlock(b);
    fs.PokeData(q, n - NDIRECT - 1, 0);
    DetachIndirect(s, fs.own, fs.View(), own', i, n, m, b, q);
  }

  /** Counts the pointers of the doubly indirect block that come before the first zero. */
  method UsedSubs(fs: Ospfs, e: u32, ghost s: FS, ghost i: nat, ghost n: nat) returns (k: nat)
    requires fs.Valid() && fs.View() == s && Ready(s, fs.own, i, n) && NFLAT < n <= ALLOC_BITS
    requires e == s.inodes[i].ptrs.indirect2 && e in fs.own
    ensures k == Subs(n)
  {
    hide ViewOf, HasGeometry;
    PointersDistinct(s.disk, s.inodes[i].ptrs, i, fs.own, n);
    OwnedIsUsable(s, fs.own, e);
    ZeroIsNotOwned(s, fs.own);
    k := 0;
    while k < NINDIRECT
      invariant k <= Subs(n)
    {
      assert W(s.disk, e, k) == At(s.disk, s.inodes[i].ptrs, Sub(k));
      if fs.Peek(e, k) == 0 {
        assert k >= Subs(n);
        break;
      }
      assert !ScannedAsUnused(n, Sub(k));
      k := k + 1;
    }
  }

  /** Where the last block of a file is found when it lies beyond the indirect block. */
  lemma LastInSub(s: FS, own: Owners, i: nat, n: nat, m: nat)
    requires Ready(s, own, i, n) && NFLAT < n <= ALLOC_BITS && n == m + 1
    ensures (n - NDIRECT - NINDIRECT - 1) % NINDIRECT == (m - NFLAT) % NINDIRECT && Subs(n) > 0 && (m - NFLAT) / NINDIRECT == Subs(n) - 1
    ensures i < |s.inodes| && s.inodes[i].ptrs.indirect2 in own
    ensures var e := s.inodes[i].ptrs.indirect2; var q := W(s.disk, e, Subs(n) - 1); var b := W(s.disk, q, (m - NFLAT) % NINDIRECT);
            && q in own && q != e && b in own && |s.disk[q].words| == |s.disk[e].words| == WORDS_PER_BLOCK
            && s.geo.Usable(e) && s.geo.Usable(q) && s.geo.Usable(b)
  {
    var d, p := s.disk, s.inodes[i].ptrs;
    PointersDistinct(d, p, i, own, n);
    assert (m - NFLAT) / NINDIRECT == Subs(n) - 1;
    assert Needs(n, Data(m)) && At(d, p, Data(m)) == W(d, W(d, p.indirect2, Subs(n) - 1), (m - NFLAT) % NINDIRECT);
    OwnedIsUsable(s, own, p.indirect2);
    OwnedIsUsable(s, own, W(d, p.indirect2, Subs(n) - 1));
    OwnedIsUsable(s, own, At(d, p, Data(m)));
  }

  /** The last block beyond the indirect block: its pointer block may go with it, and the doubly indirect block too. */
  method UnlinkIndirect2(fs: Ospfs, i: nat, n: nat, ghost s: FS, ghost m: nat, ghost own': Owners)
    requires fs.Valid() && fs.View() == s && Ready(s, fs.own, i, n) && NFLAT < n <= ALLOC_BITS
    requires n == m + 1 && own' == Release(fs.own, i, m)
    modifies fs.data
    ensures fs.Valid() && Detached(s, fs.own, fs.View(), own', i, n, m)
  {
    hide ViewOf, HasGeometry, Ready;
    LastInSub(s, fs.own, i, n, m);
    var e := fs.Oi(i).ptrs.indirect2;
    var j := (n - NDIRECT - NINDIRECT - 1) % NINDIRECT;
    var k := UsedSubs(fs, e, s, i, n);
    var q := fs.Peek(e, k - 1);
    var b := fs.Peek(q, j);
    fs.FreeBlock(b);
    fs.PokeData(q, j, 0);
    if j == 0 {
      UnlinkSub(fs, i, n, b, q, e, k, s, m, own');
    } else {
      DetachSub(s, fs.own, fs.View(), own', i, n, m, b, q);
    }
  }

  method UnlinkSub(fs: Ospfs, i: nat, n: nat, b: u32, q: u32, e: u32, k: nat, ghost s: FS, ghost m: nat, ghost own': Owners)
    requires fs.Valid() && Ready(s, fs.own, i, n) && NFLAT < n <= ALLOC_BITS && n == m + 1 && own' == Release(fs.own, i, m)
    requires (m - NFLAT) % NINDIRECT == 0 && k > 0 && k - 1 == (m - NFLAT) / NINDIRECT
    requires e == s.inodes[i].ptrs.indirect2 && q == W(s.disk, e, k - 1) && b == W(s.disk, q, 0)
    requires e in fs.own && q in fs.own && q != e
    requires fs.View() == s.(free := s.free + {b as nat}, disk := fs.View().disk)
    requires SameExcept(s.disk, fs.View().disk, {q as nat}) && Shape(fs.View().disk)
    modifies fs.data
    ensures fs.Valid() && Detached(s, fs.own, fs.View(), own', i, n, m)
  {
    hide ViewOf, HasGeometry;
    OwnedIsUsable(s, fs.own, e);
    OwnedIsUsable(s, fs.own, q);
    assert fs.Peek(e, k - 1) == q;
    fs.FreeBlock(q);
    fs.PokeData(e, k - 1, 0);
    if k == 1 {
      assert s.free + {b as nat} + {q as nat} + {e as nat} == s.free + {b as nat, q as nat, e as nat};
      fs.FreeBlock(fs.Peek(e, 0));
      fs.PokeData(e, 0, 0);
      fs.FreeBlock(e);
      fs.PokeInode(i, F_INDIRECT2, 0);
      DetachIndirect2(s, fs.own, fs.View(), own', i, n, m, b, q, e, SetField(s.inodes[i], F_INDIRECT2, 0));
    } else {
      assert s.free + {b as nat} + {q as nat} == s.free + {b as nat, q as nat};
      DetachLastSub(s, fs.own, fs.View(), own', i, n, m, b, q, e);
    }
  }

  /** File i went down from n to m blocks. */
  ghost predicate ShrankTo(s: FS, own: Owners, t: FS, own': Owners, i: nat, n: nat, m: nat) {
    && Resized(s, own, t, own', i, n, m)
    && t.inodes[i].size == BLKSIZE * m && NBlocks(t.inodes[i]) == m
    && (m <= NFLAT ==> t.inodes[i].ptrs.indirect2 == if n <= NFLAT then s.inodes[i].ptrs.indirect2 else 0)
  }

  /** The file lost its last block, if it had one. */
  ghost predicate Shrank(s: FS, own: Owners, t: FS, own': Owners, i: nat) {
    && i < |s.inodes|
    && if NBlocks(s.inodes[i]) == 0 then t == s && own' == own
       else ShrankTo(s, own, t, own', i, NBlocks(s.inodes[i]), NBlocks(s.inodes[i]) - 1)
  }

  lemma DetachedShrank(s: FS, own: Owners, t: FS, t': FS, own': Owners, i: nat, n: nat, m: nat)
    requires Consistent(s, own) && Detached(s, own, t, own', i, n, m)
    requires s.inodes[i].ftype != FTYPE_SYMLINK && n == NBlocks(s.inodes[i]) <= ALLOC_BITS
    requires t' == t.(inodes := t.inodes[i := SetField(t.inodes[i], F_SIZE, BLKSIZE * m)])
    ensures Consistent(t', own') && Shrank(s, own, t', own', i)
  {
    assert t' == Rewritten(s, i, t.disk, t.inodes[i].ptrs, m, s.free + (own.Keys - own'.Keys));
    UnlinkedThenSized(s, own, t.disk, t.inodes[i].ptrs, own', i, n, m, t');
    assert ShrankTo(s, own, t', own', i, n, m);
  }

  method RemoveBlock(fs: Ospfs, i: nat) returns (r: int)
    requires fs.Valid() && Consistent(fs.View(), fs.own) && i < |fs.View().inodes|
    requires fs.View().inodes[i].ftype != FTYPE_SYMLINK
    modifies fs`own, fs.data
    ensures fs.Valid() && Consistent(fs.View(), fs.own)
    ensures r == 0 && Shrank(old(fs.View()), old(fs.own), fs.View(), fs.own, i)
  {
    hide ViewOf, HasGeometry, Shrank;
    ghost var s := fs.View();
    var n := Size2NBlocks(fs.Oi(i).size);
    ReadyFromConsistent(s, fs.own, i);
    if n == 0 {
      NothingToRemove(s, fs.own, i);
      return 0;
    }
    ghost var m := n - 1;
    ghost var own' := Release(fs.own, i, m);
    if n <= NDIRECT {
      UnlinkDirect(fs, i, n, s, m, own');
    } else if n == NDIRECT + 1 {
      UnlinkLastIndirect(fs, i, n, s, m, own');
    } else if n <= NDIRECT + NINDIRECT {
      UnlinkIndirect(fs, i, n, s, m, own');
    } else {
      UnlinkIndirect2(fs, i, n, s, m, own');
    }
    ghost var t := fs.View();
    fs.PokeInode(i, F_SIZE, BLKSIZE * (n - 1));
    assert fs.View() == t.(inodes := t.inodes[i := SetField(t.inodes[i], F_SIZE, BLKSIZE * m)]);
    DetachedShrank(s, fs.own, t, fs.View(), own', i, n, m);
    fs.own := own';
    r := 0;
  }

  lemma NothingToRemove(s: FS, own: Owners, i: nat)
    requires i < |s.inodes| && NBlocks(s.inodes[i]) == 0
    ensures Shrank(s, own, s, own, i)
  {
  }
}
