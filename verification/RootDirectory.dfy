/** allocdirentry, for the root directory of an image that is being formatted. */
module RootDirectory {
  import opened Words
  import opened BlockTree
  import opened FileSystem
  import opened Ownership
  import opened FileIO
  import opened Directories
  import opened BlockCache
  import opened Formatting
  import opened TreeWriting
  import opened Building
  import opened HostFiles

  // ----- one more pin -----

  /** Slot k pins block b once more than before; all other pins are as they were. */
  ghost predicate Took(bs: seq<Buf>, bs': seq<Buf>, b: nat, k: nat) {
    && k < |bs| == |bs'| && bs'[k].bno == b && bs'[k].busy == bs[k].busy + 1 && (bs[k].busy > 0 ==> bs[k].bno == b)
    && forall m :: 0 <= m < |bs| && m != k ==> bs'[m].busy == bs[m].busy && (bs[m].busy > 0 ==> bs'[m].bno == bs[m].bno)
  }

  lemma GotTook(bs: seq<Buf>, bs': seq<Buf>, b: u32, k: nat)
    requires Got(bs, bs', b, k)
    ensures Took(bs, bs', b, k)
  {
  }

  lemma TookIs(bs: seq<Buf>, bs': seq<Buf>, b: nat, k: nat)
    requires Took(bs, bs', b, k)
    ensures k < |bs'| == |bs| && bs'[k].bno == b && bs'[k].busy > 0 && Pins(bs') == Pins(bs) + 1
  {
    PinsAfter(bs', k, bs'[k].(busy := bs[k].busy));
    var bs1 := bs'[k := bs'[k].(busy := bs[k].busy)];
    assert Balanced(bs, bs1);
    BalancedPins(bs, bs1);
  }

  lemma TookBalanced(bs: seq<Buf>, bs1: seq<Buf>, bs2: seq<Buf>, b: nat, k: nat)
    requires Took(bs, bs1, b, k) && Balanced(bs1, bs2)
    ensures Took(bs, bs2, b, k)
  {
  }

  lemma BalancedTook(bs: seq<Buf>, bs1: seq<Buf>, bs2: seq<Buf>, b: nat, k: nat)
    requires Balanced(bs, bs1) && Took(bs1, bs2, b, k)
    ensures Took(bs, bs2, b, k)
  {
  }

  lemma TookAndPut(bs: seq<Buf>, bs1: seq<Buf>, bs2: seq<Buf>, b: nat, k: nat)
    requires Took(bs, bs1, b, k) && bs2 == bs1[k := bs1[k].(busy := bs1[k].busy - 1)]
    ensures Balanced(bs, bs2)
  {
  }

  /** A pointer block q was got first and put back last. */
  lemma TookUnder(bs: seq<Buf>, bs1: seq<Buf>, bs2: seq<Buf>, bs3: seq<Buf>, q: nat, k: nat, b: nat, kd: nat)
    requires Took(bs, bs1, q, k) && Took(bs1, bs2, b, kd) && q != b
    requires k < |bs2| && bs2[k].busy > 0 && bs3 == bs2[k := bs2[k].(busy := bs2[k].busy - 1)]
    ensures Took(bs, bs3, b, kd)
  {
  }

  lemma TookStill(bs: seq<Buf>, bs1: seq<Buf>, bs2: seq<Buf>, q: nat, k: nat, b: nat, kd: nat)
    requires Took(bs, bs1, q, k) && Took(bs1, bs2, b, kd) && q != b
    ensures k < |bs2| && bs2[k].busy > 0 && bs2[k].bno == q
  {
  }

  lemma HoldsIs(bs: seq<Buf>, k: nat, g: Geometry, i: nat)
    requires Holds(bs, k, g, i)
    ensures k < |bs| && bs[k].busy > 0 && bs[k].bno == InodeBlockOf(g, i)
  {
  }

  // ----- finding a block of the directory -----

  ghost predicate DirReady(f: Formatter, s: FS, own: Owners)
    reads f, f.cache, f.cache.slots
  {
    f.Ready() && f.View() == s && FilesOk(s, own, f.nextb) && KindsOk(own, f.kinds) && ROOT_INO < f.ninodes
  }

  lemma OwnedIsOld(f: Formatter, s: FS, own: Owners, q: nat)
    requires DirReady(f, s, own) && q in own
    ensures 0 < q < f.nextb && q < |s.disk| && f.Geo().DataStart() <= q && KindOf(f.Geo(), f.kinds, q) == KindFor(own[q])
  {
  }

  /** The block that word j of pointer block q points to */
  method GetUnder(f: Formatter, q: u32, j: nat, ghost s: FS, ghost own: Owners) returns (k: nat)
    requires DirReady(f, s, own) && Pins(f.cache.slots[..]) <= 14 && j < WORDS_PER_BLOCK
    requires IsPointer(own, q) && W(s.disk, q, j) in own && KindFor(own[W(s.disk, q, j)]) == DirBlock
    modifies f.cache, f.cache.slots
    ensures DirReady(f, s, own) && Took(old(f.cache.slots[..]), f.cache.slots[..], W(s.disk, q, j), k)
  {
    hide Layout, FilesOk, KindsOk, Pins, PinsOk, Got, Took;
    OwnedIsOld(f, s, own, q);
    OwnedIsOld(f, s, own, W(s.disk, q, j));
    ghost var bs := f.cache.slots[..];
    var k1 := f.GetOld(q, BitsBlock);
    ghost var bs1 := f.cache.slots[..];
    GotTook(bs, bs1, q, k1);
    TookIs(bs, bs1, q, k1);
    WordInSlot(f, k1, q, j);
    var b := Word(f.cache.slots[k1].data, j);
    k := f.GetOld(b, DirBlock);
    ghost var bs2 := f.cache.slots[..];
    GotTook(bs1, bs2, b, k);
    TookStill(bs, bs1, bs2, q, k1, b, k);
    f.Put(k1);
    TookUnder(bs, bs1, bs2, f.cache.slots[..], q, k1, b, k);
  }

  method GetUnder2(f: Formatter, e: u32, j: nat, l: nat, ghost s: FS, ghost own: Owners) returns (k: nat)
    requires DirReady(f, s, own) && Pins(f.cache.slots[..]) <= 13 && j < WORDS_PER_BLOCK && l < WORDS_PER_BLOCK
    requires IsPointer(own, e) && IsPointer(own, W(s.disk, e, j))
    requires W(s.disk, W(s.disk, e, j), l) in own && KindFor(own[W(s.disk, W(s.disk, e, j), l)]) == DirBlock
    modifies f.cache, f.cache.slots
    ensures DirReady(f, s, own) && Took(old(f.cache.slots[..]), f.cache.slots[..], W(s.disk, W(s.disk, e, j), l), k)
  {
    hide Layout, FilesOk, KindsOk, Pins, PinsOk, Got, Took;
    OwnedIsOld(f, s, own, e);
    ghost var bs := f.cache.slots[..];
    var k1 := f.GetOld(e, BitsBlock);
    ghost var bs1 := f.cache.slots[..];
    GotTook(bs, bs1, e, k1);
    TookIs(bs, bs1, e, k1);
    WordInSlot(f, k1, e, j);
    var q := Word(f.cache.slots[k1].data, j);
    k := GetUnder(f, q, l, s, own);
    ghost var bs2 := f.cache.slots[..];
    ghost var b := W(s.disk, q, l);
    TookStill(bs, bs1, bs2, e, k1, b, k);
    f.Put(k1);
    TookUnder(bs, bs1, bs2, f.cache.slots[..], e, k1, b, k);
  }

  /** Where the last block of the root directory is found. */
  lemma RootBlock(f: Formatter, s: FS, own: Owners, n: nat)
    requires DirReady(f, s, own) && ROOT_INO < |s.inodes| && s.inodes[ROOT_INO].ftype == FTYPE_DIR && n < NBlocks(s.inodes[ROOT_INO])
    ensures var p := s.inodes[ROOT_INO].ptrs; var b := At(s.disk, p, Data(n)); b in own && own[b] == Owner(ROOT_INO, Data(n))
    ensures NDIRECT <= n ==> IsPointer(own, s.inodes[ROOT_INO].ptrs.indirect)
    ensures NFLAT <= n ==> IsPointer(own, s.inodes[ROOT_INO].ptrs.indirect2) && IsPointer(own, SubWord(s, ROOT_INO, n)) && (n - NFLAT) / NINDIRECT < NINDIRECT
  {
    var x := s.inodes[ROOT_INO];
    var d, p, m := s.disk, x.ptrs, NBlocks(x);
    assert FileOk(d, x, ROOT_INO, own);
    assert Needs(m, Data(n));
    StartFile(s, own, f.nextb, ROOT_INO);
    FileFits(s, own, f.nextb, ROOT_INO, m);
    if NDIRECT <= n {
      assert Needs(m, Ind) && At(d, p, Ind) == p.indirect;
    }
    if NFLAT <= n {
      assert Needs(m, Ind2) && At(d, p, Ind2) == p.indirect2;
      assert Needs(m, Sub((n - NFLAT) / NINDIRECT)) && At(d, p, Sub((n - NFLAT) / NINDIRECT)) == SubWord(s, ROOT_INO, n);
    }
  }

  /** The block of the root directory that allocdirentry looks for a blank entry in. */
  method GetRootBlock(f: Formatter, k: nat, n: nat, ghost s: FS, ghost own: Owners) returns (kd: nat)
    requires DirReady(f, s, own) && Pins(f.cache.slots[..]) <= 13 && Holds(f.cache.slots[..], k, f.Geo(), ROOT_INO)
    requires ROOT_INO < |s.inodes| && s.inodes[ROOT_INO].ftype == FTYPE_DIR && n < NBlocks(s.inodes[ROOT_INO])
    modifies f.cache, f.cache.slots
    ensures DirReady(f, s, own)
    ensures Took(old(f.cache.slots[..]), f.cache.slots[..], At(s.disk, s.inodes[ROOT_INO].ptrs, Data(n)), kd)
  {
    hide Layout, FilesOk, KindsOk, Pins, PinsOk, Got, Took;
    RootBlock(f, s, own, n);
    var x := f.ReadInode(k, ROOT_INO);
    if n >= NFLAT {
      kd := GetUnder2(f, x.ptrs.indirect2, (n - NFLAT) / NINDIRECT, (n - NFLAT) % NINDIRECT, s, own);
    } else if n >= NDIRECT {
      kd := GetUnder(f, x.ptrs.indirect, n - NDIRECT, s, own);
    } else {
      OwnedIsOld(f, s, own, x.ptrs.direct[n]);
      ghost var bs := f.cache.slots[..];
      kd := f.GetOld(x.ptrs.direct[n], DirBlock);
      GotTook(bs, f.cache.slots[..], x.ptrs.direct[n], kd);
    }
  }

  // ----- entries -----

  /** Block b holds entry e of directory i. */
  ghost predicate HasEntry(s: FS, i: nat, e: nat, b: nat) {
    i < |s.inodes| && s.inodes[i].ftype == FTYPE_DIR && e < |DirEntries(s, i)| && b == At(s.disk, s.inodes[i].ptrs, Data(e / PER_BLOCK))
  }

  /** The image after entry e of directory i, in block b, was changed to x. */
  ghost predicate EntryPut(s: FS, own: Owners, t: FS, limit: nat, i: nat, e: nat, x: Entry) {
    && FilesOk(t, own, limit) && OthersSame(s, own, t, own, i) && t.inodes == s.inodes && t.free == s.free
    && e < |DirEntries(s, i)| && DirEntries(t, i) == DirEntries(s, i)[e := x]
  }

  lemma EntryWritten(s: FS, own: Owners, limit: nat, i: nat, e: nat, b: nat, blk: Block, x: Entry, t: FS)
    requires FilesOk(s, own, limit) && HasEntry(s, i, e, b) && b < |s.disk| && t == s.(disk := s.disk[b := CellOf(blk)])
    requires forall j: nat :: j < PER_BLOCK ==>
               EntryIn(blk, j) == if j == e % PER_BLOCK then x else EntryIn(s.disk[b].bytes, j)
    ensures EntryPut(s, own, t, limit, i, e, x)
  {
    var n, p := NBlocks(s.inodes[i]), s.inodes[i].ptrs;
    assert FileOk(s.disk, s.inodes[i], i, own);
    StoredTree(s.disk, p, i, own, n, e / PER_BLOCK, b, blk, t.disk);
    hide TreeOk, OthersKeep, EntryIn;
    EntriesAfterStore(s.disk, t.disk, p, n, e, blk, x);
    forall k: nat | k < |s.inodes|
      ensures FileOk(t.disk, s.inodes[k], k, own) && !Stale(s.inodes[k])
    {
      if k != i {
        assert FileOk(s.disk, s.inodes[k], k, own);
        OtherFileKeeps(s.disk, own, t.disk, own, i, s.inodes[k], k);
      }
    }
  }

  /** The directory got one more, blank, block. */
  ghost predicate DirGrown(s: FS, own: Owners, t: FS, own': Owners, i: nat, n: nat, limit: nat) {
    && FilesOk(t, own', limit) && OthersSame(s, own, t, own', i) && t.free == s.free && NBlocks(t.inodes[i]) == n + 1
    && t.inodes[i] == s.inodes[i].(size := t.inodes[i].size, ptrs := t.inodes[i].ptrs) && t.inodes[i].size == BLKSIZE * (n + 1)
    && DirEntries(t, i) == DirEntries(s, i) + Blanks(PER_BLOCK)
  }

  lemma MakeDirGrown(s: FS, own: Owners, s1: FS, t: FS, own': Owners, u: FS, i: nat, n: nat, m: nat, b: nat, limit: nat, size: u32)
    requires FilesOk(s, own, b) && i < |s.inodes| && s.inodes[i].ftype == FTYPE_DIR && s.inodes[i].size == BLKSIZE * n && b < |s.disk|
    requires n == NBlocks(s.inodes[i]) && s1 == s.(disk := s.disk[b := CellOf(ZeroBlock())]) && m == n + 1
    requires Hooked(s1, own, t, own', i, n, m, b, limit) && size == BLKSIZE * m && u == t.(inodes := t.inodes[i := t.inodes[i].(size := size)])
    ensures DirGrown(s, own, u, own', i, n, limit)
  {
    hide FilesOk, TreeOk, FileOk, OthersKeep, Built, DirEntries, DataBytes;
    StartFile(s, own, b, i);
    FreshCellBuilt(s, own, s1, b, i, n, ZeroBlock());
    BuiltSize(s1, own, i, n, b);
    BuiltSize(t, own', i, m, limit);
    OthersKeepTwice(s.disk, own, s1.disk, own, t.disk, own', i);
    FileSized(s, own, b, t, own', i, limit, u, m, size);
    FreshLookups(s, own, s1, b, i, n);
    GrownEntries(s, s1, t, u, i, n, m, b);
  }

  lemma FreshLookups(s: FS, own: Owners, s1: FS, b: nat, i: nat, n: nat)
    requires Built(s, own, b, i, n) && b < |s.disk| && s1 == s.(disk := s.disk[b := CellOf(ZeroBlock())])
    ensures Extends(s.disk, s.inodes[i].ptrs, s1.disk, s.inodes[i].ptrs, n)
  {
    TreeFrame(s.disk, s1.disk, s.inodes[i].ptrs, i, own, own, n);
  }

  lemma GrownEntries(s: FS, s1: FS, t: FS, u: FS, i: nat, n: nat, m: nat, b: nat)
    requires i < |s.inodes| && i < |s1.inodes| && i < |t.inodes| && i < |u.inodes| && b < |s.disk|
    requires s1 == s.(disk := s.disk[b := CellOf(ZeroBlock())]) && u.disk == t.disk && u.inodes[i].ptrs == t.inodes[i].ptrs
    requires m == n + 1 && n == NBlocks(s.inodes[i]) && m == NBlocks(u.inodes[i])
    requires Extends(s.disk, s.inodes[i].ptrs, s1.disk, s.inodes[i].ptrs, n) && Extends(s1.disk, s.inodes[i].ptrs, t.disk, t.inodes[i].ptrs, n)
    requires forall k: nat :: k < n ==> DataBytes(s1.disk, s.inodes[i].ptrs, k) == DataBytes(s.disk, s.inodes[i].ptrs, k)
    requires forall k: nat :: k < n ==> DataBytes(t.disk, t.inodes[i].ptrs, k) == DataBytes(s1.disk, s.inodes[i].ptrs, k)
    requires DataBytes(t.disk, t.inodes[i].ptrs, n) == BytesAt(s1.disk, b)
    ensures DirEntries(u, i) == DirEntries(s, i) + Blanks(PER_BLOCK)
  {
    hide DataBytes, NBlocks, EntryIn;
    EntriesAfterGrowth(s.disk, s.inodes[i].ptrs, u.disk, u.inodes[i].ptrs, n);
  }

  lemma SlotBytes(f: Formatter, k: nat, b: nat)
    requires f.Valid() && k < NCACHE && f.cache.slots[k].busy > 0 && f.cache.slots[k].bno == b && f.Geo().DataStart() <= b
    ensures b < |f.View().disk| && f.cache.slots[k].data == f.View().disk[b].bytes
  {
    InSlot(f.cache.slots[..], f.cache.disk, f.cache.logical, f.nblocks, f.cache.clock, k);
  }

  lemma HookedAt(s: FS, own: Owners, t: FS, own': Owners, i: nat, n: nat, m: nat, b: nat, limit: nat)
    requires Hooked(s, own, t, own', i, n, m, b, limit)
    ensures At(t.disk, t.inodes[i].ptrs, Data(n)) == b && limit == b + (Total(m) - Total(n)) && |t.inodes| == |s.inodes|
  {
    hide FileOk, Total;
  }

  ghost predicate RootOk(s: FS) {
    && ROOT_INO < |s.inodes| && s.inodes[ROOT_INO].ftype == FTYPE_DIR
    && s.inodes[ROOT_INO].size == BLKSIZE * NBlocks(s.inodes[ROOT_INO])
  }

  /** new_dirb: a blank block at the end of the root directory */
  method NewDirBlock(f: Formatter, k: nat, n: nat, ghost s: FS, ghost own: Owners) returns (ok: bool, kd: nat, ghost own': Owners)
    requires DirReady(f, s, own) && Pins(f.cache.slots[..]) <= 11 && Holds(f.cache.slots[..], k, f.Geo(), ROOT_INO)
    requires RootOk(s) && n == NBlocks(s.inodes[ROOT_INO])
    modifies f`nextb, f`kinds, f.cache, f.cache.slots
    ensures ok <==> old(f.nextb) + (Total(n + 1) - Total(n)) <= f.nblocks
    ensures ok ==> f.Ready() && DirReady(f, f.View(), own') && DirGrown(s, own, f.View(), own', ROOT_INO, n, f.nextb)
    ensures ok ==> f.nextb == old(f.nextb) + (Total(n + 1) - Total(n))
    ensures ok ==> Took(old(f.cache.slots[..]), f.cache.slots[..], old(f.nextb), kd)
    ensures ok ==> At(f.View().disk, f.View().inodes[ROOT_INO].ptrs, Data(n)) == old(f.nextb)
  {
    hide Layout, FilesOk, KindsOk, Pins, PinsOk, Got, Took, Total, Built, Hooked, DirGrown, Balanced, Holds;
    CostOfBlock(n);
    ghost var bs := f.cache.slots[..];
    var b := f.nextb;
    StartFile(s, own, b, ROOT_INO);
    BuiltTree(s, own, b, ROOT_INO, n);
    FileFits(s, own, b, ROOT_INO, n);
    ViewShape(f);
    own' := own;
    ok, kd := f.GetFresh(DirBlock);
    if !ok {
      return;
    }
    ghost var bs1 := f.cache.slots[..];
    GotPins(bs, bs1, b, kd);
    GotTook(bs, bs1, b, kd);
    HoldsAfterGot(bs, bs1, b, kd, k, f.Geo(), ROOT_INO);
    FreshKinds(own, old(f.kinds), b, DirBlock);
    FreshCellBuilt(s, own, f.View(), b, ROOT_INO, n, ZeroBlock());
    ok, own' := CountDirBlock(f, k, n, b, s, own);
    if ok {
      TookBalanced(bs, bs1, f.cache.slots[..], b, kd);
    }
  }

  /** The new block becomes the last of the root directory, whose size follows. */
  method CountDirBlock(f: Formatter, k: nat, n: nat, b: u32, ghost s: FS, ghost own: Owners) returns (ok: bool, ghost own': Owners)
    requires FilesOk(s, own, b) && RootOk(s) && n == NBlocks(s.inodes[ROOT_INO]) && BLKSIZE * (n + 1) < TWO32
    requires b < |s.disk| && FreshReady(f, s.(disk := s.disk[b as nat := CellOf(ZeroBlock())]), own, ROOT_INO, k, b, n)
    modifies f`nextb, f`kinds, f.cache, f.cache.slots
    ensures ok <==> b + (Total(n + 1) - Total(n)) <= f.nblocks
    ensures ok ==> f.Ready() && DirReady(f, f.View(), own') && DirGrown(s, own, f.View(), own', ROOT_INO, n, f.nextb)
    ensures ok ==> f.nextb == b + (Total(n + 1) - Total(n)) && Balanced(old(f.cache.slots[..]), f.cache.slots[..])
    ensures ok ==> At(f.View().disk, f.View().inodes[ROOT_INO].ptrs, Data(n)) == b
  {
    hide Layout, FilesOk, KindsOk, Pins, PinsOk, Got, Took, Total, Built, Hooked, Balanced, Holds;
    ghost var bs := f.cache.slots[..];
    ghost var s1 := s.(disk := s.disk[b as nat := CellOf(ZeroBlock())]);
    ok, own' := CountAndStore(f, ROOT_INO, k, b, n, s1, own);
    if !ok {
      return;
    }
    ghost var bs1, t, m := f.cache.slots[..], f.View(), n + 1;
    HookedAt(s1, own, t, own', ROOT_INO, n, m, b, f.nextb);
    HoldsSame(bs, bs1, k, f.Geo(), ROOT_INO);
    f.StoreInode(k, ROOT_INO, F_SIZE, (n + 1) * BLKSIZE);
    BalancedTransitive(bs, bs1, f.cache.slots[..]);
    MakeDirGrown(s, own, s1, t, own', f.View(), ROOT_INO, n, m, b, f.nextb, (n + 1) * BLKSIZE);
  }

  // ----- allocdirentry -----

  /** The first blank entry at or after k. */
  function BlankFrom(es: seq<Entry>, k: nat): (e: nat)
    requires k <= |es|
    ensures k <= e <= |es| && forall j :: k <= j < e ==> es[j].Live()
    ensures e < |es| ==> !es[e].Live()
    decreases |es| - k
  {
    if k == |es| || !es[k].Live() then k else BlankFrom(es, k + 1)
  }

  /** Where a name goes: the first blank entry of the last block, or else the first entry of a new one. */
  function EntryFor(es: seq<Entry>): (e: nat)
    ensures e <= |es|
  {
    BlankFrom(es, if |es| < PER_BLOCK then |es| else |es| - PER_BLOCK)
  }

  lemma EntryForIs(es: seq<Entry>, e: nat)
    requires PER_BLOCK <= |es| && |es| - PER_BLOCK <= e <= |es| && forall j :: |es| - PER_BLOCK <= j < e ==> es[j].Live()
    requires e < |es| ==> !es[e].Live()
    ensures EntryFor(es) == e
  {
  }

  /** The scan of one directory block */
  method ScanBlock(blk: Block) returns (j: nat)
    ensures j <= PER_BLOCK && (forall m: nat :: m < j ==> EntryIn(blk, m).Live()) && (j < PER_BLOCK ==> !EntryIn(blk, j).Live())
  {
    j := 0;
    while j < PER_BLOCK && Word(blk, 32 * j) != 0
      invariant j <= PER_BLOCK && forall m: nat :: m < j ==> EntryIn(blk, m).Live()
    {
      assert EntryIn(blk, j).Live();
      j := j + 1;
    }
  }

  lemma LastBlockScanned(s: FS, i: nat, n: nat, blk: Block, j: nat)
    requires i < |s.inodes| && n == NBlocks(s.inodes[i]) > 0 && j <= PER_BLOCK && blk == DataBytes(s.disk, s.inodes[i].ptrs, n - 1)
    requires (forall m: nat :: m < j ==> EntryIn(blk, m).Live()) && (j < PER_BLOCK ==> !EntryIn(blk, j).Live())
    ensures EntryFor(DirEntries(s, i)) == PER_BLOCK * (n - 1) + j
  {
    hide EntryFor, EntryIn, NBlocks, DataBytes;
    var es, e := DirEntries(s, i), PER_BLOCK * (n - 1);
    assert forall m :: e <= m < |es| ==> es[m] == EntryIn(blk, m - e);
    EntryForIs(es, e + j);
  }

  /** A blank entry of the last block, if there is one. */
  method FindBlank(f: Formatter, k: nat, n: nat, ghost s: FS, ghost own: Owners) returns (kd: nat, j: nat)
    requires DirReady(f, s, own) && Pins(f.cache.slots[..]) <= 11 && Holds(f.cache.slots[..], k, f.Geo(), ROOT_INO)
    requires RootOk(s) && n == NBlocks(s.inodes[ROOT_INO]) > 0
    modifies f.cache, f.cache.slots
    ensures DirReady(f, s, own) && j <= PER_BLOCK && EntryFor(DirEntries(s, ROOT_INO)) == PER_BLOCK * (n - 1) + j
    ensures Took(old(f.cache.slots[..]), f.cache.slots[..], At(s.disk, s.inodes[ROOT_INO].ptrs, Data(n - 1)), kd)
  {
    hide Layout, FilesOk, KindsOk, Pins, PinsOk, Took, Holds, NBlocks, EntryFor;
    ghost var bs := f.cache.slots[..];
    RootBlock(f, s, own, n - 1);
    kd := GetRootBlock(f, k, n - 1, s, own);
    ghost var b, es := At(s.disk, s.inodes[ROOT_INO].ptrs, Data(n - 1)), DirEntries(s, ROOT_INO);
    OwnedIsOld(f, s, own, b);
    TookIs(bs, f.cache.slots[..], b, kd);
    SlotBytes(f, kd, b);
    j := ScanBlock(f.cache.slots[kd].data);
    LastBlockScanned(s, ROOT_INO, n, f.cache.slots[kd].data, j);
  }

  /** A pinned block of the root directory is rewritten so that one entry changes. */
  method StoreEntry(f: Formatter, kd: nat, e: nat, blk: Block, ghost b: nat, ghost x: Entry, ghost s: FS, ghost own: Owners)
    requires DirReady(f, s, own) && kd < NCACHE && f.cache.slots[kd].busy > 0 && f.cache.slots[kd].bno == b && HasEntry(s, ROOT_INO, e, b)
    requires forall j: nat :: j < PER_BLOCK ==>
               EntryIn(blk, j) == if j == e % PER_BLOCK then x else EntryIn(f.cache.slots[kd].data, j)
    modifies f.cache, f.cache.slots
    ensures f.Ready() && Balanced(old(f.cache.slots[..]), f.cache.slots[..])
    ensures DirReady(f, f.View(), own) && EntryPut(s, own, f.View(), f.nextb, ROOT_INO, e, x)
  {
    hide Layout, FilesOk, KindsOk, Pins, PinsOk, Balanced, EntryIn, HasEntry;
    EntryBlock(s, own, f.nextb, ROOT_INO, e, b);
    ViewShape(f);
    SlotBytes(f, kd, b);
    f.StoreBlock(kd, blk);
    EntryWritten(s, own, f.nextb, ROOT_INO, e, b, blk, x, f.View());
  }

  lemma EntryBlock(s: FS, own: Owners, limit: nat, i: nat, e: nat, b: nat)
    requires FilesOk(s, own, limit) && HasEntry(s, i, e, b)
    ensures s.geo.DataStart() <= b < limit <= |s.disk| && b in own && own[b] == Owner(i, Data(e / PER_BLOCK))
  {
    assert FileOk(s.disk, s.inodes[i], i, own);
    assert Needs(NBlocks(s.inodes[i]), Data(e / PER_BLOCK));
  }

  /** The directory with a place for one more name. */
  function Widened(es: seq<Entry>): (r: seq<Entry>)
    ensures EntryFor(es) < |r|
  {
    if EntryFor(es) == |es| then es + Blanks(PER_BLOCK) else es
  }

  /** Blocks that one more name costs. */
  function DirCost(es: seq<Entry>): nat {
    TotalGrows(|es| / PER_BLOCK, |es| / PER_BLOCK + 1);
    if EntryFor(es) == |es| then Total(|es| / PER_BLOCK + 1) - Total(|es| / PER_BLOCK) else 0
  }

  /** The root directory has one more entry x, and grew if it had to. */
  ghost predicate EntryAdded(s: FS, own: Owners, t: FS, own': Owners, limit: nat, x: Entry) {
    && FilesOk(t, own', limit) && OthersSame(s, own, t, own', ROOT_INO) && t.free == s.free && RootOk(t) && ROOT_INO < |s.inodes|
    && t.inodes[ROOT_INO] == s.inodes[ROOT_INO].(size := t.inodes[ROOT_INO].size, ptrs := t.inodes[ROOT_INO].ptrs)
    && DirEntries(t, ROOT_INO) == var es := DirEntries(s, ROOT_INO); Widened(es)[EntryFor(es) := x]
  }

  /** The root directory, widened if it was full, has its blank entry e. */
  ghost predicate Placed(s: FS, own: Owners, t: FS, own': Owners, e: nat) {
    && ROOT_INO < |s.inodes| && e == EntryFor(DirEntries(s, ROOT_INO)) && OthersSame(s, own, t, own', ROOT_INO) && t.free == s.free && RootOk(t)
    && t.inodes[ROOT_INO] == s.inodes[ROOT_INO].(size := t.inodes[ROOT_INO].size, ptrs := t.inodes[ROOT_INO].ptrs)
    && DirEntries(t, ROOT_INO) == Widened(DirEntries(s, ROOT_INO))
  }

  lemma PlacedHere(s: FS, own: Owners, i: nat, n: nat, j: nat, b: nat)
    requires RootOk(s) && i == ROOT_INO && n == NBlocks(s.inodes[i]) > 0 && j < PER_BLOCK && b == At(s.disk, s.inodes[i].ptrs, Data(n - 1))
    requires EntryFor(DirEntries(s, i)) == PER_BLOCK * (n - 1) + j
    ensures HasEntry(s, i, PER_BLOCK * (n - 1) + j, b) && Placed(s, own, s, own, PER_BLOCK * (n - 1) + j)
    ensures DirCost(DirEntries(s, i)) == 0
  {
    hide EntryFor, NBlocks, Total, At, FilesOk, OthersKeep;
    OthersKeepSelf(s, own, i);
  }

  lemma OthersKeepSelf(s: FS, own: Owners, i: nat)
    ensures OthersKeep(s.disk, own, s.disk, own, i)
  {
  }

  lemma PlacedNew(s: FS, own: Owners, t: FS, own': Owners, i: nat, n: nat, b: nat, limit: nat)
    requires RootOk(s) && i == ROOT_INO && n == NBlocks(s.inodes[i]) && DirGrown(s, own, t, own', i, n, limit)
    requires EntryFor(DirEntries(s, i)) == PER_BLOCK * n && b == At(t.disk, t.inodes[i].ptrs, Data(n))
    ensures HasEntry(t, i, PER_BLOCK * n, b) && Placed(s, own, t, own', PER_BLOCK * n)
  {
    hide FilesOk, At, OthersKeep, NBlocks, EntryFor;
  }

  lemma FullCost(s: FS, n: nat)
    requires RootOk(s) && n == NBlocks(s.inodes[ROOT_INO]) && EntryFor(DirEntries(s, ROOT_INO)) == PER_BLOCK * n
    ensures DirCost(DirEntries(s, ROOT_INO)) == Total(n + 1) - Total(n)
  {
    hide EntryFor, NBlocks, Total;
  }

  /** A place for one more entry, in the block that slot kd pins. */
  method FindPlace(f: Formatter, k: nat, ghost s: FS, ghost own: Owners)
    returns (ok: bool, kd: nat, e: nat, ghost b: nat, ghost own': Owners)
    requires DirReady(f, s, own) && Pins(f.cache.slots[..]) <= 11 && Holds(f.cache.slots[..], k, f.Geo(), ROOT_INO) && RootOk(s)
    modifies f`nextb, f`kinds, f.cache, f.cache.slots
    ensures ok <==> old(f.nextb) + DirCost(DirEntries(s, ROOT_INO)) <= f.nblocks
    ensures ok ==> f.Ready() && f.nextb == old(f.nextb) + DirCost(DirEntries(s, ROOT_INO))
    ensures ok ==> DirReady(f, f.View(), own') && Took(old(f.cache.slots[..]), f.cache.slots[..], b, kd)
    ensures ok ==> HasEntry(f.View(), ROOT_INO, e, b) && Placed(s, own, f.View(), own', e)
  {
    hide Layout, FilesOk, KindsOk, Pins, PinsOk, Took, Holds, NBlocks, EntryFor, DirGrown, Total, DirCost, Placed, HasEntry, DirEntries;
    ghost var bs := f.cache.slots[..];
    HoldsIs(bs, k, f.Geo(), ROOT_INO);
    var x := f.ReadInode(k, ROOT_INO);
    var n := (x.size + BLKSIZE - 1) / BLKSIZE;
    e, kd, b, own', ok := PER_BLOCK * n, 0, 0, own, true;
    if n == 0 {
      EmptyDir(s);
    } else {
      ghost var d := At(s.disk, s.inodes[ROOT_INO].ptrs, Data(n - 1));
      kd, e := FindBlank(f, k, n, s, own);
      if e < PER_BLOCK {
        PlacedHere(s, own, ROOT_INO, n, e, d);
        e, b := PER_BLOCK * (n - 1) + e, d;
        return;
      }
      ghost var bs1 := f.cache.slots[..];
      TookIs(bs, bs1, d, kd);
      f.Put(kd);
      TookAndPut(bs, bs1, f.cache.slots[..], d, kd);
      BalancedPins(bs, f.cache.slots[..]);
      HoldsSame(bs, f.cache.slots[..], k, f.Geo(), ROOT_INO);
    }
    ghost var bs2 := f.cache.slots[..];
    FullCost(s, n);
    b := f.nextb;
    ok, kd, own' := NewDirBlock(f, k, n, s, own);
    if ok {
      e := PER_BLOCK * n;
      PlacedNew(s, own, f.View(), own', ROOT_INO, n, b, f.nextb);
      BalancedTook(bs, bs2, f.cache.slots[..], b, kd);
    }
  }

  lemma EmptyDir(s: FS)
    requires RootOk(s) && NBlocks(s.inodes[ROOT_INO]) == 0
    ensures EntryFor(DirEntries(s, ROOT_INO)) == 0
  {
  }

  lemma WidenedBlank(es: seq<Entry>)
    ensures Widened(es)[EntryFor(es)].ino == 0
  {
  }

  /** The name is written before the inode number. */
  lemma NameStored(blk: Block, j: nat, name: seq<byte>)
    requires j < PER_BLOCK && |name| <= MAXNAMELEN && 0 !in name && EntryIn(blk, j).ino == 0
    ensures forall m: nat :: m < PER_BLOCK ==>
              EntryIn(PutBytes(blk, 128 * j + 4, name + [0]), m) == if m == j then Entry(0, name) else EntryIn(blk, m)
  {
    hide EntryIn, PutBytes;
    forall m: nat | m < PER_BLOCK
      ensures EntryIn(PutBytes(blk, 128 * j + 4, name + [0]), m) == if m == j then Entry(0, name) else EntryIn(blk, m)
    {
      EntryAfterName(blk, j, name, m);
    }
  }

  lemma InoStored(blk: Block, j: nat, ino: u32, x: Entry)
    requires j < PER_BLOCK && EntryIn(blk, j).name == x.name && x.ino == ino
    ensures forall m: nat :: m < PER_BLOCK ==> EntryIn(PutWord(blk, 32 * j, ino), m) == if m == j then x else EntryIn(blk, m)
  {
    hide EntryIn, PutWord;
    forall m: nat | m < PER_BLOCK
      ensures EntryIn(PutWord(blk, 32 * j, ino), m) == if m == j then x else EntryIn(blk, m)
    {
      EntryAfterIno(blk, j, ino, m);
    }
  }

  lemma EntryInSlot(f: Formatter, s: FS, own: Owners, kd: nat, e: nat, b: nat)
    requires DirReady(f, s, own) && HasEntry(s, ROOT_INO, e, b)
    requires kd < NCACHE && f.cache.slots[kd].busy > 0 && f.cache.slots[kd].bno == b
    ensures EntryIn(f.cache.slots[kd].data, e % PER_BLOCK) == DirEntries(s, ROOT_INO)[e]
  {
    hide FileOk, At, EntryIn, NBlocks, Layout;
    EntryBlock(s, own, f.nextb, ROOT_INO, e, b);
    ViewShape(f);
    SlotBytes(f, kd, b);
  }

  lemma EntryNamed(s: FS, own: Owners, s1: FS, own1: Owners, t: FS, e: nat, limit: nat, x: Entry)
    requires Placed(s, own, s1, own1, e) && EntryPut(s1, own1, t, limit, ROOT_INO, e, x) && |s1.disk| == |s.disk|
    ensures EntryAdded(s, own, t, own1, limit, x)
  {
    hide FilesOk, OthersKeep, DirEntries, NBlocks, EntryFor;
    OthersKeepTwice(s.disk, own, s1.disk, own1, t.disk, own1, ROOT_INO);
  }

  /** allocdirentry. A name that is too long is reported by a null pointer, which the callers follow: they abort too. */
  method AllocDirEntry(f: Formatter, k: nat, name: seq<byte>, ghost s: FS, ghost own: Owners)
    returns (ok: bool, kd: nat, e: nat, ghost b: nat, ghost own': Owners)
    requires DirReady(f, s, own) && Pins(f.cache.slots[..]) <= 11 && Holds(f.cache.slots[..], k, f.Geo(), ROOT_INO) && RootOk(s)
    requires 0 !in name
    modifies f`nextb, f`kinds, f.cache, f.cache.slots
    ensures ok <==> |name| <= MAXNAMELEN && old(f.nextb) + DirCost(DirEntries(s, ROOT_INO)) <= f.nblocks
    ensures ok ==> f.Ready() && f.nextb == old(f.nextb) + DirCost(DirEntries(s, ROOT_INO))
    ensures ok ==> DirReady(f, f.View(), own') && Took(old(f.cache.slots[..]), f.cache.slots[..], b, kd)
    ensures ok ==> HasEntry(f.View(), ROOT_INO, e, b) && EntryAdded(s, own, f.View(), own', f.nextb, Entry(0, name))
    ensures ok ==> e == EntryFor(DirEntries(s, ROOT_INO))
  {
    hide Layout, FilesOk, KindsOk, Pins, PinsOk, Took, NBlocks, EntryFor, DirCost, HasEntry, DirEntries, PutBytes, EntryIn;
    ghost var bs := f.cache.slots[..];
    ok, kd, e, b, own' := false, 0, 0, 0, own;
    if |name| > MAXNAMELEN {
      return;
    }
    ok, kd, e, b, own' := FindPlace(f, k, s, own);
    if !ok {
      return;
    }
    ghost var bs1, s1 := f.cache.slots[..], f.View();
    TookIs(bs, bs1, b, kd);
    WidenedBlank(DirEntries(s, ROOT_INO));
    EntryInSlot(f, s1, own', kd, e, b);
    NameStored(f.cache.slots[kd].data, e % PER_BLOCK, name);
    StoreEntry(f, kd, e, PutBytes(f.cache.slots[kd].data, 128 * (e % PER_BLOCK) + 4, name + [0]), b, Entry(0, name), s1, own');
    TookBalanced(bs, bs1, f.cache.slots[..], b, kd);
    EntryNamed(s, own, s1, own', f.View(), e, f.nextb, Entry(0, name));
    StillHasEntry(s1, own', f.View(), e, b, f.nextb, Entry(0, name));
  }

  lemma StillHasEntry(s: FS, own: Owners, t: FS, e: nat, b: nat, limit: nat, x: Entry)
    requires FilesOk(s, own, limit) && HasEntry(s, ROOT_INO, e, b) && EntryPut(s, own, t, limit, ROOT_INO, e, x)
    ensures HasEntry(t, ROOT_INO, e, b)
  {
  }
}
