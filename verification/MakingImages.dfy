/** main: from the command line to a finished image, and what that image is worth to the module. */
module MakingImages {
  import opened Words
  import opened BlockTree
  import opened FileSystem
  import opened Ownership
  import opened FileIO
  import opened Directories
  import opened Links
  import opened Runs
  import opened Contents
  import opened BlockCache
  import opened Formatting
  import opened Building
  import opened HostFiles
  import opened RootDirectory
  import opened WholeImage
  import opened Finishing

  const ROOT_DIR: Inode := Inode(0, FTYPE_DIR, 1, ROOT_MODE, NO_POINTERS)

  // ----- the empty image -----

  lemma NoTree(d: seq<Cell>, x: Inode, i: nat)
    requires x.ptrs == NO_POINTERS && x.size == 0 && x.ftype != FTYPE_SYMLINK
    ensures FileOk(d, x, i, map[]) && !Stale(x) && NBlocks(x) == 0
  {
    forall slot
      ensures !Needs(0, slot) && (ScannedAsUnused(0, slot) ==> At(d, x.ptrs, slot) == 0)
    {
      match slot case Data(k) => case Ind => case Ind2 => case Sub(t) =>
    }
  }

  /** Inode 0 is taken out of use, and inode 1 becomes an empty root directory. */
  lemma RootMade(s: FS, t: FS)
    requires Blank(s) && |s.inodes| >= 2
    requires t == s.(inodes := s.inodes[0 := BLANK_INODE.(nlink := 1)][ROOT_INO := ROOT_DIR])
    ensures FilesOk(t, map[], t.geo.DataStart()) && HoldsSome(t, [], 0)
  {
    hide FileOk, Stale;
    forall k: nat | k < |t.inodes|
      ensures FileOk(t.disk, t.inodes[k], k, map[]) && !Stale(t.inodes[k]) && NBlocks(t.inodes[k]) == 0
    {
      NoTree(t.disk, t.inodes[k], k);
    }
  }

  /** An inode that is only taken out of use */
  method SkipInode(f: Formatter)
    requires f.Ready() && Pins(f.cache.slots[..]) < NCACHE && f.nextinode < f.ninodes
    modifies f`nextinode, f.cache, f.cache.slots
    ensures f.Ready() && Balanced(old(f.cache.slots[..]), f.cache.slots[..]) && f.nextinode == old(f.nextinode) + 1
    ensures var i: nat := old(f.nextinode); var s := old(f.View());
            i < |s.inodes| && f.View() == s.(inodes := s.inodes[i := s.inodes[i].(nlink := 1)])
  {
    hide Layout, Pins, PinsOk, Took, Balanced;
    ghost var bs := f.cache.slots[..];
    ViewShape(f);
    var ok, i, k := AllocInode(f);
    ghost var b, bs1 := InodeBlockOf(f.Geo(), i), f.cache.slots[..];
    TookIs(bs, bs1, b, k);
    f.StoreInode(k, i, F_NLINK, 1);
    ghost var bs2 := f.cache.slots[..];
    TookBalanced(bs, bs1, bs2, b, k);
    TookIs(bs, bs2, b, k);
    f.Put(k);
    TookAndPut(bs, bs2, f.cache.slots[..], b, k);
  }

  /** The inodes that main allocates before any file; the root's stays pinned, by slot k. */
  method MakeRoot(f: Formatter) returns (k: nat, ghost own: Owners)
    requires f.Ready() && Pins(f.cache.slots[..]) == 0 && Blank(f.View()) && f.nextinode == 0 && f.ninodes >= 2
    requires f.nextb == f.Geo().DataStart()
    modifies f`nextinode, f.cache, f.cache.slots
    ensures f.Ready() && f.View().free == Span(0, NBITS) && Between(f, own, k, [])
  {
    hide Layout, Pins, PinsOk, Took, Balanced, Holds, FilesOk, HoldsSome;
    ghost var bs, s := f.cache.slots[..], f.View();
    own := map[];
    ViewShape(f);
    SkipInode(f);
    ghost var bs1, s1 := f.cache.slots[..], f.View();
    BalancedPins(bs, bs1);
    var ok, i;
    ok, i, k := AllocInode(f);
    ghost var bs2 := f.cache.slots[..];
    TookIs(bs1, bs2, InodeBlockOf(f.Geo(), i), k);
    HoldsFromTook(bs1, bs2, k, f.Geo(), i);
    InitInode(f, i, k, FTYPE_DIR, ROOT_MODE, s1);
    RootMade(s, f.View());
    MakeBetween(f, own, k, [], bs2);
  }

  // ----- the command line -----

  /** nextb before file j is written. */
  function NextBefore(m: nat, files: seq<HostFile>, j: nat): nat
    requires j <= |files|
  {
    if j == 0 then FREEMAP_BLK + 1 + (m + BLKINODES - 1) / BLKINODES
    else NextBefore(m, files, j - 1) + FileUse(files[..j - 1], files[j - 1])
  }

  /** The name of file j is not too long, and there are an inode and blocks left for it. */
  predicate GoesIn(n: nat, m: nat, files: seq<HostFile>, j: nat)
    requires j < |files|
  {
    |files[j].name| <= MAXNAMELEN && FIRST_INO + j < m && NextBefore(m, files, j) + FileCost(files[..j], files[j]) <= n
  }

  ghost predicate AllGoIn(n: nat, m: nat, files: seq<HostFile>) {
    forall j :: 0 <= j < |files| ==> GoesIn(n, m, files, j)
  }

  lemma NextStep(m: nat, files: seq<HostFile>, j: nat)
    requires j < |files|
    ensures NextBefore(m, files, j + 1) == NextBefore(m, files, j) + FileUse(files[..j], files[j])
    ensures files[..j] + [files[j]] == files[..j + 1]
  {
  }

  /** All files named on the command line, one after the other */
  method WriteFiles(f: Formatter, k: nat, files: seq<HostFile>, ghost own0: Owners) returns (ok: bool, ghost own: Owners)
    requires f.Ready() && Between(f, own0, k, []) && f.nextb == NextBefore(f.ninodes, files, 0)
    requires forall j :: 0 <= j < |files| ==> 0 !in files[j].name
    modifies f`nextb, f`kinds, f`nextinode, f.cache, f.cache.slots
    ensures ok <==> AllGoIn(f.nblocks, f.ninodes, files)
    ensures ok ==> f.Ready() && Between(f, own, k, files) && f.nextb == NextBefore(f.ninodes, files, |files|)
    ensures ok ==> f.View().free == old(f.View()).free
  {
    hide Layout, Pins, PinsOk, Holds, FilesOk, HoldsSome, FileUse, FileCost, NextBefore, KindsOk;
    own, ok := own0, true;
    ghost var free := f.View().free;
    var i: nat := 0;
    while i < |files|
      invariant i <= |files| && f.Ready() && Between(f, own, k, files[..i]) && f.View().free == free
      invariant f.nextb == NextBefore(f.ninodes, files, i)
      invariant forall j: nat :: j < i ==> GoesIn(f.nblocks, f.ninodes, files, j)
    {
      NextStep(f.ninodes, files, i);
      ok, own := WriteFile(f, k, files[i], files[..i], own);
      assert ok <==> GoesIn(f.nblocks, f.ninodes, files, i);
      if !ok {
        return;
      }
      i := i + 1;
    }
    assert files[..|files|] == files;
  }

  /** A finished image: the files are in it, the blocks up to 'limit' are in use, and the others are free. */
  ghost predicate Finished(s: FS, own: Owners, limit: nat, files: seq<HostFile>) {
    FilesOk(s, own, limit) && HoldsSome(s, files, |files|) && s.free == Span(limit, Min(s.geo.nblocks, ALLOC_BITS))
  }

  lemma FreeViewIs(bitmap: Block, lo: nat, hi: nat)
    requires BitsOf(bitmap) == Span(lo, hi)
    ensures FreeView(bitmap) == Span(lo, Min(hi, ALLOC_BITS))
  {
    forall b: nat | b < ALLOC_BITS
      ensures b in FreeView(bitmap) <==> b in Span(lo, hi)
    {
      assert b in BitsOf(bitmap) <==> FreeBit(bitmap, b);
    }
  }

  lemma FreeOnly(s: FS, own: Owners, limit: nat, files: seq<HostFile>, t: FS)
    requires FilesOk(s, own, limit) && HoldsSome(s, files, |files|) && t == s.(free := t.free)
    ensures FilesOk(t, own, limit) && HoldsSome(t, files, |files|)
  {
    hide Listed, FileOk, RawOf;
    assert DirEntries(t, ROOT_INO) == DirEntries(s, ROOT_INO);
    forall j: nat | j < |files|
      ensures FileIs(t, FIRST_INO + j, files[j].content)
    {
      assert FileIs(s, FIRST_INO + j, files[j].content);
      SameRaw(s, t, FIRST_INO + j);
    }
  }

  /** What the module sees on the finished disk. */
  lemma DiskFinished(l: Disk, g: Geometry, own: Owners, limit: nat, files: seq<HostFile>)
    requires g.Ok() && |l| == g.nblocks && GeometryOf(l) == g
    requires FilesOk(Layout(l, g), own, limit) && HoldsSome(Layout(l, g), files, |files|) && Layout(l, g).free == Span(limit, g.nblocks)
    ensures HasGeometry(l) && Finished(ViewOf(l), own, limit, files)
  {
    hide FilesOk, HoldsSome, CellsIn, InodesIn, BitsOf, FreeView, Span;
    FreeViewIs(l[FREEMAP_BLK], limit, g.nblocks);
    FreeOnly(Layout(l, g), own, limit, files, ViewOf(l));
  }

  /** putblk of the root's inode, finishfs and flushdisk */
  method FinishImage(f: Formatter, k: nat, ghost files: seq<HostFile>, ghost own: Owners) returns (disk: seq<Block>)
    requires f.Ready() && Between(f, own, k, files) && f.View().free == Span(0, NBITS)
    modifies f.cache, f.cache.slots
    ensures |disk| == f.nblocks > FREEMAP_BLK && HasGeometry(disk) && GeometryOf(disk) == f.Geo()
    ensures IsSuper(disk[1], f.nblocks, f.ninodes)
    ensures Finished(ViewOf(disk), own, f.nextb, files)
  {
    hide Layout, Pins, PinsOk, Holds, FilesOk, HoldsSome, KindsOk, Span, HasGeometry, GeometryOf, ViewOf, Finished, Balanced, IsSuper;
    HoldsIs(f.cache.slots[..], k, f.Geo(), ROOT_INO);
    PinsAfter(f.cache.slots[..], k, f.cache.slots[k].(busy := f.cache.slots[k].busy - 1));
    ghost var s := f.View();
    f.Put(k);
    FinishFs(f);
    FreeOnly(s, own, f.nextb, files, f.View());
    ghost var l := f.cache.logical;
    SameView(f, l);
    f.cache.FlushDisk();
    disk := f.cache.disk;
    DiskFinished(l, f.Geo(), own, f.nextb, files);
  }

  /** main: aborts exactly when some file does not go in. */
  method MakeImage(n: u32, m: u32, files: seq<HostFile>) returns (ok: bool, disk: seq<Block>, ghost own: Owners)
    requires LayoutFits(n, m) && forall j :: 0 <= j < |files| ==> 0 !in files[j].name
    ensures ok <==> AllGoIn(n, m, files)
    ensures ok ==> |disk| == n > FREEMAP_BLK && HasGeometry(disk) && GeometryOf(disk) == Geometry(n, m, FREEMAP_BLK + 1)
    ensures ok ==> IsSuper(disk[1], n, m)
    ensures ok ==> Finished(ViewOf(disk), own, NextBefore(m, files, |files|), files)
  {
    hide Layout, Pins, PinsOk, Holds, FilesOk, HoldsSome, NextBefore, KindsOk, Span, HasGeometry, GeometryOf, ViewOf, Finished, Blank, Balanced, Between;
    hide IsSuper;
    disk := [];
    FirstDataBlock(n, m);
    StartIs(m, files);
    var f := new Formatter(n, m);
    ghost var bs := f.cache.slots[..];
    OpenDisk(f);
    BalancedPins(bs, f.cache.slots[..]);
    var k;
    k, own := MakeRoot(f);
    ok, own := WriteFiles(f, k, files, own);
    if ok {
      disk := FinishImage(f, k, files, own);
    }
  }

  lemma StartIs(m: nat, files: seq<HostFile>)
    ensures NextBefore(m, files, 0) == Geometry(0, m, FREEMAP_BLK + 1).DataStart()
  {
  }

  // ----- what the module makes of the image -----

  predicate DistinctNames(files: seq<HostFile>) {
    forall i, j :: 0 <= i < j < |files| ==> files[i].name != files[j].name
  }

  predicate ShortNames(files: seq<HostFile>) {
    forall j :: 0 <= j < |files| ==> |files[j].name| <= MAXNAMELEN
  }

  /** Nothing leaks and nothing is used twice, unless the image outgrew the bits that the module's allocator can handle. */
  lemma InvIff(s: FS, own: Owners, limit: nat, files: seq<HostFile>)
    requires Finished(s, own, limit, files) && LayoutFits(s.geo.nblocks, s.geo.ninodes)
    ensures Inv(s, own) <==> limit <= ALLOC_BITS
  {
    hide FileOk, Stale, HoldsSome;
    if limit > ALLOC_BITS {
      assert limit - 1 in own && !s.geo.Usable(limit - 1);
    } else {
      assert FreeOk(s.geo, s.free, own);
    }
  }

  lemma NamesOkIff(es: seq<Entry>, files: seq<HostFile>)
    requires Listed(es, files) && ShortNames(files)
    ensures NamesOk(es) <==> DistinctNames(files)
  {
    assert forall e :: 0 <= e < |es| ==> (es[e].Live() <==> e < |files|);
    if NamesOk(es) {
      forall i, j | 0 <= i < j < |files|
        ensures files[i].name != files[j].name
      {
        assert es[i].Live() && es[j].Live() && es[i].name != es[j].name;
      }
    }
  }

  /** Each file has one name. */
  lemma {:induction false} CountListed(es: seq<Entry>, files: seq<HostFile>, k: nat, x: nat)
    requires Listed(es, files) && k <= |es| && x > 0
    ensures Count(es[..k], x) == if FIRST_INO <= x < FIRST_INO + Min(k, |files|) then 1 else 0
  {
    if k > 0 {
      assert es[..k][..k - 1] == es[..k - 1];
      CountListed(es, files, k - 1, x);
    }
  }

  /** The root is the only directory. */
  lemma {:induction false} CountAllRoot(s: FS, j: nat, k: nat)
    requires k <= |s.inodes| && forall i: nat :: i < |s.inodes| ==> (s.inodes[i].ftype == FTYPE_DIR <==> i == ROOT_INO)
    ensures CountAll(s, j, k) == if k > ROOT_INO then Count(DirEntries(s, ROOT_INO), j) else 0
  {
    hide DirEntries, Count;
    if k > 0 {
      CountAllRoot(s, j, k - 1);
    }
  }

  lemma OneDirectory(s: FS, files: seq<HostFile>)
    requires HoldsSome(s, files, |files|)
    ensures forall i: nat :: i < |s.inodes| ==> (s.inodes[i].ftype == FTYPE_DIR <==> i == ROOT_INO)
  {
    hide Listed, DirEntries, RawOf;
    forall i: nat | i < |s.inodes| && i != ROOT_INO
      ensures s.inodes[i].ftype == FTYPE_REG
    {
      if FIRST_INO <= i < FIRST_INO + |files| {
        assert FileIs(s, FIRST_INO + (i - FIRST_INO), files[i - FIRST_INO].content);
      }
    }
  }

  lemma LinksOk(s: FS, files: seq<HostFile>, j: nat)
    requires HoldsSome(s, files, |files|) && j < |s.inodes| && j != ROOT_INO
    ensures LinkOk(s, j)
  {
    hide DirEntries, RawOf;
    var es := DirEntries(s, ROOT_INO);
    OneDirectory(s, files);
    CountAllRoot(s, j, |s.inodes|);
    if j > 0 {
      CountListed(es, files, |es|, j);
      assert es[..|es|] == es;
    }
    if FIRST_INO <= j < FIRST_INO + |files| {
      assert FileIs(s, FIRST_INO + (j - FIRST_INO), files[j - FIRST_INO].content);
    }
  }

  /** Names are unique and link counts right exactly when no two host files have the same last component. */
  lemma TidyIff(s: FS, files: seq<HostFile>)
    requires HoldsSome(s, files, |files|) && ShortNames(files)
    ensures Tidy(s) <==> DistinctNames(files)
  {
    hide DirEntries, LinkOk, NamesOk, DistinctNames, ShortNames, FileIs, NBlocks;
    OneDirectory(s, files);
    NamesOkIff(DirEntries(s, ROOT_INO), files);
    assert forall e :: 0 <= e < |DirEntries(s, ROOT_INO)| ==> DirEntries(s, ROOT_INO)[e].ino < |s.inodes|;
    assert DirOk(s, ROOT_INO) <==> DistinctNames(files);
    forall j: nat | j < |s.inodes| && s.inodes[j].ftype != FTYPE_DIR
      ensures LinkOk(s, j)
    {
      LinksOk(s, files, j);
    }
  }

  /**
   * The formatter and the module agree: a finished image is one that the module's invariant holds of, exactly when it
   * uses no block beyond the first 1024 and no two host files have the same name.
   */
  lemma FinishedIsSoundIff(s: FS, own: Owners, limit: nat, files: seq<HostFile>)
    requires Finished(s, own, limit, files) && LayoutFits(s.geo.nblocks, s.geo.ninodes) && ShortNames(files)
    ensures Sound(s, own) <==> limit <= ALLOC_BITS && DistinctNames(files)
  {
    hide FilesOk, HoldsSome, Inv, Tidy;
    InvIff(s, own, limit, files);
    TidyIff(s, files);
  }

  /** Every host file can be looked up by its name, and has its bytes. */
  lemma FilesAreFound(s: FS, own: Owners, limit: nat, files: seq<HostFile>, j: nat)
    requires Finished(s, own, limit, files) && ShortNames(files) && DistinctNames(files) && j < |files|
    ensures files[j].name in NameMap(DirEntries(s, ROOT_INO)) && NameMap(DirEntries(s, ROOT_INO))[files[j].name] == FIRST_INO + j
    ensures FileIs(s, FIRST_INO + j, files[j].content)
  {
    hide FilesOk, DirEntries, NamesOk, NameMap, FileIs;
    NamesOkIff(DirEntries(s, ROOT_INO), files);
    NameMapIs(DirEntries(s, ROOT_INO), files[j].name);
    assert DirEntries(s, ROOT_INO)[j].Live();
  }

  /** What the formatter says of each inode: 0666 and one link for the files, 0777 for the root, and nothing in the others. */
  lemma FinishedInodes(s: FS, own: Owners, limit: nat, files: seq<HostFile>, i: nat)
    requires Finished(s, own, limit, files) && i < |s.inodes|
    ensures var x := s.inodes[i];
            && (i == 1 ==> x.ftype == 1 && x.nlink == 1 && x.mode == 0x1ff)
            && (2 <= i < 2 + |files| ==> x.ftype == 0 && x.nlink == 1 && x.mode == 0x1b6 && x.size == |files[i - 2].content|)
            && (i == 0 || i >= 2 + |files| ==> x.size == 0 && x.ftype == 0 && (i > 0 ==> x.nlink == 0) && x.mode == 0)
  {
    hide FilesOk, DirEntries, RawOf;
    if 2 <= i < 2 + |files| {
      assert FileIs(s, FIRST_INO + (i - 2), files[i - 2].content);
    }
  }

  /** A host file goes on being found under its name with its bytes, whatever is done to other files and names. */
  lemma HostFilesStay(limit: nat, files: seq<HostFile>, ops: seq<Op>, rs: seq<int>, states: seq<(FS, Owners)>, k: nat, j: nat)
    requires Run(ops, rs, states) && k <= |ops| && Finished(states[0].0, states[0].1, limit, files) && j < |files|
    requires LayoutFits(states[0].0.geo.nblocks, states[0].0.geo.ninodes) && ShortNames(files) && DistinctNames(files) && limit <= ALLOC_BITS
    requires forall i :: 0 <= i < k ==> !Touches(ops[i], states[i].0, FIRST_INO + j)
    requires forall i :: 0 <= i < k ==> !(ops[i].DoUnlink? && ops[i].dir == ROOT_INO && ops[i].name == files[j].name)
    ensures FIRST_INO + j < TWO32 && Means(states[k].0, ROOT_INO, files[j].name, FIRST_INO + j)
    ensures HoldsBytes(states[k].0, FIRST_INO + j, files[j].content)
  {
    hide Sound, Step, Breaks, Allowed, Run, FilesOk, RawOf, DirEntries, NameMap;
    RunHasStates(ops, rs, states);
    var s := states[0].0;
    FinishedIsSoundIff(s, states[0].1, limit, files);
    FilesAreFound(s, states[0].1, limit, files, j);
    RootIsDirectory(s, states[0].1, limit, files);
    RunKeepsName(ops, rs, states, 0, k, ROOT_INO, files[j].name, FIRST_INO + j);
    RunKeepsFile(ops, rs, states, 0, k, FIRST_INO + j);
    KeptIsHeld(s, states[k].0, FIRST_INO + j, files[j].content);
  }

  lemma RootIsDirectory(s: FS, own: Owners, limit: nat, files: seq<HostFile>)
    requires Finished(s, own, limit, files)
    ensures ROOT_INO < |s.inodes| && s.inodes[ROOT_INO].ftype == FTYPE_DIR && |s.inodes| < TWO32 && FIRST_INO + |files| <= |s.inodes|
  {
  }

  /** Every run of the module's operations on such an image keeps the invariant. */
  lemma RunsOnFinishedImages(limit: nat, files: seq<HostFile>, ops: seq<Op>, rs: seq<int>, states: seq<(FS, Owners)>, k: nat)
    requires Run(ops, rs, states) && k <= |ops| && Finished(states[0].0, states[0].1, limit, files)
    requires LayoutFits(states[0].0.geo.nblocks, states[0].0.geo.ninodes) && ShortNames(files) && DistinctNames(files) && limit <= ALLOC_BITS
    ensures Sound(states[k].0, states[k].1)
  {
    hide Finished, Sound, Step, Breaks, Allowed;
    FinishedIsSoundIff(states[0].0, states[0].1, limit, files);
    RunIsSound(ops, rs, states, k);
  }
}
