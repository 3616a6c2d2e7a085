/** writefile as a whole: a name in the root directory, an inode, and the contents. */
module WholeImage {
  import opened Words
  import opened BlockTree
  import opened FileSystem
  import opened Ownership
  import opened FileIO
  import opened Directories
  import opened BlockCache
  import opened Formatting
  import opened Building
  import opened HostFiles
  import opened RootDirectory

  /** A file named on the command line: the last component of its path, and its bytes. */
  datatype HostFile = HostFile(name: seq<byte>, content: seq<byte>)

  const FIRST_INO: nat := 2
  const FILE_MODE: u32 := 438
  const ROOT_MODE: u32 := 511
  const F_FTYPE: nat := 1
  const F_NLINK: nat := 2
  const F_MODE: nat := 3

  const BLANK_INODE: Inode := Inode(0, 0, 0, 0, NO_POINTERS)

  // ----- what the image holds -----

  /** The entries name the host files, in the order given, one inode each; the rest of the last block is blank. */
  predicate Listed(es: seq<Entry>, files: seq<HostFile>) {
    && |es| % PER_BLOCK == 0 && |files| <= |es| < |files| + PER_BLOCK
    && (forall e :: 0 <= e < |files| ==> es[e].ino == FIRST_INO + e && es[e].name == files[e].name)
    && (forall e :: |files| <= e < |es| ==> !es[e].Live())
  }

  lemma ListedPlace(es: seq<Entry>, files: seq<HostFile>)
    requires Listed(es, files)
    ensures EntryFor(es) == |files| && (|files| == |es| <==> |files| % PER_BLOCK == 0)
    ensures |files| == |es| ==> DirCost(es) == Total(|files| / PER_BLOCK + 1) - Total(|files| / PER_BLOCK)
    ensures |files| != |es| ==> DirCost(es) == 0
  {
    hide Total;
    assert forall e :: 0 <= e < |files| ==> es[e].Live();
    if es != [] {
      EntryForIs(es, |files|);
    }
  }

  /** The directory with a place for one more name lists the same files. */
  lemma WidenedLists(es: seq<Entry>, files: seq<HostFile>)
    requires Listed(es, files)
    ensures var w := Widened(es); |w| % PER_BLOCK == 0 && |files| < |w| <= |files| + PER_BLOCK
    ensures forall e :: 0 <= e < |files| ==> Widened(es)[e] == es[e]
    ensures forall e :: |files| <= e < |Widened(es)| ==> !Widened(es)[e].Live()
  {
    hide EntryFor, DirCost;
    ListedPlace(es, files);
    if |files| == |es| {
      assert Widened(es) == es + Blanks(PER_BLOCK);
      assert (|es| + PER_BLOCK) % PER_BLOCK == 0;
    } else {
      assert Widened(es) == es;
    }
  }

  lemma ListedNext(es: seq<Entry>, files: seq<HostFile>, file: HostFile, x: Entry)
    requires Listed(es, files) && x.ino == FIRST_INO + |files| && x.name == file.name
    ensures |files| < |Widened(es)| && Listed(Widened(es)[|files| := x], files + [file])
  {
    hide Widened;
    WidenedLists(es, files);
  }

  ghost predicate FileIs(s: FS, i: nat, content: seq<byte>) {
    && i < |s.inodes| && s.inodes[i].size == |content| <= BLKSIZE * NBlocks(s.inodes[i]) && Content(s, i) == content
    && s.inodes[i].ftype == FTYPE_REG && s.inodes[i].nlink == 1 && s.inodes[i].mode == FILE_MODE
  }

  /** The root directory lists 'files', the first n of which have their contents; all other inodes are unused. */
  ghost predicate HoldsSome(s: FS, files: seq<HostFile>, n: nat) {
    && RootOk(s) && s.inodes[ROOT_INO].nlink == 1 && s.inodes[ROOT_INO].mode == ROOT_MODE
    && s.inodes[0] == BLANK_INODE.(nlink := 1) && Listed(DirEntries(s, ROOT_INO), files)
    && n <= |files| && n + FIRST_INO <= |s.inodes| && (forall j: nat :: j < n ==> FileIs(s, FIRST_INO + j, files[j].content))
    && (forall k: nat :: n + FIRST_INO <= k < |s.inodes| ==> s.inodes[k] == BLANK_INODE)
  }

  lemma FileKept(s: FS, own: Owners, limit: nat, t: FS, own': Owners, i: nat, j: nat, content: seq<byte>)
    requires FilesOk(s, own, limit) && OthersSame(s, own, t, own', i) && j != i && FileIs(s, j, content)
    ensures FileIs(t, j, content)
  {
    hide FileOk, OthersKeep;
    OthersContent(s, own, t, own', i, j);
  }

  /** A name was added to the root directory, for the next unused inode. */
  lemma NameListed(s: FS, own: Owners, limit: nat, files: seq<HostFile>, s1: FS, own1: Owners, limit1: nat, t: FS, file: HostFile, x: Entry)
    requires FilesOk(s, own, limit) && HoldsSome(s, files, |files|) && EntryAdded(s, own, s1, own1, limit1, Entry(0, file.name))
    requires EntryPut(s1, own1, t, limit1, ROOT_INO, EntryFor(DirEntries(s, ROOT_INO)), x) && x.ino == FIRST_INO + |files| && x.name == file.name
    ensures HoldsSome(t, files + [file], |files|) && FilesOk(t, own1, limit1)
  {
    hide FileOk, OthersKeep, FileIs, EntryFor, DirEntries, NBlocks, FilesOk;
    SameSize(s, own, limit, s1, own1, limit1);
    OthersSameTwice(s, own, s1, own1, t, own1, ROOT_INO);
    ListedPlace(DirEntries(s, ROOT_INO), files);
    ListedNext(DirEntries(s, ROOT_INO), files, file, x);
    assert Widened(DirEntries(s, ROOT_INO))[|files| := Entry(0, file.name)][|files| := x] == Widened(DirEntries(s, ROOT_INO))[|files| := x];
    forall j: nat | j < |files|
      ensures FileIs(t, FIRST_INO + j, (files + [file])[j].content)
    {
      FileKept(s, own, limit, t, own1, ROOT_INO, FIRST_INO + j, files[j].content);
    }
  }

  lemma SameSize(s: FS, own: Owners, limit: nat, t: FS, own': Owners, limit': nat)
    requires FilesOk(s, own, limit) && FilesOk(t, own', limit') && t.geo == s.geo
    ensures |t.disk| == |s.disk|
  {
  }

  lemma OthersSameTwice(s: FS, own: Owners, t: FS, own1: Owners, u: FS, own2: Owners, i: nat)
    requires OthersSame(s, own, t, own1, i) && OthersSame(t, own1, u, own2, i)
    ensures OthersSame(s, own, u, own2, i)
  {
    OthersSameTransitive(s, own, t, own1, u, own2, i);
  }

  const EMPTY_FILE: Inode := Inode(0, FTYPE_REG, 1, FILE_MODE, NO_POINTERS)

  /** The next unused inode became an empty file. */
  lemma InodeTaken(s: FS, own: Owners, limit: nat, files: seq<HostFile>, n: nat, i: nat, t: FS)
    requires FilesOk(s, own, limit) && HoldsSome(s, files, n) && i == FIRST_INO + n < |s.inodes|
    requires t == s.(inodes := s.inodes[i := EMPTY_FILE])
    ensures FilesOk(t, own, limit) && RootOk(t) && t.inodes[i].ftype != FTYPE_SYMLINK && NBlocks(t.inodes[i]) == 0
  {
    hide TreeOk;
    forall k: nat | k < |t.inodes|
      ensures FileOk(t.disk, t.inodes[k], k, own) && !Stale(t.inodes[k])
    {
      assert FileOk(s.disk, s.inodes[k], k, own);
    }
  }

  /** The empty file got its contents. */
  lemma FileAdded(s: FS, own: Owners, limit: nat, files: seq<HostFile>, n: nat, i: nat, t: FS, u: FS, own': Owners, limit': nat)
    requires FilesOk(s, own, limit) && HoldsSome(s, files, n) && i == FIRST_INO + n < |s.inodes| && n < |files|
    requires t == s.(inodes := s.inodes[i := EMPTY_FILE]) && FileMade(t, own, u, own', i, limit', files[n].content)
    ensures HoldsSome(u, files, n + 1) && FilesOk(u, own', limit')
  {
    hide FileOk, OthersKeep, RawOf, FilesOk, DirEntries, NBlocks, Listed;
    InodeTaken(s, own, limit, files, n, i, t);
    forall j: nat | j < n + 1
      ensures FileIs(u, FIRST_INO + j, files[j].content)
    {
      if j < n {
        assert FileIs(t, FIRST_INO + j, files[j].content) by {
          assert FileIs(s, FIRST_INO + j, files[j].content);
          SameRaw(s, t, FIRST_INO + j);
        }
        FileKept(t, own, limit, u, own', i, FIRST_INO + j, files[j].content);
      }
    }
    RootKept(s, own, limit, files, n, i, t, u, own');
  }

  lemma SameRaw(s: FS, t: FS, j: nat)
    requires j < |s.inodes| == |t.inodes| && t.inodes[j] == s.inodes[j] && t.disk == s.disk
    ensures RawOf(t, j) == RawOf(s, j) && DirEntries(t, j) == DirEntries(s, j)
  {
  }

  lemma RootKept(s: FS, own: Owners, limit: nat, files: seq<HostFile>, n: nat, i: nat, t: FS, u: FS, own': Owners)
    requires FilesOk(t, own, limit) && HoldsSome(s, files, n) && i == FIRST_INO + n < |s.inodes|
    requires t == s.(inodes := s.inodes[i := EMPTY_FILE]) && OthersSame(t, own, u, own', i)
    ensures RootOk(u) && u.inodes[ROOT_INO] == s.inodes[ROOT_INO] && DirEntries(u, ROOT_INO) == DirEntries(s, ROOT_INO)
  {
    hide FileOk, OthersKeep, FileIs;
    SameRaw(s, t, ROOT_INO);
    OtherEntries(t, own, u, own', i, ROOT_INO);
  }

  // ----- writefile -----

  /** allocinode */
  method AllocInode(f: Formatter) returns (ok: bool, i: u32, k: nat)
    requires f.Ready() && Pins(f.cache.slots[..]) < NCACHE && f.nextinode <= f.ninodes
    modifies f`nextinode, f.cache, f.cache.slots
    ensures ok <==> old(f.nextinode) < f.ninodes
    ensures f.Ready() && f.View() == old(f.View())
    ensures ok ==> i == old(f.nextinode) && f.nextinode == i + 1
    ensures ok ==> Took(old(f.cache.slots[..]), f.cache.slots[..], InodeBlockOf(f.Geo(), i), k)
  {
    hide Layout, Pins, PinsOk, Got, Took;
    ok, i, k := f.nextinode < f.ninodes, f.nextinode, 0;
    if ok {
      f.nextinode := f.nextinode + 1;
      ghost var bs := f.cache.slots[..];
      var b: u32 := FREEMAP_BLK + 1 + i / BLKINODES;
      InodeArea(f.Geo(), i);
      k := f.GetOld(b, InodeBlock);
      GotTook(bs, f.cache.slots[..], b, k);
    }
  }

  lemma InodeArea(g: Geometry, i: nat)
    requires g.Ok() && i < g.ninodes
    ensures FREEMAP_BLK < InodeBlockOf(g, i) < g.DataStart() && InodeBlockOf(g, i) == FREEMAP_BLK + 1 + i / BLKINODES
    ensures forall kinds :: KindOf(g, kinds, InodeBlockOf(g, i)) == InodeBlock
  {
  }

  lemma HoldsFromTook(bs: seq<Buf>, bs1: seq<Buf>, k: nat, g: Geometry, i: nat)
    requires Took(bs, bs1, InodeBlockOf(g, i), k)
    ensures Holds(bs1, k, g, i)
  {
  }

  /** The fields of a new inode are filled in. */
  method InitInode(f: Formatter, i: nat, k: nat, ftype: u32, mode: u32, ghost s: FS)
    requires f.Ready() && f.View() == s && i < f.ninodes && Holds(f.cache.slots[..], k, f.Geo(), i) && s.inodes[i] == BLANK_INODE
    modifies f.cache, f.cache.slots
    ensures f.Ready() && Balanced(old(f.cache.slots[..]), f.cache.slots[..])
    ensures f.View() == s.(inodes := s.inodes[i := Inode(0, ftype, 1, mode, NO_POINTERS)])
  {
    hide Layout, Pins, PinsOk, Balanced, Holds;
    ghost var bs := f.cache.slots[..];
    HoldsIs(bs, k, f.Geo(), i);
    ViewShape(f);
    f.StoreInode(k, i, F_NLINK, 1);
    ghost var bs1 := f.cache.slots[..];
    HoldsSame(bs, bs1, k, f.Geo(), i);
    HoldsIs(bs1, k, f.Geo(), i);
    f.StoreInode(k, i, F_FTYPE, ftype);
    ghost var bs2 := f.cache.slots[..];
    HoldsSame(bs1, bs2, k, f.Geo(), i);
    HoldsIs(bs2, k, f.Geo(), i);
    f.StoreInode(k, i, F_MODE, mode);
    BalancedTransitive(bs, bs1, bs2);
    BalancedTransitive(bs, bs2, f.cache.slots[..]);
    assert f.View().inodes == s.inodes[i := Inode(0, ftype, 1, mode, NO_POINTERS)];
  }

  /** Between two files: the files so far are there, and only the root's inode is pinned, by slot k. */
  ghost predicate Between(f: Formatter, own: Owners, k: nat, files: seq<HostFile>)
    reads f, f.cache, f.cache.slots
  {
    && f.Ready() && DirReady(f, f.View(), own) && Holds(f.cache.slots[..], k, f.Geo(), ROOT_INO) && Pins(f.cache.slots[..]) <= 9
    && f.nextinode == FIRST_INO + |files| <= f.ninodes && HoldsSome(f.View(), files, |files|)
  }

  /** Blocks that one more file needs, before the directory block, and to be copied in. */
  function FileCost(files: seq<HostFile>, file: HostFile): nat {
    NameCost(files) + HostCost(file.content)
  }

  function NameCost(files: seq<HostFile>): nat {
    TotalGrows(|files| / PER_BLOCK, |files| / PER_BLOCK + 1);
    if |files| % PER_BLOCK == 0 then Total(|files| / PER_BLOCK + 1) - Total(|files| / PER_BLOCK) else 0
  }

  /** Blocks that one more file takes. */
  function FileUse(files: seq<HostFile>, file: HostFile): nat {
    NameCost(files) + Total(HostBlocks(file.content))
  }

  lemma NameCostIs(s: FS, files: seq<HostFile>, n: nat)
    requires HoldsSome(s, files, n)
    ensures DirCost(DirEntries(s, ROOT_INO)) == NameCost(files) && EntryFor(DirEntries(s, ROOT_INO)) == |files|
  {
    hide Total, DirCost, EntryFor, DirEntries, FileIs, RootOk;
    ListedPlace(DirEntries(s, ROOT_INO), files);
  }

  /** putblk of a directory block and of an inode block */
  method PutTwo(f: Formatter, kd: nat, ghost b: nat, ki: nat, ghost ib: nat, ghost bs: seq<Buf>, ghost bs1: seq<Buf>)
    requires f.Ready() && Took(bs, bs1, b, kd) && Took(bs1, f.cache.slots[..], ib, ki) && b != ib
    modifies f.cache.slots
    ensures f.Ready() && Balanced(bs, f.cache.slots[..])
  {
    hide Layout, Pins, PinsOk, Took;
    ghost var bs2 := f.cache.slots[..];
    TookStill(bs, bs1, bs2, b, kd, ib, ki);
    f.Put(kd);
    ghost var bs3 := f.cache.slots[..];
    TookUnder(bs, bs1, bs2, bs3, b, kd, ib, ki);
    TookIs(bs, bs3, ib, ki);
    f.Put(ki);
    TookAndPut(bs, bs3, f.cache.slots[..], ib, ki);
  }

  /** The new entry, before its inode number is known. */
  lemma NewEntry(s: FS, own: Owners, s1: FS, own1: Owners, limit: nat, name: seq<byte>, e: nat)
    requires EntryAdded(s, own, s1, own1, limit, Entry(0, name)) && e == EntryFor(DirEntries(s, ROOT_INO))
    ensures ROOT_INO < |s1.inodes| && e < |DirEntries(s1, ROOT_INO)| && DirEntries(s1, ROOT_INO)[e] == Entry(0, name)
  {
    hide FilesOk, OthersKeep, DirEntries, EntryFor;
  }

  /** The directory entry and the inode of a new file, with the blocks of both pinned. */
  method NameFile(f: Formatter, k: nat, name: seq<byte>, ghost file: HostFile, ghost files: seq<HostFile>, ghost own: Owners)
    returns (ok: bool, i: u32, kd: nat, ki: nat, ghost b: nat, ghost bs1: seq<Buf>, ghost own': Owners)
    requires Between(f, own, k, files) && name == file.name && 0 !in name
    modifies f`nextb, f`kinds, f`nextinode, f.cache, f.cache.slots
    ensures ok <==> |name| <= MAXNAMELEN && old(f.nextinode) < f.ninodes && old(f.nextb) + NameCost(files) <= f.nblocks
    ensures ok ==> f.Ready() && i == old(f.nextinode) && f.nextinode == i + 1 && f.nextb == old(f.nextb) + NameCost(files)
    ensures ok ==> DirReady(f, f.View(), own') && HoldsSome(f.View(), files + [file], |files|) && f.View().free == old(f.View()).free
    ensures ok ==> Took(old(f.cache.slots[..]), bs1, b, kd) && Took(bs1, f.cache.slots[..], InodeBlockOf(f.Geo(), i), ki)
    ensures ok ==> b != InodeBlockOf(f.Geo(), i)
  {
    hide Layout, FilesOk, KindsOk, Pins, PinsOk, Took, NBlocks, EntryFor, NameCost, HasEntry, DirEntries, PutWord, EntryIn, EntryAdded,
         EntryPut, Holds, Listed, FileIs;
    ghost var bs, s := f.cache.slots[..], f.View();
    NameCostIs(s, files, |files|);
    ViewShape(f);
    var e;
    i, ki, bs1 := 0, 0, [];
    ok, kd, e, b, own' := AllocDirEntry(f, k, name, s, own);
    if !ok {
      return;
    }
    ghost var s1, limit: nat := f.View(), f.nextb;
    bs1 := f.cache.slots[..];
    TookIs(bs, bs1, b, kd);
    NewEntry(s, own, s1, own', limit, name, e);
    EntryBlock(s1, own', limit, ROOT_INO, e, b);
    ok, i, ki := AllocInode(f);
    if !ok {
      return;
    }
    ghost var bs2 := f.cache.slots[..];
    InodeArea(f.Geo(), i);
    ViewShape(f);
    TookStill(bs, bs1, bs2, b, kd, InodeBlockOf(f.Geo(), i), ki);
    EntryInSlot(f, s1, own', kd, e, b);
    InoStored(f.cache.slots[kd].data, e % PER_BLOCK, i, Entry(i, name));
    StoreEntry(f, kd, e, PutWord(f.cache.slots[kd].data, 32 * (e % PER_BLOCK), i), b, Entry(i, name), s1, own');
    TookBalanced(bs1, bs2, f.cache.slots[..], InodeBlockOf(f.Geo(), i), ki);
    NameListed(s, own, old(f.nextb) as nat, files, s1, own', limit, f.View(), file, Entry(i, name));
    FreeKept(s, own, s1, own', f.View(), limit, e, Entry(0, name), Entry(i, name));
  }

  lemma FreeKept(s: FS, own: Owners, s1: FS, own1: Owners, t: FS, limit: nat, e: nat, x: Entry, y: Entry)
    requires EntryAdded(s, own, s1, own1, limit, x) && EntryPut(s1, own1, t, limit, ROOT_INO, e, y)
    ensures t.free == s.free
  {
  }

  lemma NextIsBlank(s: FS, files: seq<HostFile>, n: nat, i: nat)
    requires HoldsSome(s, files, n) && i == FIRST_INO + n < |s.inodes|
    ensures s.inodes[i] == BLANK_INODE
  {
  }

  lemma MadeFree(s: FS, own: Owners, t: FS, own': Owners, i: nat, limit: nat, content: seq<byte>)
    requires FileMade(s, own, t, own', i, limit, content)
    ensures t.free == s.free && FilesOk(t, own', limit)
  {
  }

  lemma MakeBetween(f: Formatter, own: Owners, k: nat, files: seq<HostFile>, bs: seq<Buf>)
    requires f.Ready() && FilesOk(f.View(), own, f.nextb) && KindsOk(own, f.kinds) && ROOT_INO < f.ninodes
    requires Holds(bs, k, f.Geo(), ROOT_INO) && Pins(bs) <= 9 && Balanced(bs, f.cache.slots[..])
    requires f.nextinode == FIRST_INO + |files| <= f.ninodes && HoldsSome(f.View(), files, |files|)
    ensures Between(f, own, k, files)
  {
    hide FilesOk, KindsOk, HoldsSome, Layout, PinsOk;
    BalancedPins(bs, f.cache.slots[..]);
  }

  lemma WriteReadyIs(f: Formatter, s: FS, own: Owners, i: nat, k: nat)
    requires DirReady(f, s, own) && Holds(f.cache.slots[..], k, f.Geo(), i) && Pins(f.cache.slots[..]) <= 11 && ROOT_INO != i < f.ninodes
    requires i < |s.inodes| && s.inodes[i].ftype != FTYPE_SYMLINK && NBlocks(s.inodes[i]) == 0
    ensures WriteReady(f, s, own, i, k, 0)
  {
    hide NBlocks, KindsOk, Holds, Layout, PinsOk;
    StartFile(s, own, f.nextb, i);
  }

  /** The contents of a file that has its name and its inode: the rest of writefile. */
  method FillFile(f: Formatter, i: nat, ki: nat, ghost file: HostFile, content: seq<byte>, ghost files: seq<HostFile>, ghost own: Owners)
    returns (ok: bool, ghost own': Owners)
    requires f.Ready() && DirReady(f, f.View(), own) && HoldsSome(f.View(), files + [file], |files|) && content == file.content
    requires i == FIRST_INO + |files| < f.ninodes && Holds(f.cache.slots[..], ki, f.Geo(), i) && Pins(f.cache.slots[..]) <= 11
    modifies f`nextb, f`kinds, f.cache, f.cache.slots
    ensures ok <==> old(f.nextb) + HostCost(content) <= f.nblocks
    ensures ok ==> f.Ready() && f.nextb == old(f.nextb) + Total(HostBlocks(content)) && Balanced(old(f.cache.slots[..]), f.cache.slots[..])
    ensures ok ==> FilesOk(f.View(), own', f.nextb) && KindsOk(own', f.kinds) && f.View().free == old(f.View()).free
    ensures ok ==> HoldsSome(f.View(), files + [file], |files| + 1)
  {
    hide Layout, FilesOk, KindsOk, Pins, PinsOk, NBlocks, Holds, HoldsSome, FileMade, Balanced, HostCost, Total;
    ghost var bs, s, limit: nat := f.cache.slots[..], f.View(), f.nextb;
    ViewShape(f);
    NextIsBlank(s, files + [file], |files|, i);
    InitInode(f, i, ki, FTYPE_REG, FILE_MODE, s);
    ghost var bs1, t := f.cache.slots[..], f.View();
    InodeTaken(s, own, limit, files + [file], |files|, i, t);
    HoldsSame(bs, bs1, ki, f.Geo(), i);
    BalancedPins(bs, bs1);
    WriteReadyIs(f, t, own, i, ki);
    ok, own' := WriteContent(f, i, ki, content, t, own);
    if ok {
      MadeFree(t, own, f.View(), own', i, f.nextb, content);
      FileAdded(s, own, limit, files + [file], |files|, i, t, f.View(), own', f.nextb);
      BalancedTransitive(bs, bs1, f.cache.slots[..]);
    }
  }

  /** writefile: aborts exactly when the name, the inodes or the blocks do not suffice. */
  method WriteFile(f: Formatter, k: nat, file: HostFile, ghost files: seq<HostFile>, ghost own: Owners) returns (ok: bool, ghost own': Owners)
    requires Between(f, own, k, files) && 0 !in file.name
    modifies f`nextb, f`kinds, f`nextinode, f.cache, f.cache.slots
    ensures ok <==> |file.name| <= MAXNAMELEN && old(f.nextinode) < f.ninodes && old(f.nextb) + FileCost(files, file) <= f.nblocks
    ensures ok ==> Between(f, own', k, files + [file]) && f.nextb == old(f.nextb) + FileUse(files, file)
    ensures ok ==> f.Ready() && old(f.Ready()) && f.View().free == old(f.View().free)
  {
    hide Layout, FilesOk, KindsOk, Pins, PinsOk, NBlocks, Holds, HoldsSome, Balanced, HostCost, Total, Took, NameCost;
    ghost var bs, b, bs1 := f.cache.slots[..], 0, [];
    var i, kd, ki;
    ok, i, kd, ki, b, bs1, own' := NameFile(f, k, file.name, file, files, own);
    if !ok {
      CostsSomething(file.content);
      return;
    }
    ghost var bs2 := f.cache.slots[..];
    TookIs(bs, bs1, b, kd);
    TookIs(bs1, bs2, InodeBlockOf(f.Geo(), i), ki);
    HoldsFromTook(bs1, bs2, ki, f.Geo(), i);
    ok, own' := FillFile(f, i, ki, file, file.content, files, own');
    if !ok {
      return;
    }
    TookBalanced(bs1, bs2, f.cache.slots[..], InodeBlockOf(f.Geo(), i), ki);
    PutTwo(f, kd, b, ki, InodeBlockOf(f.Geo(), i), bs, bs1);
    MakeBetween(f, own', k, files + [file], bs);
  }

  lemma CostsSomething(content: seq<byte>)
    ensures HostCost(content) > 0
  {
  }
}
