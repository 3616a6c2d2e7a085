/** The block loop of writefile: a host file's bytes become the contents of an inode. */
module HostFiles {
  import opened Words
  import opened BlockTree
  import opened FileSystem
  import opened Ownership
  import opened FileIO
  import opened BlockCache
  import opened Formatting
  import opened TreeWriting
  import opened Building

  const F_SIZE: nat := 0

  /** How many data blocks a host file takes. */
  function HostBlocks(content: seq<byte>): nat { (|content| + BLKSIZE - 1) / BLKSIZE }

  /** What readn leaves in a cleared block. */
  function Padded(chunk: seq<byte>): Block
    requires |chunk| <= BLKSIZE
  {
    PutBytes(ZeroBlock(), 0, chunk)
  }

  // ----- one block -----

  /** A block that no file owns yet can be filled at will. */
  lemma FreshCellBuilt(s: FS, own: Owners, t: FS, b: nat, i: nat, n: nat, blk: Block)
    requires Built(s, own, b, i, n) && b < |s.disk| && t == s.(disk := s.disk[b := CellOf(blk)])
    ensures Built(t, own, b, i, n) && OthersKeep(s.disk, own, t.disk, own, i)
    ensures forall k: nat :: k < n ==> DataBytes(t.disk, s.inodes[i].ptrs, k) == DataBytes(s.disk, s.inodes[i].ptrs, k)
  {
    hide FileOk;
    forall k: nat | k < |s.inodes| && k != i
      ensures FileOk(t.disk, s.inodes[k], k, own)
    {
      OtherFileKeeps(s.disk, own, t.disk, own, i, s.inodes[k], k);
    }
    TreeFrame(s.disk, t.disk, s.inodes[i].ptrs, i, own, own, n);
    forall k: nat | k < n
      ensures DataBytes(t.disk, s.inodes[i].ptrs, k) == DataBytes(s.disk, s.inodes[i].ptrs, k)
    {
      assert Needs(n, Data(k)) && At(s.disk, s.inodes[i].ptrs, Data(k)) in own;
    }
  }

  /** A fresh block that was got and put back without being counted. */
  lemma UnusedPut(bs: seq<Buf>, bs1: seq<Buf>, bs2: seq<Buf>, g: Geometry, kinds: map<nat, Kind>, kind: Kind, b: u32, k: nat)
    requires PinsOk(bs, g, kinds, b) && b != 0 && Got(bs, bs1, b, k) && bs1[k].busy > 0
    requires bs2 == bs1[k := bs1[k].(busy := bs1[k].busy - 1)]
    ensures Balanced(bs, bs2) && PinsOk(bs2, g, kinds[b as nat := kind], b)
  {
    GotAndPut(bs, bs1, bs1, bs2, b, k);
    if InCache(bs, b) {
      assert bs[k].bno == b;
    }
    assert bs2[k].busy == 0;
  }

  lemma GotFilled(bs: seq<Buf>, bs1: seq<Buf>, bs2: seq<Buf>, b: u32, k: nat)
    requires Got(bs, bs1, b, k) && |bs2| == |bs1| && bs2 == bs1[k := bs1[k].(data := bs2[k].data)]
    ensures Got(bs, bs2, b, k)
  {
  }

  /** The next block is fetched cleared, and as much of the host file as fits is read into it. */
  method GetFilled(f: Formatter, chunk: seq<byte>) returns (ok: bool, k: nat)
    requires f.Ready() && Pins(f.cache.slots[..]) < NCACHE && |chunk| <= BLKSIZE
    modifies f.cache, f.cache.slots, f`kinds
    ensures f.Valid() && ok == (f.nextb < f.nblocks)
    ensures ok ==> f.View() == old(f.View()).(disk := old(f.View()).disk[f.nextb as nat := CellOf(Padded(chunk))])
    ensures ok ==> Got(old(f.cache.slots[..]), f.cache.slots[..], f.nextb, k) && f.kinds == old(f.kinds)[f.nextb as nat := FileBlock]
  {
    hide Layout, Pins, PinsOk, Got, Padded;
    ghost var bs, s := f.cache.slots[..], f.View();
    ViewShape(f);
    ok, k := f.GetFresh(FileBlock);
    if ok {
      ghost var bs1 := f.cache.slots[..];
      GotIs(bs, bs1, f.nextb, k);
      f.StoreBlock(k, Padded(chunk));
      GotFilled(bs, bs1, f.cache.slots[..], f.nextb, k);
      assert f.View().disk == s.disk[f.nextb as nat := CellOf(Padded(chunk))];
    }
  }

  lemma FreshKinds(own: Owners, kinds: map<nat, Kind>, b: nat, kind: Kind)
    requires KindsOk(own, kinds) && b !in own
    ensures KindsOk(own, kinds[b := kind])
  {
  }

  lemma ReadyToStore(f: Formatter, s: FS, own: Owners, i: nat, k: nat, b: nat, n: nat)
    requires f.Ready() && f.View() == s && Built(s, own, b, i, n) && f.nextb == b + 1 && KindsOk(own, f.kinds)
    requires Holds(f.cache.slots[..], k, f.Geo(), i) && Pins(f.cache.slots[..]) <= 12 && i < f.ninodes
    requires b in f.kinds && f.kinds[b] == KindFor(Owner(i, Data(n)))
    ensures StoreReady(f, s, own, i, k, b, n)
  {
  }

  ghost predicate WriteReady(f: Formatter, s: FS, own: Owners, i: nat, k: nat, n: nat)
    reads f, f.cache, f.cache.slots
  {
    && f.Ready() && f.View() == s && Built(s, own, f.nextb, i, n) && KindsOk(own, f.kinds)
    && Holds(f.cache.slots[..], k, f.Geo(), i) && Pins(f.cache.slots[..]) <= 11 && i < f.ninodes && i != ROOT_INO
  }

  /** Hooked, for a block that was filled with 'chunk' first. */
  ghost predicate Chunked(s: FS, own: Owners, t: FS, own': Owners, i: nat, n: nat, b: nat, limit: nat, chunk: seq<byte>) {
    && b < |s.disk| && |chunk| <= BLKSIZE
    && Hooked(s.(disk := s.disk[b := CellOf(Padded(chunk))]), own, t, own', i, n, n + 1, b, limit)
  }

  /** putblk of the only block that was got and not yet put back */
  method PutLast(f: Formatter, k: nat, b: u32, ghost bs: seq<Buf>, ghost bs1: seq<Buf>)
    requires f.Ready() && Got(bs, bs1, b, k) && b != 0 && Balanced(bs1, f.cache.slots[..])
    modifies f.cache.slots
    ensures f.Ready() && Balanced(bs, f.cache.slots[..])
  {
    hide Layout, Pins, PinsOk, Got;
    GotIs(bs, bs1, b, k);
    ghost var bs3 := f.cache.slots[..];
    f.Put(k);
    GotAndPut(bs, bs1, bs3, f.cache.slots[..], b, k);
  }

  /** Block b = nextb, just got and filled, can be counted and stored as block n of file i. */
  ghost predicate FreshReady(f: Formatter, s: FS, own: Owners, i: nat, k: nat, b: nat, n: nat)
    reads f, f.cache, f.cache.slots
  {
    && f.Valid() && f.View() == s && Built(s, own, b, i, n) && f.nextb == b < f.nblocks && b != 0 && KindsOk(own, f.kinds)
    && b in f.kinds && f.kinds[b] == KindFor(Owner(i, Data(n)))
    && Holds(f.cache.slots[..], k, f.Geo(), i) && Pins(f.cache.slots[..]) <= 12 && i < f.ninodes
  }

  /** The block that was just filled becomes the next block of the file. */
  method CountAndStore(f: Formatter, i: nat, k: nat, b: u32, n: nat, ghost s: FS, ghost own: Owners) returns (ok: bool, ghost own': Owners)
    requires FreshReady(f, s, own, i, k, b, n)
    modifies f`nextb, f`kinds, f.cache, f.cache.slots
    ensures ok <==> b + (Total(n + 1) - Total(n)) <= f.nblocks
    ensures ok ==> f.Ready() && Balanced(old(f.cache.slots[..]), f.cache.slots[..]) && KindsOk(own', f.kinds)
    ensures ok ==> f.nextb == b + (Total(n + 1) - Total(n)) && Hooked(s, own, f.View(), own', i, n, n + 1, b, f.nextb)
  {
    hide Layout, FileOk, TreeOk, Pins, Hooked, Total, PinsOk, Built, Balanced, KindsOk, Got, Holds;
    PinsOkLimit(f.cache.slots[..], f.Geo(), f.kinds, b + 1, b + 2);
    f.nextb := f.nextb + 1;
    ReadyToStore(f, s, own, i, k, b, n);
    ok, own' := StoreBlk(f, i, k, b, n, s, own);
  }

  /** The same, and putblk */
  method StoreAndPut(f: Formatter, i: nat, k: nat, b: u32, n: nat, kb: nat, ghost bs: seq<Buf>, ghost s: FS, ghost own: Owners)
    returns (ok: bool, ghost own': Owners)
    requires FreshReady(f, s, own, i, k, b, n) && Got(bs, f.cache.slots[..], b, kb)
    modifies f`nextb, f`kinds, f.cache, f.cache.slots
    ensures ok <==> b + (Total(n + 1) - Total(n)) <= f.nblocks
    ensures ok ==> f.Ready() && Balanced(bs, f.cache.slots[..]) && KindsOk(own', f.kinds)
    ensures ok ==> f.nextb == b + (Total(n + 1) - Total(n)) && Hooked(s, own, f.View(), own', i, n, n + 1, b, f.nextb)
  {
    hide Layout, FileOk, TreeOk, Pins, Hooked, Total, PinsOk, Built, Balanced, KindsOk, Got, Holds;
    ghost var bs1 := f.cache.slots[..];
    ok, own' := CountAndStore(f, i, k, b, n, s, own);
    if ok {
      PutLast(f, kb, b, bs, bs1);
    }
  }

  /** getblk(nextb), readn, and, unless the file has ended, storeblk */
  method NextBlock(f: Formatter, i: nat, k: nat, n: nat, chunk: seq<byte>, ghost s: FS, ghost own: Owners)
    returns (ok: bool, ghost own': Owners)
    requires WriteReady(f, s, own, i, k, n) && |chunk| <= BLKSIZE
    modifies f`nextb, f`kinds, f.cache, f.cache.slots
    ensures ok <==> old(f.nextb) + (if chunk == [] then 1 else Total(n + 1) - Total(n)) <= f.nblocks
    ensures ok ==> f.Ready() && Balanced(old(f.cache.slots[..]), f.cache.slots[..]) && KindsOk(own', f.kinds)
    ensures ok ==> f.nextb == old(f.nextb) + (if chunk == [] then 0 else Total(n + 1) - Total(n))
    ensures ok && chunk == [] ==> own' == own && old(f.nextb) as int < |s.disk|
    ensures ok && chunk == [] ==> f.View() == s.(disk := s.disk[old(f.nextb) as nat := CellOf(Padded([]))])
    ensures ok && chunk != [] ==> Chunked(s, own, f.View(), own', i, n, old(f.nextb), f.nextb, chunk)
  {
    hide Layout, FileOk, TreeOk, Pins, Hooked, Total, PinsOk, Built, Balanced, KindsOk, Got, Padded, Holds;
    CostOfBlock(n);
    ghost var bs := f.cache.slots[..];
    var b := f.nextb;
    BuiltTree(s, own, b, i, n);
    own' := own;
    ViewShape(f);
    var kb;
    ok, kb := GetFilled(f, chunk);
    if !ok {
      return;
    }
    ghost var bs1 := f.cache.slots[..];
    GotPins(bs, bs1, b, kb);
    GotIs(bs, bs1, b, kb);
    FreshKinds(own, old(f.kinds), b, FileBlock);
    if chunk == [] {
      f.cache.PutBlk(kb);
      UnusedPut(bs, bs1, f.cache.slots[..], f.Geo(), old(f.kinds), FileBlock, b, kb);
      PinsOkLimit(f.cache.slots[..], f.Geo(), f.kinds, b, b + 1);
      return;
    }
    ghost var t := f.View();
    FreshCellBuilt(s, own, t, b, i, n, Padded(chunk));
    HoldsAfterGot(bs, bs1, b, kb, k, f.Geo(), i);
    ok, own' := StoreAndPut(f, i, k, b, n, kb, bs, t, own);
  }

  lemma GotIs(bs: seq<Buf>, bs1: seq<Buf>, b: u32, k: nat)
    requires Got(bs, bs1, b, k)
    ensures k < |bs1| && bs1[k].bno == b && bs1[k].busy > 0
  {
  }

  // ----- the whole file -----

  /** What the k-th readn returns. */
  function Chunk(content: seq<byte>, k: nat): (c: seq<byte>)
    ensures |c| == Min(BLKSIZE, if BLKSIZE * k < |content| then |content| - BLKSIZE * k else 0)
  {
    if BLKSIZE * k >= |content| then [] else content[BLKSIZE * k..Min(|content|, BLKSIZE * (k + 1))]
  }

  /** File i holds the first n blocks of 'content', whatever its size says; the rest of the image is as it was. */
  ghost predicate Written(s0: FS, own0: Owners, s: FS, own: Owners, i: nat, n: nat, limit: nat, content: seq<byte>) {
    && Built(s, own, limit, i, n) && OthersSame(s0, own0, s, own, i) && s.free == s0.free && s.inodes[i] == s0.inodes[i].(ptrs := s.inodes[i].ptrs)
    && forall k: nat :: k < n ==> DataBytes(s.disk, s.inodes[i].ptrs, k) == Padded(Chunk(content, k))
  }

  lemma WrittenStart(s: FS, own: Owners, i: nat, limit: nat, content: seq<byte>)
    requires Built(s, own, limit, i, 0)
    ensures Written(s, own, s, own, i, 0, limit, content)
  {
  }

  lemma WrittenBuilt(s0: FS, own0: Owners, s: FS, own: Owners, i: nat, n: nat, limit: nat, content: seq<byte>)
    requires Written(s0, own0, s, own, i, n, limit, content)
    ensures Built(s, own, limit, i, n)
  {
  }

  lemma BuiltSize(s: FS, own: Owners, i: nat, n: nat, limit: nat)
    requires Built(s, own, limit, i, n)
    ensures |s.disk| == s.geo.nblocks
  {
  }

  lemma OthersKeepTwice(d: seq<Cell>, own: Owners, d1: seq<Cell>, own1: Owners, d2: seq<Cell>, own2: Owners, i: nat)
    requires OthersKeep(d, own, d1, own1, i) && OthersKeep(d1, own1, d2, own2, i) && |d1| == |d| == |d2|
    ensures OthersKeep(d, own, d2, own2, i)
  {
  }

  lemma WrittenRefilled(s0: FS, own0: Owners, s: FS, own: Owners, t: FS, i: nat, n: nat, b: nat, content: seq<byte>, blk: Block)
    requires Written(s0, own0, s, own, i, n, b, content) && b < |s.disk| && t == s.(disk := s.disk[b := CellOf(blk)])
    ensures Written(s0, own0, t, own, i, n, b, content)
  {
    hide TreeOk, FileOk, OthersKeep, DataBytes, Padded, Built;
    FreshCellBuilt(s, own, t, b, i, n, blk);
    OthersKeepTwice(s0.disk, own0, s.disk, own, t.disk, own, i);
  }

  lemma WrittenNext(s0: FS, own0: Owners, s: FS, own: Owners, t: FS, own': Owners, i: nat, n: nat, m: nat, b: nat, limit: nat, content: seq<byte>)
    requires Written(s0, own0, s, own, i, n, b, content) && Chunked(s, own, t, own', i, n, b, limit, Chunk(content, n)) && m == n + 1
    ensures Written(s0, own0, t, own', i, m, limit, content)
  {
    hide TreeOk, FileOk, OthersKeep, DataBytes, Padded, Built, Extends;
    var s1 := s.(disk := s.disk[b := CellOf(Padded(Chunk(content, n)))]);
    FreshCellBuilt(s, own, s1, b, i, n, Padded(Chunk(content, n)));
    OthersKeepTwice(s0.disk, own0, s.disk, own, s1.disk, own, i);
    BuiltSize(s1, own, i, n, b);
    BuiltSize(t, own', i, m, limit);
    OthersKeepTwice(s0.disk, own0, s1.disk, own, t.disk, own', i);
  }

  /** Blocks needed to copy a host file: one more is cleared to find the end of a file that fills its last block. */
  function HostCost(content: seq<byte>): nat {
    Total(HostBlocks(content)) + (if |content| % BLKSIZE == 0 then 1 else 0)
  }

  lemma TotalGrows(n: nat, m: nat)
    requires n <= m
    ensures Total(n) + (m - n) <= Total(m)
  {
  }

  /** At block n, with room for it, copying goes on; without, the whole copy cannot succeed. */
  lemma NextFits(content: seq<byte>, n: nat)
    requires BLKSIZE * n <= |content|
    ensures Chunk(content, n) == [] ==> n == HostBlocks(content) && HostCost(content) == Total(n) + 1 && |content| == BLKSIZE * n
    ensures Chunk(content, n) != [] ==> Total(n + 1) <= HostCost(content)
    ensures 0 < |Chunk(content, n)| < BLKSIZE ==> HostCost(content) == Total(n + 1) && n + 1 == HostBlocks(content)
    ensures |content| >= BLKSIZE * n + |Chunk(content, n)|
    ensures |Chunk(content, n)| < BLKSIZE ==> |content| == BLKSIZE * n + |Chunk(content, n)|
  {
    hide Total;
    if Chunk(content, n) != [] {
      assert n + 1 <= HostBlocks(content);
      TotalGrows(n + 1, HostBlocks(content));
    }
  }

  /** After blocks were got and put back in between, the next block can be copied. */
  lemma StillReady(f: Formatter, s: FS, own: Owners, i: nat, k: nat, n: nat, bs: seq<Buf>)
    requires f.Ready() && f.View() == s && Built(s, own, f.nextb, i, n) && KindsOk(own, f.kinds) && i < f.ninodes
    requires Balanced(bs, f.cache.slots[..]) && Holds(bs, k, f.Geo(), i) && Pins(bs) <= 11 && i != ROOT_INO
    ensures WriteReady(f, s, own, i, k, n)
  {
    BalancedPins(bs, f.cache.slots[..]);
  }

  /** The loop of writefile; the size is the one recorded after it. Running off the disk aborts. */
  method CopyBlocks(f: Formatter, i: nat, k: nat, content: seq<byte>, ghost s0: FS, ghost own0: Owners)
    returns (ok: bool, size: nat, ghost own: Owners)
    requires WriteReady(f, s0, own0, i, k, 0)
    modifies f`nextb, f`kinds, f.cache, f.cache.slots
    ensures ok <==> old(f.nextb) + HostCost(content) <= f.nblocks
    ensures ok ==> f.Ready() && Balanced(old(f.cache.slots[..]), f.cache.slots[..]) && KindsOk(own, f.kinds)
    ensures ok ==> size == |content| && f.nextb == old(f.nextb) + Total(HostBlocks(content))
    ensures ok ==> Written(s0, own0, f.View(), own, i, HostBlocks(content), f.nextb, content)
  {
    hide Layout, FileOk, TreeOk, Pins, Total, PinsOk, Built, Balanced, KindsOk, Got, Holds, Written, Chunked, HostCost, HostBlocks;
    own, size, ok := own0, 0, true;
    var nblk: nat := 0;
    ghost var bs := f.cache.slots[..];
    BalancedSame(bs);
    WrittenStart(s0, own0, i, f.nextb, content);
    NoBlocks();
    while true
      invariant f.Ready() && Balanced(bs, f.cache.slots[..]) && KindsOk(own, f.kinds)
      invariant BLKSIZE * nblk <= |content| && f.nextb == old(f.nextb) + Total(nblk)
      invariant Written(s0, own0, f.View(), own, i, nblk, f.nextb, content)
      decreases |content| - BLKSIZE * nblk
    {
      NextFits(content, nblk);
      WrittenBuilt(s0, own0, f.View(), own, i, nblk, f.nextb, content);
      StillReady(f, f.View(), own, i, k, nblk, bs);
      ghost var s, own1, b: nat, bs1 := f.View(), own, f.nextb, f.cache.slots[..];
      var chunk := Chunk(content, nblk);
      size := nblk * BLKSIZE + |chunk|;
      ok, own := NextBlock(f, i, k, nblk, chunk, s, own);
      if !ok {
        return;
      }
      BalancedTransitive(bs, bs1, f.cache.slots[..]);
      if chunk == [] {
        WrittenRefilled(s0, own0, s, own, f.View(), i, nblk, b, content, Padded([]));
        break;
      }
      WrittenNext(s0, own0, s, own1, f.View(), own, i, nblk, nblk + 1, b, f.nextb, content);
      if |chunk| < BLKSIZE {
        break;
      }
      nblk := nblk + 1;
    }
  }

  lemma NoBlocks()
    ensures Total(0) == 0
  {
  }

  // ----- images between two files -----

  /** Exactly the blocks from the first data block up to 'limit' are in use, and every file is complete. */
  ghost predicate FilesOk(s: FS, own: Owners, limit: nat) {
    && ShapeOk(s) && s.geo.DataStart() <= limit <= |s.disk|
    && (forall b :: b in own <==> s.geo.DataStart() <= b < limit)
    && (forall b :: b in own ==> own[b].ino < |s.inodes|)
    && (forall k: nat :: k < |s.inodes| ==> FileOk(s.disk, s.inodes[k], k, own) && !Stale(s.inodes[k]))
  }

  lemma StartFile(s: FS, own: Owners, limit: nat, i: nat)
    requires FilesOk(s, own, limit) && i < |s.inodes| && s.inodes[i].ftype != FTYPE_SYMLINK
    ensures Built(s, own, limit, i, NBlocks(s.inodes[i]))
  {
    hide TreeOk;
    assert FileOk(s.disk, s.inodes[i], i, own);
  }

  /** A file that is complete but for its size becomes complete with it. */
  lemma FileSized(s0: FS, own0: Owners, limit0: nat, s: FS, own: Owners, i: nat, limit: nat, t: FS, n: nat, size: u32)
    requires FilesOk(s0, own0, limit0) && i < |s0.inodes| == |s.inodes| && s0.inodes[i].ftype != FTYPE_SYMLINK
    requires Built(s, own, limit, i, n) && OthersSame(s0, own0, s, own, i) && s.inodes[i] == s0.inodes[i].(ptrs := s.inodes[i].ptrs)
    requires t == s.(inodes := s.inodes[i := s.inodes[i].(size := size)]) && n == (size + BLKSIZE - 1) / BLKSIZE
    ensures FilesOk(t, own, limit) && OthersSame(s0, own0, t, own, i) && NBlocks(t.inodes[i]) == n
    ensures t.inodes[i] == s0.inodes[i].(size := size, ptrs := t.inodes[i].ptrs) && t.inodes[i].ptrs == s.inodes[i].ptrs
  {
    hide TreeOk, OthersKeep;
    FileFits(s, own, limit, i, n);
    assert Size2NBlocks(size) == n;
    assert NBlocks(t.inodes[i]) == n;
    assert FileOk(t.disk, t.inodes[i], i, own);
    forall k: nat | k < |t.inodes| && k != i
      ensures FileOk(t.disk, t.inodes[k], k, own) && !Stale(t.inodes[k])
    {
      assert t.inodes[k] == s.inodes[k] == s0.inodes[k];
    }
  }

  /** The blocks of a copied file, read in order up to its size, are the host file. */
  lemma CopiedContent(s: FS, i: nat, n: nat, content: seq<byte>)
    requires i < |s.inodes| && n == NBlocks(s.inodes[i]) == HostBlocks(content) && s.inodes[i].size == |content|
    requires forall k: nat :: k < n ==> DataBytes(s.disk, s.inodes[i].ptrs, k) == Padded(Chunk(content, k))
    ensures s.inodes[i].size <= BLKSIZE * n && Content(s, i) == content
  {
    hide DataBytes, NBlocks;
    assert |content| <= BLKSIZE * n;
    forall x | 0 <= x < |content|
      ensures RawOf(s, i)[x] == content[x]
    {
      ChunkByte(content, x);
      assert RawOf(s, i)[x] == DataBytes(s.disk, s.inodes[i].ptrs, x / BLKSIZE)[x % BLKSIZE];
    }
  }

  lemma ChunkByte(content: seq<byte>, x: nat)
    requires x < |content|
    ensures x / BLKSIZE < HostBlocks(content) && Padded(Chunk(content, x / BLKSIZE))[x % BLKSIZE] == content[x]
  {
    assert x == BLKSIZE * (x / BLKSIZE) + x % BLKSIZE;
    var c := Chunk(content, x / BLKSIZE);
    assert c[x % BLKSIZE] == content[x];
    assert Padded(c)[x % BLKSIZE] == c[x % BLKSIZE];
  }

  /** An empty file got the bytes of the host file. */
  ghost predicate FileMade(s: FS, own: Owners, t: FS, own': Owners, i: nat, limit: nat, content: seq<byte>) {
    && FilesOk(t, own', limit) && OthersSame(s, own, t, own', i) && t.free == s.free
    && t.inodes[i] == s.inodes[i].(size := t.inodes[i].size, ptrs := t.inodes[i].ptrs)
    && t.inodes[i].size == |content| <= BLKSIZE * NBlocks(t.inodes[i]) && Content(t, i) == content
  }

  lemma MakeFile(s0: FS, own0: Owners, limit0: nat, s: FS, own: Owners, i: nat, limit: nat, content: seq<byte>, t: FS)
    requires FilesOk(s0, own0, limit0) && i < |s0.inodes| && s0.inodes[i].ftype != FTYPE_SYMLINK && |content| < TWO32
    requires Written(s0, own0, s, own, i, HostBlocks(content), limit, content)
    requires t == s.(inodes := s.inodes[i := s.inodes[i].(size := |content|)])
    ensures FileMade(s0, own0, t, own, i, limit, content)
  {
    hide Built, OthersSame, FilesOk, Content, DataBytes, Padded, Chunk;
    WrittenShape(s0, own0, s, own, i, HostBlocks(content), limit, content);
    FileSized(s0, own0, limit0, s, own, i, limit, t, HostBlocks(content), |content|);
    CopiedContent(t, i, HostBlocks(content), content);
  }

  lemma WrittenShape(s0: FS, own0: Owners, s: FS, own: Owners, i: nat, n: nat, limit: nat, content: seq<byte>)
    requires Written(s0, own0, s, own, i, n, limit, content)
    ensures i < |s.inodes| == |s0.inodes|
  {
  }

  /** The size of a file that fits on the disk fits its field. */
  lemma SizeFits(s0: FS, own0: Owners, s: FS, own: Owners, i: nat, limit: nat, content: seq<byte>)
    requires Written(s0, own0, s, own, i, HostBlocks(content), limit, content)
    ensures |content| < TWO32
  {
    hide OthersSame, DataBytes;
    FileFits(s, own, limit, i, HostBlocks(content));
  }

  /** writefile from its loop on: the bytes of the host file and their exact count. */
  method WriteContent(f: Formatter, i: nat, k: nat, content: seq<byte>, ghost s: FS, ghost own: Owners)
    returns (ok: bool, ghost own': Owners)
    requires WriteReady(f, s, own, i, k, 0) && FilesOk(s, own, f.nextb) && s.inodes[i].ftype != FTYPE_SYMLINK
    modifies f`nextb, f`kinds, f.cache, f.cache.slots
    ensures ok <==> old(f.nextb) + HostCost(content) <= f.nblocks
    ensures ok ==> f.Ready() && Balanced(old(f.cache.slots[..]), f.cache.slots[..]) && KindsOk(own', f.kinds)
    ensures ok ==> f.nextb == old(f.nextb) + Total(HostBlocks(content))
    ensures ok ==> FileMade(s, own, f.View(), own', i, f.nextb, content)
  {
    hide Layout, FileOk, TreeOk, Pins, Total, PinsOk, Built, Balanced, KindsOk, Got, Written, HostCost, HostBlocks, FileMade, FilesOk;
    ghost var bs := f.cache.slots[..];
    ViewShape(f);
    var size;
    ok, size, own' := CopyBlocks(f, i, k, content, s, own);
    if !ok {
      return;
    }
    ghost var bs1, s1 := f.cache.slots[..], f.View();
    SizeFits(s, own, s1, own', i, f.nextb, content);
    HoldsSame(bs, bs1, k, f.Geo(), i);
    f.StoreInode(k, i, F_SIZE, size);
    BalancedTransitive(bs, bs1, f.cache.slots[..]);
    MakeFile(s, own, old(f.nextb) as nat, s1, own', i, f.nextb, content, f.View());
  }

  lemma HoldsSame(bs: seq<Buf>, bs1: seq<Buf>, k: nat, g: Geometry, i: nat)
    requires Holds(bs, k, g, i) && Balanced(bs, bs1)
    ensures Holds(bs1, k, g, i)
  {
  }
}
