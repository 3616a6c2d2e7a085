/** storeblk: a new block is hung into the block tree of a file, through the block cache. */
module Building {
  import opened Words
  import opened BlockTree
  import opened FileSystem
  import opened Ownership
  import opened BlockCache
  import opened Formatting
  import opened TreeWriting

  const F_DIRECT: nat := 4
  const F_INDIRECT: nat := 14
  const F_INDIRECT2: nat := 15

  const ROOT_INO: nat := 1

  /** Pointer blocks go through the cache as bitmap-like blocks; the only directory is the root directory. */
  function KindFor(o: Owner): Kind {
    if !o.slot.Data? then BitsBlock else if o.ino == ROOT_INO then DirBlock else FileBlock
  }

  /** Owned blocks are in the cache as what they are used for. */
  ghost predicate KindsOk(own: Owners, kinds: map<nat, Kind>) {
    forall b :: b in own ==> b in kinds && kinds[b] == KindFor(own[b])
  }

  lemma KindsOne(own: Owners, kinds: map<nat, Kind>, b: nat, o: Owner)
    requires KindsOk(own, kinds) && b in kinds && kinds[b] == KindFor(o)
    ensures KindsOk(own + map[b := o], kinds)
  {
  }

  lemma KindsTwo(own: Owners, kinds: map<nat, Kind>, b: nat, o: Owner, c: nat, o1: Owner)
    requires KindsOk(own, kinds) && b in kinds && kinds[b] == KindFor(o) && b != c && c !in own && !o1.slot.Data?
    ensures KindsOk(own + map[b := o, c := o1], kinds[c := BitsBlock])
  {
  }

  lemma KindsThree(own: Owners, kinds: map<nat, Kind>, b: nat, o: Owner, c: nat, o1: Owner, e: nat, o2: Owner)
    requires KindsOk(own, kinds) && b in kinds && kinds[b] == KindFor(o) && b != c && b != e && c != e && c !in own && e !in own
    requires !o1.slot.Data? && !o2.slot.Data?
    ensures KindsOk(own + map[b := o, c := o1, e := o2], kinds[e := BitsBlock][c := BitsBlock])
  {
  }

  /** Slot k pins the block of inode i. */
  ghost predicate Holds(bs: seq<Buf>, k: nat, g: Geometry, i: nat) {
    k < |bs| && bs[k].busy > 0 && bs[k].bno == InodeBlockOf(g, i)
  }

  /** Ready to hang block b = nextb - 1 into file i as its block n. */
  ghost predicate StoreReady(f: Formatter, s: FS, own: Owners, i: nat, k: nat, b: nat, n: nat)
    reads f, f.cache, f.cache.slots
  {
    && f.Ready() && f.View() == s && Built(s, own, b, i, n) && f.nextb == b + 1 && KindsOk(own, f.kinds)
    && b in f.kinds && f.kinds[b] == KindFor(Owner(i, Data(n))) && Holds(f.cache.slots[..], k, f.Geo(), i) && Pins(f.cache.slots[..]) <= 12 && i < f.ninodes
  }

  lemma ReadyMeans(f: Formatter, s: FS, own: Owners, i: nat, k: nat, b: nat, n: nat)
    requires StoreReady(f, s, own, i, k, b, n)
    ensures s.geo == f.Geo() && |s.disk| == f.nblocks && b < |s.disk| && s.geo.DataStart() <= b && s.geo.DataStart() > FREEMAP_BLK
    ensures InodeBlockOf(f.Geo(), i) < f.Geo().DataStart() && i < |s.inodes|
  {
    LayoutShape(f.cache.logical, f.Geo());
  }

  lemma NotOwned(s: FS, own: Owners, b: nat, i: nat, n: nat)
    requires Built(s, own, b, i, n)
    ensures forall c :: c >= b ==> c !in own
  {
  }

  method StoreDirect(f: Formatter, i: nat, k: nat, b: u32, n: nat, ghost s: FS, ghost own: Owners) returns (ghost own': Owners)
    requires StoreReady(f, s, own, i, k, b, n) && n < NDIRECT
    modifies f`nextb, f`kinds, f.cache, f.cache.slots
    ensures f.Ready() && Balanced(old(f.cache.slots[..]), f.cache.slots[..]) && f.nextb == old(f.nextb) && f.kinds == old(f.kinds)
    ensures Hooked(s, own, f.View(), own', i, n, n + 1, b, b + 1) && KindsOk(own', f.kinds)
  {
    hide Layout, FileOk, TreeOk, Pins, Hooked, KindsOk;
    ReadyMeans(f, s, own, i, k, b, n);
    KindsOne(own, f.kinds, b, Owner(i, Data(n)));
    f.StoreInode(k, i, F_DIRECT + n, b);
    own' := own + map[b as nat := Owner(i, Data(n))];
    HookDirect(s, own, f.View(), own', i, n, n + 1, b);
  }

  /** The next unused block, cleared and pinned as a pointer block; an abort when the disk is full */
  method FreshPointers(f: Formatter) returns (ok: bool, k: nat, q: u32)
    requires f.Ready() && Pins(f.cache.slots[..]) <= 14
    modifies f`nextb, f`kinds, f.cache, f.cache.slots
    ensures ok <==> old(f.nextb) < f.nblocks
    ensures ok ==> f.Ready() && q == old(f.nextb) && f.nextb == q + 1 && f.kinds == old(f.kinds)[q as nat := BitsBlock]
    ensures ok ==> f.View() == old(f.View()).(disk := old(f.View()).disk[q as nat := CellOf(ZeroBlock())])
    ensures ok ==> Got(old(f.cache.slots[..]), f.cache.slots[..], q, k) && Pins(f.cache.slots[..]) <= old(Pins(f.cache.slots[..])) + 1
  {
    hide Layout, Got, Pins, PinsOk;
    q := f.nextb;
    ghost var bs := f.cache.slots[..];
    ok, k := f.GetFresh(BitsBlock);
    if ok {
      GotPins(bs, f.cache.slots[..], q, k);
      PinsOkLimit(f.cache.slots[..], f.Geo(), f.kinds, q + 1, q + 2);
      f.nextb := f.nextb + 1;
    }
  }

  lemma PinsOkLimit(bs: seq<Buf>, g: Geometry, kinds: map<nat, Kind>, limit: nat, limit': nat)
    requires PinsOk(bs, g, kinds, limit) && limit <= limit'
    ensures PinsOk(bs, g, kinds, limit')
  {
  }

  /** One word stored in a block that was just got, which is then put back. */
  method FillAndPut(f: Formatter, k: nat, j: nat, v: u32, ghost bs: seq<Buf>, ghost bs1: seq<Buf>, ghost q: u32)
    requires f.Ready() && Got(bs, bs1, q, k) && Balanced(bs1, f.cache.slots[..]) && f.Geo().DataStart() <= q < f.nextb && j < WORDS_PER_BLOCK
    modifies f.cache, f.cache.slots
    ensures f.Ready() && Balanced(bs, f.cache.slots[..]) && q < |old(f.View()).disk|
    ensures f.View() == old(f.View()).(disk := old(f.View()).disk[q as nat := PutCellWord(old(f.View()).disk[q], j, v)])
  {
    hide Layout, Pins, PinsOk;
    GotPins(bs, bs1, q, k);
    f.StoreWord(k, j, v);
    ghost var bs2 := f.cache.slots[..];
    f.Put(k);
    BalancedTransitive(bs1, old(f.cache.slots[..]), bs2);
    GotAndPut(bs, bs1, bs2, f.cache.slots[..], q, k);
  }

  method StoreFirstIndirect(f: Formatter, i: nat, k: nat, b: u32, n: nat, ghost s: FS, ghost own: Owners) returns (ok: bool, ghost own': Owners)
    requires StoreReady(f, s, own, i, k, b, n) && n == NDIRECT
    modifies f`nextb, f`kinds, f.cache, f.cache.slots
    ensures ok <==> b + 2 <= f.nblocks
    ensures ok ==> f.Ready() && Balanced(old(f.cache.slots[..]), f.cache.slots[..]) && f.nextb == b + 2
    ensures ok ==> Hooked(s, own, f.View(), own', i, n, n + 1, b, b + 2) && KindsOk(own', f.kinds)
  {
    hide Layout, FileOk, TreeOk, Pins, Hooked, Got, Balanced, PinsOk, Built, KindsOk;
    ReadyMeans(f, s, own, i, k, b, n);
    NotOwned(s, own, b, i, n);
    KindsTwo(own, f.kinds, b, Owner(i, Data(n)), b + 1, Owner(i, Ind));
    ghost var bs := f.cache.slots[..];
    own' := own;
    var k2, q;
    ok, k2, q := FreshPointers(f);
    if !ok {
      return;
    }
    ghost var bs1 := f.cache.slots[..];
    HoldsAfterGot(bs, bs1, q, k2, k, f.Geo(), i);
    f.StoreInode(k, i, F_INDIRECT, q);
    FillAndPut(f, k2, n - NDIRECT, b, bs, bs1, q);
    WordsOfZero();
    own' := own + map[b as nat := Owner(i, Data(n)), q as nat := Owner(i, Ind)];
    assert f.View().disk == s.disk[q as nat := f.View().disk[q]];
    HookFirstIndirect(s, own, f.View(), own', i, n, n + 1, b, q);
  }

  /** The inode's block stays where it is pinned. */
  lemma HoldsAfterGot(bs: seq<Buf>, bs1: seq<Buf>, q: u32, k2: nat, k: nat, g: Geometry, i: nat)
    requires Got(bs, bs1, q, k2) && Holds(bs, k, g, i)
    ensures Holds(bs1, k, g, i)
  {
    GotPins(bs, bs1, q, k2);
  }

  lemma PointerIsOld(f: Formatter, s: FS, own: Owners, i: nat, k: nat, b: nat, n: nat, q: nat)
    requires StoreReady(f, s, own, i, k, b, n) && IsPointer(own, q)
    ensures 0 < q < b && f.Geo().DataStart() <= q && KindOf(f.Geo(), f.kinds, q) == BitsBlock && |s.disk[q].words| == WORDS_PER_BLOCK
  {
    LayoutShape(f.cache.logical, f.Geo());
  }

  method StoreIndirect(f: Formatter, i: nat, k: nat, b: u32, n: nat, q: u32, ghost s: FS, ghost own: Owners) returns (ghost own': Owners)
    requires StoreReady(f, s, own, i, k, b, n) && NDIRECT < n < NFLAT && q == s.inodes[i].ptrs.indirect
    modifies f`nextb, f`kinds, f.cache, f.cache.slots
    ensures f.Ready() && Balanced(old(f.cache.slots[..]), f.cache.slots[..]) && f.nextb == b + 1
    ensures Hooked(s, own, f.View(), own', i, n, n + 1, b, b + 1) && KindsOk(own', f.kinds)
  {
    hide Layout, FileOk, TreeOk, Pins, Hooked, Got, PinsOk, Built, KindsOk;
    ReadyMeans(f, s, own, i, k, b, n);
    BuiltTree(s, own, b, i, n);
    IndirectIsOwned(s.disk, s.inodes[i].ptrs, i, own, n);
    PointerIsOld(f, s, own, i, k, b, n, q);
    ghost var bs := f.cache.slots[..];
    KindsOne(own, f.kinds, b, Owner(i, Data(n)));
    var k2 := f.GetOld(q, BitsBlock);
    FillAndPut(f, k2, n - NDIRECT, b, bs, f.cache.slots[..], q);
    own' := own + map[b as nat := Owner(i, Data(n))];
    ViewShape(f);
    assert f.View().disk == s.disk[q as nat := f.View().disk[q]];
    HookIndirect(s, own, f.View(), own', i, n, n + 1, b, q);
  }

  lemma ViewShape(f: Formatter)
    requires f.Valid()
    ensures ShapeOk(f.View()) && f.View().geo == f.Geo() && |f.View().disk| == f.nblocks && |f.View().inodes| == f.ninodes
  {
    LayoutShape(f.cache.logical, f.Geo());
  }

  method StoreFirstIndirect2(f: Formatter, i: nat, k: nat, b: u32, n: nat, ghost s: FS, ghost own: Owners) returns (ok: bool, ghost own': Owners)
    requires StoreReady(f, s, own, i, k, b, n) && n == NFLAT
    modifies f`nextb, f`kinds, f.cache, f.cache.slots
    ensures ok <==> b + 3 <= f.nblocks
    ensures ok ==> f.Ready() && Balanced(old(f.cache.slots[..]), f.cache.slots[..]) && f.nextb == b + 3
    ensures ok ==> Hooked(s, own, f.View(), own', i, n, n + 1, b, b + 3) && KindsOk(own', f.kinds)
  {
    hide Layout, FileOk, TreeOk, Pins, Hooked, Got, Balanced, PinsOk, Built, KindsOk;
    ReadyMeans(f, s, own, i, k, b, n);
    NotOwned(s, own, b, i, n);
    KindsThree(own, f.kinds, b, Owner(i, Data(n)), b + 2, Owner(i, Sub(0)), b + 1, Owner(i, Ind2));
    ghost var bs := f.cache.slots[..];
    own' := own;
    var k2, e;
    ok, k2, e := FreshPointers(f);
    if !ok {
      return;
    }
    ghost var bs1 := f.cache.slots[..];
    HoldsAfterGot(bs, bs1, e, k2, k, f.Geo(), i);
    f.StoreInode(k, i, F_INDIRECT2, e);
    BalancedPins(bs1, f.cache.slots[..]);
    var c;
    ok, c := HangSub(f, k2, e, 0, b, bs, bs1);
    if !ok {
      return;
    }
    WordsOfZero();
    own' := own + map[b as nat := Owner(i, Data(n)), c as nat := Owner(i, Sub(0)), e as nat := Owner(i, Ind2)];
    assert f.View().disk == s.disk[e as nat := f.View().disk[e]][c as nat := f.View().disk[c]];
    HookFirstIndirect2(s, own, f.View(), own', i, n, n + 1, b, e, c);
  }

  /** A new pointer block c for block b alone, recorded as word t of the doubly indirect block q in slot k; both are put back. */
  method HangSub(f: Formatter, k: nat, q: u32, t: nat, b: u32, ghost bs: seq<Buf>, ghost bs1: seq<Buf>) returns (ok: bool, c: u32)
    requires f.Ready() && Got(bs, bs1, q, k) && Balanced(bs1, f.cache.slots[..]) && f.Geo().DataStart() <= q < f.nextb
    requires Pins(f.cache.slots[..]) <= 14 && t < WORDS_PER_BLOCK
    modifies f`nextb, f`kinds, f.cache, f.cache.slots
    ensures ok <==> old(f.nextb) < f.nblocks
    ensures ok ==> f.Ready() && Balanced(bs, f.cache.slots[..]) && c == old(f.nextb) && f.nextb == c + 1 && f.kinds == old(f.kinds)[c as nat := BitsBlock]
    ensures ok ==> c < |f.View().disk| && q < |old(f.View()).disk| && f.View().disk[c].words == Zeros()[0 := b]
    ensures ok ==> f.View() == old(f.View()).(disk := old(f.View()).disk[c as nat := f.View().disk[c]][q as nat := PutCellWord(old(f.View()).disk[q], t, c)])
  {
    hide Layout, Pins, Got, Balanced, PinsOk;
    ghost var bs2, s := f.cache.slots[..], f.View();
    ViewShape(f);
    var k3;
    ok, k3, c := FreshPointers(f);
    if !ok {
      return;
    }
    ghost var bs3 := f.cache.slots[..];
    StillPinned(bs, bs1, bs2, bs3, q, k, c, k3);
    f.StoreWord(k, t, c);
    FillAndPut(f, k3, 0, b, bs2, bs3, c);
    PutFirst(f, k, q, bs, bs1, bs2);
    WordsOfZero();
    assert f.View().disk == s.disk[c as nat := f.View().disk[c]][q as nat := PutCellWord(s.disk[q], t, c)];
  }

  /** putblk of a block got before others that were got and put back meanwhile */
  method PutFirst(f: Formatter, k: nat, q: u32, ghost bs: seq<Buf>, ghost bs1: seq<Buf>, ghost bs2: seq<Buf>)
    requires f.Ready() && Got(bs, bs1, q, k) && q != 0 && Balanced(bs1, bs2) && Balanced(bs2, f.cache.slots[..])
    modifies f.cache, f.cache.slots
    ensures f.Ready() && Balanced(bs, f.cache.slots[..]) && f.cache.logical == old(f.cache.logical)
  {
    hide Layout, Pins, PinsOk;
    ghost var bs4 := f.cache.slots[..];
    BalancedTransitive(bs1, bs2, bs4);
    GotPins(bs, bs1, q, k);
    StillHeld(bs1, bs4, k);
    f.Put(k);
    GotAndPut(bs, bs1, bs4, f.cache.slots[..], q, k);
  }

  /** A block got first stays pinned while another one is got. */
  lemma StillPinned(bs: seq<Buf>, bs1: seq<Buf>, bs2: seq<Buf>, bs3: seq<Buf>, e: u32, k2: nat, c: u32, k3: nat)
    requires Got(bs, bs1, e, k2) && Balanced(bs1, bs2) && Got(bs2, bs3, c, k3)
    ensures k2 < |bs3| && bs3[k2].busy > 0 && bs3[k2].bno == e
  {
    GotPins(bs, bs1, e, k2);
    GotPins(bs2, bs3, c, k3);
  }

  lemma StillHeld(bs1: seq<Buf>, bs4: seq<Buf>, k: nat)
    requires Balanced(bs1, bs4) && k < |bs1| && bs1[k].busy > 0
    ensures |bs4| == |bs1| && bs4[k].busy > 0 && bs4[k].bno == bs1[k].bno
  {
  }

  /** The word of the doubly indirect block that block n of file i is found through. */
  ghost function SubWord(s: FS, i: nat, n: nat): u32
    requires i < |s.inodes| && n >= NFLAT
  {
    W(s.disk, s.inodes[i].ptrs.indirect2, (n - NFLAT) / NINDIRECT)
  }

  ghost predicate IsPointer(own: Owners, q: nat) {
    q in own && !own[q].slot.Data?
  }

  /** The pointer block for block n is there already unless n is the first block under it. */
  lemma SubIsThere(f: Formatter, s: FS, own: Owners, i: nat, k: nat, b: nat, n: nat)
    requires StoreReady(f, s, own, i, k, b, n) && n > NFLAT
    ensures (n - NFLAT) / NINDIRECT < NINDIRECT
    ensures s.inodes[i].ptrs.indirect2 in own && own[s.inodes[i].ptrs.indirect2].slot == Ind2
    ensures (n - NFLAT) % NINDIRECT == 0 ==> SubWord(s, i, n) == 0
    ensures (n - NFLAT) % NINDIRECT != 0 ==> 0 < SubWord(s, i, n) && IsPointer(own, SubWord(s, i, n))
  {
    hide FileOk, Layout;
    BuiltTree(s, own, b, i, n);
    FileFits(s, own, b, i, n);
    var d, p, t := s.disk, s.inodes[i].ptrs, (n - NFLAT) / NINDIRECT;
    PointersDistinct(d, p, i, own, n);
    assert s.geo.DataStart() > 0;
    if (n - NFLAT) % NINDIRECT == 0 {
      assert ScannedAsUnused(n, Sub(t)) && At(d, p, Sub(t)) == 0;
    } else {
      assert Needs(n, Sub(t)) && At(d, p, Sub(t)) == W(d, p.indirect2, t);
    }
  }

  lemma WordInSlot(f: Formatter, k: nat, q: nat, j: nat)
    requires f.Valid() && k < NCACHE && f.cache.slots[k].busy > 0 && f.cache.slots[k].bno == q && f.Geo().DataStart() <= q && j < WORDS_PER_BLOCK
    ensures q < |f.View().disk| && Word(f.cache.slots[k].data, j) == W(f.View().disk, q, j)
  {
    InSlot(f.cache.slots[..], f.cache.disk, f.cache.logical, f.nblocks, f.cache.clock, k);
    LayoutShape(f.cache.logical, f.Geo());
  }

  method StoreIndirect2(f: Formatter, i: nat, k: nat, b: u32, n: nat, e: u32, ghost s: FS, ghost own: Owners) returns (ok: bool, ghost own': Owners)
    requires StoreReady(f, s, own, i, k, b, n) && n > NFLAT && e == s.inodes[i].ptrs.indirect2
    modifies f`nextb, f`kinds, f.cache, f.cache.slots
    ensures ok <==> b + (if (n - NFLAT) % NINDIRECT == 0 then 2 else 1) <= f.nblocks
    ensures ok ==> f.Ready() && Balanced(old(f.cache.slots[..]), f.cache.slots[..]) && KindsOk(own', f.kinds)
    ensures ok ==> f.nextb == b + (if (n - NFLAT) % NINDIRECT == 0 then 2 else 1)
    ensures ok ==> Hooked(s, own, f.View(), own', i, n, n + 1, b, f.nextb)
  {
    hide Layout, FileOk, TreeOk, Pins, Hooked, Got, PinsOk, Built, KindsOk;
    ReadyMeans(f, s, own, i, k, b, n);
    NotOwned(s, own, b, i, n);
    KindsTwo(own, f.kinds, b, Owner(i, Data(n)), b + 1, Owner(i, Sub((n - NFLAT) / NINDIRECT)));
    SubIsThere(f, s, own, i, k, b, n);
    PointerIsOld(f, s, own, i, k, b, n, e);
    ghost var sub := SubWord(s, i, n);
    if (n - NFLAT) % NINDIRECT != 0 {
      PointerIsOld(f, s, own, i, k, b, n, sub);
    }
    own', ok := own, true;
    ghost var bs := f.cache.slots[..];
    var k2 := f.GetOld(e, BitsBlock);
    ghost var bs1 := f.cache.slots[..];
    GotPins(bs, bs1, e, k2);
    var off := n - (NDIRECT + NINDIRECT);
    WordInSlot(f, k2, e, off / NINDIRECT);
    var q := Word(f.cache.slots[k2].data, off / NINDIRECT);
    if q == 0 {
      var c;
      ok, c := HangSub(f, k2, e, off / NINDIRECT, b, bs, bs1);
      if !ok {
        return;
      }
      own' := own + map[b as nat := Owner(i, Data(n)), c as nat := Owner(i, Sub((n - NFLAT) / NINDIRECT))];
      ViewShape(f);
      NewSubHooked(s, own, f.View(), own', i, n, b, c, e);
    } else {
      own' := StoreUnderSub(f, i, n, b, q, e, k2, bs, bs1, s, own);
    }
  }

  lemma NewSubHooked(s: FS, own: Owners, t: FS, own': Owners, i: nat, n: nat, b: u32, c: u32, e: u32)
    requires Built(s, own, b, i, n) && n > NFLAT && (n - NFLAT) % NINDIRECT == 0 && (n - NFLAT) / NINDIRECT < NINDIRECT
    requires c == b + 1 < |s.disk| && e == s.inodes[i].ptrs.indirect2 < |s.disk| && e in own && |t.disk| == |s.disk| && ShapeOk(t)
    requires own' == own + map[b as nat := Owner(i, Data(n)), c as nat := Owner(i, Sub((n - NFLAT) / NINDIRECT))]
    requires t == s.(disk := s.disk[c as nat := t.disk[c]][e as nat := PutCellWord(s.disk[e], (n - NFLAT) / NINDIRECT, c)])
    requires t.disk[c].words == Zeros()[0 := b]
    ensures Hooked(s, own, t, own', i, n, n + 1, b, b + 2)
  {
    hide FileOk, TreeOk, Hooked;
    HookNewSub(s, own, t, own', i, n, n + 1, b, c, e);
  }

  /** The pointer block q exists: block b goes into its place there. */
  method StoreUnderSub(f: Formatter, i: nat, n: nat, b: u32, q: u32, e: u32, k2: nat, ghost bs: seq<Buf>, ghost bs1: seq<Buf>, ghost s: FS, ghost own: Owners)
    returns (ghost own': Owners)
    requires f.Ready() && f.View() == s && Built(s, own, b, i, n) && f.nextb == b + 1 && KindsOk(own, f.kinds) && i < f.ninodes && b < |s.disk|
    requires n > NFLAT && (n - NFLAT) % NINDIRECT != 0 && q == W(s.disk, s.inodes[i].ptrs.indirect2, (n - NFLAT) / NINDIRECT)
    requires f.cache.slots[..] == bs1 && Got(bs, bs1, e, k2) && e != 0 && Pins(bs1) <= 14
    requires 0 < q < b && f.Geo().DataStart() <= q && KindOf(f.Geo(), f.kinds, q) == BitsBlock
    requires b as nat in f.kinds && f.kinds[b as nat] == KindFor(Owner(i, Data(n)))
    modifies f.cache, f.cache.slots
    ensures f.Ready() && Balanced(bs, f.cache.slots[..])
    ensures Hooked(s, own, f.View(), own', i, n, n + 1, b, b + 1) && KindsOk(own', f.kinds)
  {
    hide Layout, FileOk, TreeOk, Pins, Hooked, Got, PinsOk, Built, Balanced, KindsOk;
    ViewShape(f);
    KindsOne(own, f.kinds, b, Owner(i, Data(n)));
    var k3 := f.GetOld(q, BitsBlock);
    BalancedSame(f.cache.slots[..]);
    FillAndPut(f, k3, (n - NFLAT) % NINDIRECT, b, bs1, f.cache.slots[..], q);
    BalancedSame(bs1);
    PutFirst(f, k2, e, bs, bs1, bs1);
    own' := own + map[b as nat := Owner(i, Data(n))];
    ViewShape(f);
    assert f.View().disk == s.disk[q as nat := f.View().disk[q]];
    HookSub(s, own, f.View(), own', i, n, n + 1, b, q);
  }

  lemma BalancedSame(bs: seq<Buf>)
    ensures Balanced(bs, bs)
  {
  }

  /** The zero tests of storeblk tell the regimes apart, and no file on such a disk is too large for the tree. */
  lemma Regimes(f: Formatter, s: FS, own: Owners, i: nat, k: nat, b: nat, n: nat)
    requires StoreReady(f, s, own, i, k, b, n)
    ensures i < |s.inodes| && n < MAXFILEBLKS
    ensures NDIRECT <= n < NFLAT ==> (s.inodes[i].ptrs.indirect == 0 <==> n == NDIRECT)
    ensures NFLAT <= n ==> (s.inodes[i].ptrs.indirect2 == 0 <==> n == NFLAT)
  {
    hide FileOk, Layout;
    BuiltTree(s, own, b, i, n);
    FileFits(s, own, b, i, n);
    if n == NDIRECT {
      assert ScannedAsUnused(n, Ind) && At(s.disk, s.inodes[i].ptrs, Ind) == 0;
    } else if n > NDIRECT {
      IndirectIsOwned(s.disk, s.inodes[i].ptrs, i, own, n);
    }
    if n > NFLAT {
      PointersDistinct(s.disk, s.inodes[i].ptrs, i, own, n);
    }
  }

  /** storeblk: aborts exactly when the pointer blocks it needs do not fit on the disk. */
  method StoreBlk(f: Formatter, i: nat, k: nat, b: u32, n: nat, ghost s: FS, ghost own: Owners) returns (ok: bool, ghost own': Owners)
    requires StoreReady(f, s, own, i, k, b, n)
    modifies f`nextb, f`kinds, f.cache, f.cache.slots
    ensures ok <==> b + (Total(n + 1) - Total(n)) <= f.nblocks
    ensures ok ==> f.Ready() && Balanced(old(f.cache.slots[..]), f.cache.slots[..])
    ensures ok ==> f.nextb == b + (Total(n + 1) - Total(n)) && KindsOk(own', f.kinds)
    ensures ok ==> Hooked(s, own, f.View(), own', i, n, n + 1, b, f.nextb)
  {
    hide Layout, FileOk, TreeOk, Pins, Hooked, Total, PinsOk, Built, Balanced, KindsOk;
    ReadyMeans(f, s, own, i, k, b, n);
    Regimes(f, s, own, i, k, b, n);
    CostOfBlock(n);
    var x := f.ReadInode(k, i);
    ok := true;
    if n < NDIRECT {
      own' := StoreDirect(f, i, k, b, n, s, own);
    } else if n < NFLAT {
      if x.ptrs.indirect == 0 {
        ok, own' := StoreFirstIndirect(f, i, k, b, n, s, own);
      } else {
        own' := StoreIndirect(f, i, k, b, n, x.ptrs.indirect, s, own);
      }
    } else if n < MAXFILEBLKS {
      if x.ptrs.indirect2 == 0 {
        ok, own' := StoreFirstIndirect2(f, i, k, b, n, s, own);
      } else {
        ok, own' := StoreIndirect2(f, i, k, b, n, x.ptrs.indirect2, s, own);
      }
    } else {
      ok, own' := false, own;
    }
  }
}
