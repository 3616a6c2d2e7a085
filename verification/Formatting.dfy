/** The formatter's allocation and its use of the block cache: pins, kinds, and the image under construction. */
module Formatting {
  import opened Words
  import opened FileSystem
  import opened Ownership
  import opened BlockCache

  // ----- pins -----

  /** All pins together. */
  function Pins(bs: seq<Buf>): nat {
    if bs == [] then 0 else bs[0].busy + Pins(bs[1..])
  }

  /** Fewer pins than slots leave a slot unpinned. */
  lemma {:induction false} FewPins(bs: seq<Buf>)
    requires Pins(bs) < |bs|
    ensures HasUnpinned(bs)
  {
    if bs[0].busy == 0 {
      assert bs[0].busy == 0;
    } else {
      FewPins(bs[1..]);
      var i :| 0 <= i < |bs[1..]| && bs[1..][i].busy == 0;
      assert bs[i + 1].busy == 0;
    }
  }

  lemma {:induction false} PinsAfter(bs: seq<Buf>, k: nat, x: Buf)
    requires k < |bs|
    ensures Pins(bs[k := x]) == Pins(bs) - bs[k].busy + x.busy
  {
    if k > 0 {
      assert bs[k := x][1..] == bs[1..][k - 1 := x];
      PinsAfter(bs[1..], k - 1, x);
    } else {
      assert bs[0 := x][1..] == bs[1..];
    }
  }

  /** The same slots are pinned as often as before, and pinned slots hold the same blocks. */
  ghost predicate Balanced(bs: seq<Buf>, bs': seq<Buf>) {
    && |bs'| == |bs|
    && forall k :: 0 <= k < |bs| ==> bs'[k].busy == bs[k].busy && (bs[k].busy > 0 ==> bs'[k].bno == bs[k].bno)
  }

  lemma {:induction false} BalancedPins(bs: seq<Buf>, bs': seq<Buf>)
    requires Balanced(bs, bs')
    ensures Pins(bs') == Pins(bs)
  {
    if bs != [] {
      BalancedPins(bs[1..], bs'[1..]);
    }
  }

  lemma BalancedTransitive(bs: seq<Buf>, bs1: seq<Buf>, bs2: seq<Buf>)
    requires Balanced(bs, bs1) && Balanced(bs1, bs2)
    ensures Balanced(bs, bs2)
  {
  }

  /** A block that was got, used and put back leaves the pins as they were. */
  lemma GotAndPut(bs: seq<Buf>, bs1: seq<Buf>, bs2: seq<Buf>, bs3: seq<Buf>, b: u32, k: nat)
    requires Got(bs, bs1, b, k) && b != 0 && Balanced(bs1, bs2)
    requires k < |bs2| && bs2[k].busy > 0 && bs3 == bs2[k := bs2[k].(busy := bs2[k].busy - 1)]
    ensures Balanced(bs, bs3)
  {
  }

  // ----- kinds -----

  /** Which kind of block a block number stands for. */
  function KindOf(g: Geometry, kinds: map<nat, Kind>, b: nat): Kind {
    if b == 1 then SuperBlock else if b < g.firstinob then BitsBlock else if b < g.DataStart() then InodeBlock
    else if b in kinds then kinds[b] else FileBlock
  }

  /** Pinned blocks are pinned as what they are, and lie below 'limit'. */
  ghost predicate PinsOk(bs: seq<Buf>, g: Geometry, kinds: map<nat, Kind>, limit: nat) {
    forall k :: 0 <= k < |bs| && bs[k].busy > 0 ==> bs[k].bno < limit && bs[k].kind == KindOf(g, kinds, bs[k].bno)
  }

  lemma CanGetIff(bs: seq<Buf>, nblocks: nat, g: Geometry, kinds: map<nat, Kind>, limit: nat, b: nat, kind: Kind)
    requires PinsOk(bs, g, kinds, limit) && Pins(bs) < |bs| && (b < limit ==> kind == KindOf(g, kinds, b))
    ensures CanGet(bs, nblocks, b, kind) <==> b < nblocks
  {
    FewPins(bs);
  }

  lemma GotPins(bs: seq<Buf>, bs': seq<Buf>, b: u32, k: nat)
    requires Got(bs, bs', b, k)
    ensures Pins(bs') == Pins(bs) + 1 && bs'[k].busy > 0
    ensures forall m :: 0 <= m < |bs| && bs[m].busy > 0 ==> bs'[m].bno == bs[m].bno && bs'[m].busy > 0
  {
    PinsAfter(bs, k, bs'[k]);
  }

  /** A block that is got for the first time is pinned as what it was got for. */
  lemma FreshPins(bs: seq<Buf>, bs': seq<Buf>, g: Geometry, kinds: map<nat, Kind>, kind: Kind, b: u32, k: nat, ok: bool)
    requires PinsOk(bs, g, kinds, b) && g.Ok() && g.DataStart() <= b
    requires ok ==> Got(bs, bs', b, k) && bs'[k].kind == kind
    requires !ok ==> bs' == bs
    ensures PinsOk(bs', g, if ok then kinds[b as nat := kind] else kinds, b + 1)
    ensures ok ==> k < |bs'| && bs'[k].bno == b
  {
  }

  // ----- the image under construction -----

  /** Every set bit of a bitmap block, also those that the module's allocator never looks at. */
  function BitsOf(bitmap: Block): set<nat> {
    set b: nat | b < 8 * BLKSIZE && FreeBit(bitmap, b)
  }

  function Layout(l: Disk, g: Geometry): FS
    requires g.Ok() && |l| == g.nblocks
  {
    FS(g, CellsIn(l, g), InodesIn(l, g), BitsOf(l[FREEMAP_BLK]))
  }

  lemma LayoutShape(l: Disk, g: Geometry)
    requires g.Ok() && |l| == g.nblocks
    ensures ShapeOk(Layout(l, g))
    ensures forall b :: g.DataStart() <= b < |l| ==> Layout(l, g).disk[b] == CellOf(l[b])
  {
    forall c | 0 <= c < |l|
      ensures |Layout(l, g).disk[c].words| == WORDS_PER_BLOCK
    {
      assert Layout(l, g).disk[c] == CellOf(if c < g.DataStart() then ZeroBlock() else l[c]);
      assert |WordsOf(ZeroBlock())| == |WordsOf(l[c])| == WORDS_PER_BLOCK;
    }
  }

  lemma LayoutAfterBlock(l: Disk, g: Geometry, b: nat, blk: Block)
    requires g.Ok() && |l| == g.nblocks && g.DataStart() <= b < |l|
    ensures Layout(l[b := blk], g) == Layout(l, g).(disk := Layout(l, g).disk[b := CellOf(blk)])
  {
    DataBlockIn(l, g, b, blk);
  }

  lemma LayoutAfterInodeWord(l: Disk, g: Geometry, i: nat, f: nat, v: u32)
    requires g.Ok() && |l| == g.nblocks && i < g.ninodes && f < 16
    ensures InodeBlockOf(g, i) < g.DataStart()
    ensures var b := InodeBlockOf(g, i); var l' := l[b := PutWord(l[b], 16 * (i % BLKINODES) + f, v)];
            Layout(l', g) == Layout(l, g).(inodes := Layout(l, g).inodes[i := SetField(Layout(l, g).inodes[i], f, v)])
  {
    InodeWordIn(l, g, i, f, v);
  }

  /** What main checks before it calls opendisk. */
  predicate LayoutFits(n: nat, m: nat) {
    2 <= n <= 8 * BLKSIZE && m >= 2 && m < n - 2 - n / (8 * BLKSIZE)
  }

  /** There is one bitmap block, and the inode blocks fit. */
  lemma FirstDataBlock(n: nat, m: nat)
    requires LayoutFits(n, m)
    ensures (n + 8 * BLKSIZE - 1) / (8 * BLKSIZE) == 1
    ensures Geometry(n, m, FREEMAP_BLK + 1).Ok() && n > FREEMAP_BLK + 1
    ensures Geometry(n, m, FREEMAP_BLK + 1).DataStart() == FREEMAP_BLK + 1 + (m + BLKINODES - 1) / BLKINODES < n
  {
  }

  lemma {:induction false} NoPins(bs: seq<Buf>)
    requires forall i :: 0 <= i < |bs| ==> bs[i].busy == 0
    ensures Pins(bs) == 0
  {
    if bs != [] {
      NoPins(bs[1..]);
    }
  }

  class Formatter {
    const nblocks: u32
    const ninodes: u32
    const cache: Cache
    var nextb: u32
    var nextinode: u32
    ghost var kinds: map<nat, Kind>

    function Geo(): Geometry { Geometry(nblocks, ninodes, FREEMAP_BLK + 1) }

    /** The start of opendisk: a blank disk. */
    constructor (n: u32, m: u32)
      requires LayoutFits(n, m)
      ensures Ready() && nblocks == n && ninodes == m && fresh(cache) && fresh(cache.slots)
      ensures Pins(cache.slots[..]) == 0 && cache.logical == seq(n, _ => ZeroBlock()) && nextb == Geo().DataStart() && nextinode == 0
    {
      nblocks, ninodes := n, m;
      var c := new Cache(n);
      cache := c;
      FirstDataBlock(n, m);
      nextb := FREEMAP_BLK + (n + 8 * BLKSIZE - 1) / (8 * BLKSIZE) + (m + BLKINODES - 1) / BLKINODES;
      nextinode := 0;
      kinds := map[];
      new;
      NoPins(cache.slots[..]);
    }

    ghost predicate Valid()
      reads this, cache, cache.slots
    {
      && cache.Valid() && cache.nblocks == nblocks && Geo().Ok() && nblocks > FREEMAP_BLK
      && Geo().DataStart() <= nextb <= nblocks && PinsOk(cache.slots[..], Geo(), kinds, nextb as nat + 1)
    }

    /** Valid, and no block that is still to be allocated is pinned. */
    ghost predicate Ready()
      reads this, cache, cache.slots
    {
      Valid() && PinsOk(cache.slots[..], Geo(), kinds, nextb)
    }

    ghost function View(): FS
      requires Valid()
      reads this, cache, cache.slots
    {
      Layout(cache.logical, Geo())
    }

    /** The next unused block is fetched cleared; that fails exactly at the end of the disk. */
    method GetFresh(kind: Kind) returns (ok: bool, k: nat)
      requires Ready() && Pins(cache.slots[..]) < NCACHE
      modifies cache, cache.slots, `kinds
      ensures Valid() && ok == (nextb < nblocks)
      ensures !ok ==> cache.logical == old(cache.logical) && cache.slots[..] == old(cache.slots[..]) && kinds == old(kinds)
      ensures ok ==> View() == old(View()).(disk := old(View()).disk[nextb as nat := CellOf(ZeroBlock())])
      ensures ok ==> Got(old(cache.slots[..]), cache.slots[..], nextb, k) && kinds == old(kinds)[nextb as nat := kind]
      ensures ok ==> cache.slots[k].data == ZeroBlock()
    {
      hide Layout, Pins, PinsOk, CanGet, SlotsOk, Reflects, LeastRecent, InCache;
      ghost var bs := cache.slots[..];
      CanGetIff(bs, nblocks, Geo(), kinds, nextb, nextb, kind);
      ghost var l := cache.logical;
      ok, k := cache.GetBlk(nextb, true, kind);
      FreshPins(bs, cache.slots[..], Geo(), kinds, kind, nextb, k, ok);
      if ok {
        LayoutAfterBlock(l, Geo(), nextb, ZeroBlock());
        kinds := kinds[nextb as nat := kind];
      }
    }

    /** A block that exists is fetched with its contents. */
    method GetOld(b: u32, kind: Kind) returns (k: nat)
      requires Ready() && Pins(cache.slots[..]) < NCACHE && 0 < b < nextb && kind == KindOf(Geo(), kinds, b)
      modifies cache, cache.slots
      ensures Ready() && cache.logical == old(cache.logical) && Got(old(cache.slots[..]), cache.slots[..], b, k)
      ensures cache.slots[k].data == cache.logical[b]
    {
      CanGetIff(cache.slots[..], nblocks, Geo(), kinds, nextb, b, kind);
      var ok;
      ok, k := cache.GetBlk(b, false, kind);
    }

    /** putblk */
    method Put(k: nat)
      requires Ready() && k < NCACHE && cache.slots[k].busy > 0
      modifies cache.slots
      ensures Ready() && cache.slots[..] == old(cache.slots[..])[k := old(cache.slots[k]).(busy := old(cache.slots[k]).busy - 1)]
    {
      cache.PutBlk(k);
    }

    /** One word of a pinned block of the data area gets a new value. */
    method StoreWord(k: nat, j: nat, v: u32)
      requires Ready() && k < NCACHE && cache.slots[k].busy > 0 && Geo().DataStart() <= cache.slots[k].bno && j < WORDS_PER_BLOCK
      modifies cache, cache.slots
      ensures Ready() && Balanced(old(cache.slots[..]), cache.slots[..])
      ensures var b: nat := cache.slots[k].bno;
              b < |old(View()).disk| && View() == old(View()).(disk := old(View()).disk[b := PutCellWord(old(View()).disk[b], j, v)])
    {
      ghost var l, b: nat := cache.logical, cache.slots[k].bno;
      var blk := PutWord(cache.slots[k].data, j, v);
      InSlot(cache.slots[..], cache.disk, cache.logical, nblocks, cache.clock, k);
      cache.Store(k, blk);
      LayoutAfterBlock(l, Geo(), b, blk);
      WordsAfterPut(l[b], j, v);
    }

    /** A pinned block of the data area is filled as a whole. */
    method StoreBlock(k: nat, blk: Block)
      requires Valid() && k < NCACHE && cache.slots[k].busy > 0 && Geo().DataStart() <= cache.slots[k].bno
      modifies cache, cache.slots
      ensures Valid() && Balanced(old(cache.slots[..]), cache.slots[..]) && cache.slots[..] == old(cache.slots[..])[k := old(cache.slots[k]).(data := blk)]
      ensures old(Ready()) ==> Ready()
      ensures var b: nat := cache.slots[k].bno;
              b < |old(View()).disk| && View() == old(View()).(disk := old(View()).disk[b := CellOf(blk)])
    {
      ghost var l, b: nat := cache.logical, cache.slots[k].bno;
      InSlot(cache.slots[..], cache.disk, cache.logical, nblocks, cache.clock, k);
      cache.Store(k, blk);
      LayoutAfterBlock(l, Geo(), b, blk);
    }

    /** One field of an inode gets a new value, through its pinned block. */
    method StoreInode(k: nat, i: nat, f: nat, v: u32)
      requires Ready() && k < NCACHE && cache.slots[k].busy > 0 && i < ninodes && f < 16 && cache.slots[k].bno == InodeBlockOf(Geo(), i)
      modifies cache, cache.slots
      ensures Ready() && Balanced(old(cache.slots[..]), cache.slots[..])
      ensures View() == old(View()).(inodes := old(View()).inodes[i := SetField(old(View()).inodes[i], f, v)])
    {
      ghost var l, b: nat := cache.logical, cache.slots[k].bno;
      var blk := PutWord(cache.slots[k].data, 16 * (i % BLKINODES) + f, v);
      InSlot(cache.slots[..], cache.disk, cache.logical, nblocks, cache.clock, k);
      cache.Store(k, blk);
      LayoutAfterInodeWord(l, Geo(), i, f, v);
    }

    /** What 'ino' points to, in a pinned inode block. */
    method ReadInode(k: nat, i: nat) returns (x: Inode)
      requires Valid() && k < NCACHE && cache.slots[k].busy > 0 && i < ninodes && cache.slots[k].bno == InodeBlockOf(Geo(), i)
      ensures x == View().inodes[i]
    {
      InSlot(cache.slots[..], cache.disk, cache.logical, nblocks, cache.clock, k);
      x := InodeAt(cache.slots[k].data, i % BLKINODES);
    }
  }

  lemma InSlot(bs: seq<Buf>, disk: seq<Block>, logical: seq<Block>, nblocks: nat, clock: nat, k: nat)
    requires SlotsOk(bs, nblocks, clock) && Reflects(bs, disk, logical) && |logical| == nblocks && k < |bs| && bs[k].busy > 0
    ensures 0 < bs[k].bno < nblocks && bs[k].data == logical[bs[k].bno]
  {
  }
}
