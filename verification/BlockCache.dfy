/** The formatter's write-back block cache: sixteen slots, pinning, least recently used eviction. */
module BlockCache {
  import opened Words

  const NCACHE: nat := 16

  datatype Kind = SuperBlock | DirBlock | FileBlock | BitsBlock | InodeBlock

  /** struct Block; a slot that was never used has block number 0. */
  datatype Buf = Buf(bno: u32, kind: Kind, busy: nat, used: nat, data: Block)

  const EMPTY: Buf := Buf(0, SuperBlock, 0, 0, ZeroBlock())

  class Cache {
    const nblocks: u32
    const slots: array<Buf>
    var disk: seq<Block>
    var clock: nat

    /** What a program without a cache would have on its disk. */
    ghost var logical: seq<Block>

    ghost predicate Valid()
      reads this, slots
    {
      && slots.Length == NCACHE && |disk| == |logical| == nblocks
      && SlotsOk(slots[..], nblocks, clock) && Reflects(slots[..], disk, logical)
    }

    /** A cache over a blank disk. */
    constructor (n: u32)
      ensures Valid() && nblocks == n && fresh(slots) && logical == seq(n, _ => ZeroBlock())
      ensures forall i :: 0 <= i < NCACHE ==> slots[i] == EMPTY
    {
      nblocks := n;
      slots := new Buf[NCACHE](_ => EMPTY);
      disk := seq(n, _ => ZeroBlock());
      clock := 1;
      logical := seq(n, _ => ZeroBlock());
    }

    /** flushb */
    method FlushB(k: nat)
      requires Valid() && k < NCACHE && slots[k].used > 0
      modifies `disk
      ensures Valid() && disk == old(disk)[slots[k].bno := slots[k].data]
    {
      disk := disk[slots[k].bno := slots[k].data];
    }

    /** The scan of getblk: a hit, or the least recently used slot that is not pinned. */
    method Search(bno: u32) returns (hit: bool, least: int)
      requires Valid() && bno != 0
      ensures hit ==> 0 <= least < NCACHE && slots[least].bno == bno
      ensures hit <==> InCache(slots[..], bno)
      ensures !hit ==> -1 <= least < NCACHE && (least == -1 <==> !HasUnpinned(slots[..]))
      ensures !hit && least != -1 ==> LeastRecent(slots[..], least)
    {
      least := -1;
      var i := 0;
      while i < NCACHE
        invariant 0 <= i <= NCACHE && -1 <= least < i
        invariant forall m :: 0 <= m < i ==> slots[m].bno != bno
        invariant least == -1 ==> forall m :: 0 <= m < i ==> slots[m].busy > 0
        invariant least != -1 ==> slots[least].busy == 0 && forall m :: 0 <= m < i && slots[m].busy == 0 ==> slots[least].used <= slots[m].used
      {
        if slots[i].bno == bno {
          return true, i;
        }
        if slots[i].busy == 0 && (least == -1 || slots[i].used < slots[least].used) {
          least := i;
        }
        i := i + 1;
      }
      hit := false;
      assert forall m :: 0 <= m < NCACHE ==> slots[..][m] == slots[m];
    }

    /**
     * getblk, with an abort of the program as result false: the block does not exist, every slot is pinned, or the
     * block is pinned as another kind.
     */
    method GetBlk(bno: u32, clr: bool, kind: Kind) returns (ok: bool, k: nat)
      requires Valid() && bno != 0
      modifies this, slots
      ensures Valid() && ok == CanGet(old(slots[..]), nblocks, bno, kind)
      ensures ok ==> Got(old(slots[..]), slots[..], bno, k) && slots[k].kind == kind && slots[k].used == clock > old(clock)
      ensures ok ==> logical == if clr then old(logical)[bno := ZeroBlock()] else old(logical)
      ensures ok ==> slots[k].data == logical[bno]
      ensures !ok ==> logical == old(logical) && disk == old(disk) && slots[..] == old(slots[..])
    {
      hide SlotsOk, Reflects, Loaded, SlotsApart, InCache, HasUnpinned, LeastRecent;
      ok, k := false, 0;
      if bno >= nblocks {
        return;
      }
      var hit, least := Search(bno);
      if hit {
        Hit(slots[..], disk, logical, nblocks, clock, bno, least);
        if slots[least].kind != kind && slots[least].busy != 0 {
          return;
        }
      } else {
        Miss(slots[..], bno);
        if least == -1 {
          return;
        }
        Victim(slots[..], least);
        Load(bno, kind, least);
      }
      ok, k := true, least;
      Touch(k, clr, kind);
    }

    /** A miss: writes the victim back if it was ever used, and reads block bno into its slot. */
    method Load(bno: u32, kind: Kind, k: nat)
      requires Valid() && 0 < bno < nblocks && k < NCACHE && slots[k].busy == 0 && !InCache(slots[..], bno)
      modifies `disk, slots
      ensures slots[..] == old(slots[..])[k := Buf(bno, kind, 0, old(slots[k].used), logical[bno])]
      ensures |disk| == nblocks && Loaded(slots[..], disk, logical, k)
      ensures SlotsApart(slots[..], nblocks, clock, k)
    {
      ghost var bs, d := slots[..], disk;
      if slots[k].used > 0 {
        FlushB(k);
      }
      assert logical[bno] == disk[bno];
      slots[k] := Buf(bno, kind, 0, slots[k].used, disk[bno]);
      assert slots[..] == bs[k := slots[k]];
      Evicted(bs, d, slots[..], disk, logical, nblocks, clock, k);
    }

    /** The common end of getblk: clears the block if asked to, stamps it, pins it. */
    method Touch(k: nat, clr: bool, kind: Kind)
      requires slots.Length == NCACHE && |disk| == |logical| == nblocks && k < NCACHE && 0 < slots[k].bno < nblocks
      requires Loaded(slots[..], disk, logical, k) && SlotsApart(slots[..], nblocks, clock, k)
      modifies `clock, `logical, slots
      ensures Valid() && clock == old(clock) + 1
      ensures logical == if clr then old(logical)[slots[k].bno := ZeroBlock()] else old(logical)
      ensures slots[..] == old(slots[..])[k := Buf(old(slots[k].bno), kind, old(slots[k].busy) + 1, clock, logical[slots[k].bno])]
    {
      ghost var bs, l := slots[..], logical;
      var data := slots[k].data;
      if clr {
        data := ZeroBlock();
        logical := logical[slots[k].bno := ZeroBlock()];
      }
      clock := clock + 1;
      slots[k] := Buf(slots[k].bno, kind, slots[k].busy + 1, clock, data);
      assert slots[..] == bs[k := slots[k]];
      Stamped(bs, slots[..], disk, l, logical, nblocks, clock, k);
    }

    /** putblk */
    method PutBlk(k: nat)
      requires Valid() && k < NCACHE && slots[k].busy > 0
      modifies slots
      ensures Valid() && slots[..] == old(slots[..])[k := old(slots[k]).(busy := old(slots[k]).busy - 1)]
    {
      ghost var bs := slots[..];
      slots[k] := slots[k].(busy := slots[k].busy - 1);
      assert slots[..] == bs[k := slots[k]];
      InCacheSame(bs, slots[..]);
    }

    /** Stores through the pointer that getblk returned, while the block is pinned. */
    method Store(k: nat, blk: Block)
      requires Valid() && k < NCACHE && slots[k].busy > 0
      modifies `logical, slots
      ensures Valid() && slots[..] == old(slots[..])[k := old(slots[k]).(data := blk)]
      ensures logical == old(logical)[slots[k].bno := blk]
    {
      ghost var bs := slots[..];
      logical := logical[slots[k].bno := blk];
      slots[k] := slots[k].(data := blk);
      assert slots[..] == bs[k := slots[k]];
      InCacheSame(bs, slots[..]);
    }

    /** flushdisk: afterwards the disk itself holds what the program wrote. */
    method FlushDisk()
      requires Valid()
      modifies `disk
      ensures Valid() && disk == logical
    {
      var i := 0;
      while i < NCACHE
        invariant 0 <= i <= NCACHE && Valid()
        invariant forall m :: 0 <= m < i && slots[m].used > 0 ==> disk[slots[m].bno] == slots[m].data
      {
        if slots[i].used > 0 {
          FlushB(i);
        }
        i := i + 1;
      }
      forall b | 0 <= b < nblocks
        ensures disk[b] == logical[b]
      {
        if b > 0 && InCache(slots[..], b) {
          var m :| 0 <= m < NCACHE && slots[..][m].bno == b;
          assert slots[m].used > 0;
        }
      }
    }
  }

  ghost predicate SlotsOk(bs: seq<Buf>, nblocks: nat, clock: nat) {
    && (forall i :: 0 <= i < |bs| ==> if bs[i].used == 0 then bs[i].bno == 0 && bs[i].busy == 0
                                      else 0 < bs[i].bno < nblocks && bs[i].used <= clock)
    && (forall i, j :: 0 <= i < j < |bs| && bs[i].bno == bs[j].bno ==> bs[i].bno == 0)
  }

  /** Cached blocks are what the cache says, all others are what the disk says. */
  ghost predicate Reflects(bs: seq<Buf>, disk: seq<Block>, logical: seq<Block>) {
    && |disk| == |logical|
    && (forall i :: 0 <= i < |bs| && bs[i].used > 0 && bs[i].bno < |logical| ==> logical[bs[i].bno] == bs[i].data)
    && (forall b :: 0 <= b < |disk| && (b == 0 || !InCache(bs, b)) ==> logical[b] == disk[b])
  }

  ghost predicate InCache(bs: seq<Buf>, b: nat) {
    exists i :: 0 <= i < |bs| && bs[i].bno == b
  }

  ghost predicate HasUnpinned(bs: seq<Buf>) {
    exists i :: 0 <= i < |bs| && bs[i].busy == 0
  }

  ghost predicate LeastRecent(bs: seq<Buf>, k: nat) {
    k < |bs| && bs[k].busy == 0 && forall i :: 0 <= i < |bs| && bs[i].busy == 0 ==> bs[k].used <= bs[i].used
  }

  /** When getblk does not abort. */
  ghost predicate CanGet(bs: seq<Buf>, nblocks: nat, bno: nat, kind: Kind) {
    && bno < nblocks && (InCache(bs, bno) || HasUnpinned(bs))
    && forall i :: 0 <= i < |bs| && bs[i].bno == bno && bs[i].busy > 0 ==> bs[i].kind == kind
  }

  /** Slot k now holds block bno with one pin more; only that slot changed, and only an unpinned one was evicted. */
  ghost predicate Got(bs: seq<Buf>, bs': seq<Buf>, bno: u32, k: nat) {
    && k < |bs| == |bs'| && bs' == bs[k := bs'[k]] && bs'[k].bno == bno
    && if InCache(bs, bno) then bs[k].bno == bno && bs'[k].busy == bs[k].busy + 1
       else LeastRecent(bs, k) && bs'[k].busy == 1
  }

  lemma Hit(bs: seq<Buf>, disk: seq<Block>, logical: seq<Block>, nblocks: nat, clock: nat, bno: nat, k: nat)
    requires SlotsOk(bs, nblocks, clock) && Reflects(bs, disk, logical) && |disk| == nblocks && k < |bs| && bs[k].bno == bno != 0
    ensures bno < nblocks && bs[k].used > 0 && Loaded(bs, disk, logical, k) && SlotsApart(bs, nblocks, clock, k)
    ensures forall i :: 0 <= i < |bs| && bs[i].bno == bno ==> i == k
    ensures InCache(bs, bno)
  {
  }

  lemma Miss(bs: seq<Buf>, bno: nat)
    requires !InCache(bs, bno)
    ensures forall i :: 0 <= i < |bs| ==> bs[i].bno != bno
  {
  }

  lemma Victim(bs: seq<Buf>, k: nat)
    requires LeastRecent(bs, k)
    ensures k < |bs| && bs[k].busy == 0 && HasUnpinned(bs)
  {
  }

  /** SlotsOk, except that slot k, just loaded, carries the time stamp of its previous content. */
  ghost predicate SlotsApart(bs: seq<Buf>, nblocks: nat, clock: nat, k: nat) {
    && (forall i :: 0 <= i < |bs| && i != k ==> if bs[i].used == 0 then bs[i].bno == 0 && bs[i].busy == 0
                                                 else 0 < bs[i].bno < nblocks && bs[i].used <= clock)
    && (forall i, j :: 0 <= i < j < |bs| && bs[i].bno == bs[j].bno ==> bs[i].bno == 0)
  }

  ghost predicate Loaded(bs: seq<Buf>, disk: seq<Block>, logical: seq<Block>, k: nat) {
    && |disk| == |logical| && k < |bs| && bs[k].bno < |logical| && logical[bs[k].bno] == bs[k].data
    && (forall i :: 0 <= i < |bs| && bs[i].used > 0 && bs[i].bno < |logical| ==> logical[bs[i].bno] == bs[i].data)
    && (forall b :: 0 <= b < |disk| && (b == 0 || !InCache(bs, b)) ==> logical[b] == disk[b])
  }

  lemma InCacheSame(bs: seq<Buf>, bs': seq<Buf>)
    requires |bs'| == |bs| && forall i :: 0 <= i < |bs| ==> bs'[i].bno == bs[i].bno
    ensures forall b :: InCache(bs', b) <==> InCache(bs, b)
  {
    forall b: nat
      ensures InCache(bs', b) <==> InCache(bs, b)
    {
      if InCache(bs, b) {
        var i :| 0 <= i < |bs| && bs[i].bno == b;
        assert bs'[i].bno == b;
      }
      if InCache(bs', b) {
        var i :| 0 <= i < |bs'| && bs'[i].bno == b;
        assert bs[i].bno == b;
      }
    }
  }

  lemma Evicted(bs: seq<Buf>, disk: seq<Block>, bs': seq<Buf>, disk': seq<Block>, logical: seq<Block>, nblocks: nat, clock: nat, k: nat)
    requires SlotsOk(bs, nblocks, clock) && Reflects(bs, disk, logical) && |disk| == nblocks && k < |bs|
    requires disk' == if bs[k].used > 0 then disk[bs[k].bno := bs[k].data] else disk
    requires |bs'| == |bs| && bs' == bs[k := bs'[k]] && 0 < bs'[k].bno < nblocks && !InCache(bs, bs'[k].bno) && bs'[k].data == logical[bs'[k].bno]
    ensures Loaded(bs', disk', logical, k) && SlotsApart(bs', nblocks, clock, k)
  {
    assert forall m :: 0 <= m < |bs| ==> bs[m].bno != bs'[k].bno;
    forall b | 0 <= b < nblocks && (b == 0 || !InCache(bs', b))
      ensures logical[b] == disk'[b]
    {
      if b > 0 && InCache(bs, b) {
        var i :| 0 <= i < |bs| && bs[i].bno == b;
        assert bs'[i].bno == b || i == k;
      }
    }
  }

  lemma Stamped(bs: seq<Buf>, bs': seq<Buf>, disk: seq<Block>, logical: seq<Block>, logical': seq<Block>, nblocks: nat, clock: nat, k: nat)
    requires Loaded(bs, disk, logical, k) && clock > 0 && SlotsApart(bs, nblocks, clock - 1, k) && |disk| == nblocks && 0 < bs[k].bno < nblocks
    requires |bs'| == |bs| && bs' == bs[k := bs'[k]] && bs'[k].bno == bs[k].bno && bs'[k].used == clock
    requires logical' == logical[bs[k].bno := bs'[k].data]
    ensures SlotsOk(bs', nblocks, clock) && Reflects(bs', disk, logical')
  {
    InCacheSame(bs, bs');
    assert InCache(bs, bs[k].bno);
  }
}
