/** What add_block and remove_block do to the image, one file at a time. */
module Resizing {
  import opened Words
  import opened BlockTree
  import opened FileSystem
  import opened Ownership

  /** Only blocks in 'taken' and pointer blocks of file i differ. */
  ghost predicate SameBut(d: seq<Cell>, d': seq<Cell>, taken: set<nat>, own: Owners, i: nat) {
    && |d| == |d'|
    && forall c :: 0 <= c < |d| && c !in taken && !(c in own && own[c].ino == i && !own[c].slot.Data?) ==> d'[c] == d[c]
  }

  /** Block b has been taken from the free set and erased; nothing else happened. */
  ghost predicate Reserved(s: FS, t: FS, b: nat) {
    && b in s.free && b < |s.disk|
    && t == s.(free := s.free - {b}, disk := s.disk[b := CellOf(ZeroBlock())])
  }

  /** Block n of file i is b; it and the pointer blocks it needs come from the free set. */
  ghost predicate Taken(s: FS, own: Owners, d: seq<Cell>, own': Owners, i: nat, n: nat, m: nat, b: nat, add: Owners) {
    && m == n + 1 && own' == own + add
    && SameBut(s.disk, d, add.Keys, own, i) && Shape(d)
    && add.Keys <= s.free && |add| == Total(m) - Total(n)
    && (forall c :: c in add ==> add[c].ino == i)
    && b in add && add[b] == Owner(i, Data(n)) && BytesAt(d, b) == ZeroBlock()
  }

  /** The tree of file i includes its new block. */
  ghost predicate Hung(s: FS, d: seq<Cell>, p: Pointers, own': Owners, i: nat, n: nat, m: nat)
    requires i < |s.inodes|
  {
    TreeOk(d, p, i, own', m) && Extends(s.disk, s.inodes[i].ptrs, d, p, n)
  }

  lemma LinkedFree(geo: Geometry, free: set<nat>, own: Owners, own': Owners, i: nat, add: Owners)
    requires FreeOk(geo, free, own) && i < geo.ninodes && own' == own + add
    requires add.Keys <= free && forall c :: c in add ==> add[c].ino == i
    ensures FreeOk(geo, free - add.Keys, own')
  {
  }

  lemma LinkedOthers(d: seq<Cell>, own: Owners, d': seq<Cell>, own': Owners, i: nat, add: Owners)
    requires SameBut(d, d', add.Keys, own, i) && add.Keys !! own.Keys && own' == own + add
    requires forall c :: c in add ==> add[c].ino == i
    ensures OthersKeep(d, own, d', own', i)
  {
  }

  lemma LinkedData(d: seq<Cell>, p: Pointers, own: Owners, d': seq<Cell>, p': Pointers, own': Owners,
                   i: nat, n: nat, m: nat, b: nat, add: Owners)
    requires SameBut(d, d', add.Keys, own, i) && add.Keys !! own.Keys && own' == own + add
    requires TreeOk(d, p, i, own, n) && TreeOk(d', p', i, own', m) && Extends(d, p, d', p', n)
    requires m == n + 1 && b in add && add[b] == Owner(i, Data(n)) && BytesAt(d', b) == ZeroBlock()
    ensures TreeResized(d, p, d', p', n, m) && OwnersResized(own, own', i, n, m)
  {
    forall k: nat | k < m
      ensures DataBytes(d', p', k) == if k < n then DataBytes(d, p, k) else ZeroBlock()
    {
      if k < n {
        assert Needs(n, Data(k)) && At(d, p, Data(k)) in own;
      } else {
        assert own'[b] == Owner(i, Data(n));
      }
    }
    forall c | c in own' && own'[c].ino == i && Needs(n, own'[c].slot)
      ensures c in own && own'[c] == own[c]
    {
      assert At(d, p, own'[c].slot) == At(d', p', own'[c].slot) == c;
    }
  }

  /** s after the pointers and data of file i, its size in whole blocks, and the free set were replaced */
  function Rewritten(s: FS, i: nat, d: seq<Cell>, p: Pointers, n: nat, free: set<nat>): FS
    requires i < |s.inodes| && BLKSIZE * n <= MAX_SIZE
  {
    s.(disk := d, free := free, inodes := s.inodes[i := s.inodes[i].(size := BLKSIZE * n, ptrs := p)])
  }

  /** A linked block and the matching size make a well-formed longer file. */
  lemma LinkedThenSized(s: FS, own: Owners, d: seq<Cell>, p: Pointers, own': Owners, i: nat, n: nat, m: nat, b: nat,
                        add: Owners, t: FS)
    requires Consistent(s, own) && i < |s.inodes|
    requires Taken(s, own, d, own', i, n, m, b, add) && Hung(s, d, p, own', i, n, m)
    requires BLKSIZE * m <= MAX_SIZE && t == Rewritten(s, i, d, p, m, s.free - add.Keys)
    requires s.inodes[i].ftype != FTYPE_SYMLINK && n == NBlocks(s.inodes[i])
    ensures Consistent(t, own') && Resized(s, own, t, own', i, n, m)
    ensures NBlocks(t.inodes[i]) == m && |t.free| == |s.free| - (Total(m) - Total(n))
  {
    assert FileOk(s.disk, s.inodes[i], i, own);
    assert add.Keys !! own.Keys;
    Size2NBlocksIsCeiling(BLKSIZE * m);
    LinkedFree(s.geo, s.free, own, own', i, add);
    LinkedOthers(s.disk, own, d, own', i, add);
    LinkedData(s.disk, s.inodes[i].ptrs, own, d, p, own', i, n, m, b, add);
    assert NBlocks(t.inodes[i]) == m && Tree(t.inodes[i]) == p;
    assert TreeOk(d, p, i, own', m);
    assert FileOk(d, t.inodes[i], i, own');
    SubsetCard(add.Keys, s.free);
    assert |add.Keys| == |add|;
    ConsistentFromOneFile(s, own, t, own', i);
  }

  /** A failed add_block may have scribbled on free blocks only. */
  lemma NothingLinked(s: FS, own: Owners, t: FS, i: nat)
    requires Consistent(s, own) && i < |s.inodes| && s.inodes[i].ftype != FTYPE_SYMLINK
    requires t.geo == s.geo && t.free == s.free && SameExcept(s.disk, t.disk, s.free) && Shape(t.disk)
    requires |t.inodes| == |s.inodes|
    requires t.inodes == s.inodes ||
             (t.inodes == s.inodes[i := s.inodes[i].(ptrs := s.inodes[i].ptrs.(indirect2 := t.inodes[i].ptrs.indirect2))]
              && NBlocks(s.inodes[i]) <= NFLAT)
    ensures Consistent(t, own) && Resized(s, own, t, own, i, NBlocks(s.inodes[i]), NBlocks(s.inodes[i]))
  {
    var n, p, p' := NBlocks(s.inodes[i]), s.inodes[i].ptrs, t.inodes[i].ptrs;
    assert FileOk(s.disk, s.inodes[i], i, own);
    NothingLinkedTree(s.disk, p, t.disk, p', i, own, n, s.free);
    assert OthersKeep(s.disk, own, t.disk, own, i);
    hide TreeOk, OthersKeep, TreeResized, SameExcept;
    assert FileOk(t.disk, t.inodes[i], i, own);
    ConsistentFromOneFile(s, own, t, own, i);
  }

  lemma NothingLinkedTree(d: seq<Cell>, p: Pointers, d': seq<Cell>, p': Pointers, i: nat, own: Owners, n: nat, free: set<nat>)
    requires TreeOk(d, p, i, own, n) && SameExcept(d, d', free) && own.Keys !! free
    requires p' == p || (n <= NFLAT && p' == p.(indirect2 := p'.indirect2))
    ensures TreeOk(d', p', i, own, n) && TreeResized(d, p, d', p', n, n)
  {
    TreeFrame(d, d', p, i, own, own, n);
    forall slot | Needs(n, slot) || ScannedAsUnused(n, slot)
      ensures At(d', p', slot) == At(d', p, slot)
    {
      match slot case Data(k) => case Ind => case Ind2 => case Sub(t) =>
    }
    forall k: nat | k < n
      ensures DataBytes(d', p', k) == DataBytes(d, p, k)
    {
      assert Needs(n, Data(k)) && At(d, p, Data(k)) in own;
    }
  }

  /** The last block of file i has been unhooked. */
  ghost predicate Unlinked(s: FS, own: Owners, d: seq<Cell>, p: Pointers, own': Owners, i: nat, n: nat, m: nat)
    requires i < |s.inodes|
  {
    && n == m + 1 && own' == Release(own, i, m)
    && SameBut(s.disk, d, {}, own, i) && Shape(d)
    && TreeOk(d, p, i, own', m) && Extends(s.disk, s.inodes[i].ptrs, d, p, m)
  }

  lemma UnlinkedData(d: seq<Cell>, p: Pointers, own: Owners, d': seq<Cell>, p': Pointers, own': Owners, i: nat, n: nat, m: nat)
    requires n == m + 1 && TreeOk(d, p, i, own, n) && Extends(d, p, d', p', m)
    requires SameBut(d, d', {}, own, i) && own' == Release(own, i, m)
    ensures TreeResized(d, p, d', p', n, m) && OthersKeep(d, own, d', own', i)
    ensures OwnersResized(own, own', i, n, m)
  {
    forall k: nat | k < m
      ensures DataBytes(d', p', k) == DataBytes(d, p, k)
    {
      assert Needs(n, Data(k)) && At(d, p, Data(k)) in own;
    }
  }

  /** An unhooked block, its pointer blocks returned to the free set, and the matching size make a well-formed shorter file. */
  lemma UnlinkedThenSized(s: FS, own: Owners, d: seq<Cell>, p: Pointers, own': Owners, i: nat, n: nat, m: nat, t: FS)
    requires Consistent(s, own) && i < |s.inodes| && Unlinked(s, own, d, p, own', i, n, m)
    requires BLKSIZE * m <= MAX_SIZE && t == Rewritten(s, i, d, p, m, s.free + (own.Keys - own'.Keys))
    requires s.inodes[i].ftype != FTYPE_SYMLINK && n == NBlocks(s.inodes[i])
    ensures Consistent(t, own') && Resized(s, own, t, own', i, n, m)
    ensures NBlocks(t.inodes[i]) == m
  {
    assert FileOk(s.disk, s.inodes[i], i, own);
    Size2NBlocksIsCeiling(BLKSIZE * m);
    UnlinkedData(s.disk, s.inodes[i].ptrs, own, d, p, own', i, n, m);
    assert FreeOk(t.geo, t.free, own');
    assert FileOk(d, t.inodes[i], i, own');
    ConsistentFromOneFile(s, own, t, own', i);
  }
}
