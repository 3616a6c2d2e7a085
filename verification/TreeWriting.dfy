/** What each branch of storeblk makes of the image: the formatter's own way of building a file's block tree. */
module TreeWriting {
  import opened Words
  import opened BlockTree
  import opened FileSystem
  import opened Ownership
  import opened Resizing

  /**
   * The image while file i is being written: exactly the blocks from the first data block up to 'limit' are owned, all
   * other files are complete, and file i has n blocks so far, whatever its size field says.
   */
  ghost predicate Built(s: FS, own: Owners, limit: nat, i: nat, n: nat) {
    && ShapeOk(s) && i < |s.inodes| && s.inodes[i].ftype != FTYPE_SYMLINK && s.geo.DataStart() <= limit <= |s.disk|
    && (forall b :: b in own <==> s.geo.DataStart() <= b < limit)
    && (forall b :: b in own ==> own[b].ino < |s.inodes|)
    && (forall k: nat :: k < |s.inodes| && k != i ==> FileOk(s.disk, s.inodes[k], k, own))
    && TreeOk(s.disk, s.inodes[i].ptrs, i, own, n) && (n <= NFLAT ==> s.inodes[i].ptrs.indirect2 == 0)
  }

  /** Block b, and pointer blocks allocated behind it, were hung into file i as its block n. */
  ghost predicate Hooked(s: FS, own: Owners, t: FS, own': Owners, i: nat, n: nat, m: nat, b: nat, limit: nat) {
    && m == n + 1 && t.geo == s.geo && t.free == s.free && |t.inodes| == |s.inodes| && i < |s.inodes|
    && t.inodes == s.inodes[i := s.inodes[i].(ptrs := t.inodes[i].ptrs)]
    && Built(t, own', limit, i, m) && limit == b + (Total(m) - Total(n)) && b in own' && own'[b] == Owner(i, Data(n))
    && Extends(s.disk, s.inodes[i].ptrs, t.disk, t.inodes[i].ptrs, n)
    && (forall k: nat :: k < n ==> DataBytes(t.disk, t.inodes[i].ptrs, k) == DataBytes(s.disk, s.inodes[i].ptrs, k))
    && DataBytes(t.disk, t.inodes[i].ptrs, n) == BytesAt(s.disk, b)
    && OthersKeep(s.disk, own, t.disk, own', i)
  }

  /** The parts of a hooked block put together. */
  lemma MakeHooked(s: FS, own: Owners, d: seq<Cell>, p: Pointers, own': Owners, i: nat, n: nat, m: nat, b: nat, limit: nat, add: Owners, t: FS)
    requires Built(s, own, b, i, n) && m == n + 1 && own' == own + add && t == s.(disk := d, inodes := s.inodes[i := s.inodes[i].(ptrs := p)])
    requires SameBut(s.disk, d, add.Keys - {b}, own, i) && Shape(d) && |d| == |s.disk|
    requires (forall c :: c in add ==> add[c].ino == i) && b in add && add[b] == Owner(i, Data(n)) && b < |d|
    requires (forall c :: c in add <==> b <= c < limit) && limit == b + (Total(m) - Total(n)) <= |d|
    requires TreeOk(d, p, i, own', m) && Extends(s.disk, s.inodes[i].ptrs, d, p, n) && (m <= NFLAT ==> p.indirect2 == 0)
    ensures Hooked(s, own, t, own', i, n, m, b, limit)
  {
    hide FileOk, TreeOk, SameBut, OthersKeep, DataBytes;
    HookedOthers(s, own, d, own', i, n, b, limit, add);
    HookedData(s, own, d, p, own', i, n, b, add);
    forall c
      ensures c in own' <==> s.geo.DataStart() <= c < limit
    {
      assert c in own' <==> c in own || c in add;
    }
    assert t.inodes[i] == s.inodes[i].(ptrs := p);
  }

  lemma HookedOthers(s: FS, own: Owners, d: seq<Cell>, own': Owners, i: nat, n: nat, b: nat, limit: nat, add: Owners)
    requires Built(s, own, b, i, n) && own' == own + add && SameBut(s.disk, d, add.Keys - {b}, own, i)
    requires (forall c :: c in add ==> add[c].ino == i) && (forall c :: c in add <==> b <= c < limit) && b in add
    ensures OthersKeep(s.disk, own, d, own', i)
    ensures forall k: nat :: k < |s.inodes| && k != i ==> FileOk(d, s.inodes[k], k, own')
    ensures forall c :: c in own' ==> own'[c].ino < |s.inodes|
  {
    hide FileOk, TreeOk;
    assert add.Keys !! own.Keys;
    assert SameBut(s.disk, d, add.Keys, own, i);
    LinkedOthers(s.disk, own, d, own', i, add);
    forall k: nat | k < |s.inodes| && k != i
      ensures FileOk(d, s.inodes[k], k, own')
    {
      OtherFileKeeps(s.disk, own, d, own', i, s.inodes[k], k);
    }
  }

  lemma HookedData(s: FS, own: Owners, d: seq<Cell>, p: Pointers, own': Owners, i: nat, n: nat, b: nat, add: Owners)
    requires Built(s, own, b, i, n) && own' == own + add && SameBut(s.disk, d, add.Keys - {b}, own, i)
    requires (forall c :: c in add ==> c >= b) && b in add && add[b] == Owner(i, Data(n))
    requires TreeOk(d, p, i, own', n + 1) && Extends(s.disk, s.inodes[i].ptrs, d, p, n)
    ensures forall k: nat :: k < n ==> DataBytes(d, p, k) == DataBytes(s.disk, s.inodes[i].ptrs, k)
    ensures DataBytes(d, p, n) == BytesAt(s.disk, b)
  {
    hide FileOk;
    forall k: nat | k < n
      ensures DataBytes(d, p, k) == DataBytes(s.disk, s.inodes[i].ptrs, k)
    {
      assert Needs(n, Data(k)) && At(s.disk, s.inodes[i].ptrs, Data(k)) in own;
      assert At(s.disk, s.inodes[i].ptrs, Data(k)) < b;
    }
    assert own'[b] == Owner(i, Data(n)) && At(d, p, Data(n)) == b;
  }

  // ----- the branches of storeblk -----

  lemma BuiltTree(s: FS, own: Owners, limit: nat, i: nat, n: nat)
    requires Built(s, own, limit, i, n)
    ensures i < |s.inodes| && TreeOk(s.disk, s.inodes[i].ptrs, i, own, n) && s.geo.DataStart() <= limit <= |s.disk| && Shape(s.disk)
    ensures (n <= NFLAT ==> s.inodes[i].ptrs.indirect2 == 0) && limit !in own
    ensures forall b :: b in own <==> s.geo.DataStart() <= b < limit
    ensures forall c :: 0 <= c < |s.disk| ==> |s.disk[c].words| == WORDS_PER_BLOCK
  {
  }

  /** A file has no more blocks than the disk. */
  lemma FileFits(s: FS, own: Owners, limit: nat, i: nat, n: nat)
    requires Built(s, own, limit, i, n)
    ensures n <= limit <= 8 * BLKSIZE
  {
    DataSetCard(s.disk, s.inodes[i].ptrs, i, own, n, n);
    SubsetCard(DataSet(s.disk, s.inodes[i].ptrs, n), RangeSet(limit));
  }

  /** What one more block costs: itself, and the pointer blocks that come with it. */
  lemma CostOfBlock(n: nat)
    ensures Total(n + 1) - Total(n) ==
              if n == NDIRECT then 2 else if n == NFLAT then 3
              else if n > NFLAT && (n - NFLAT) % NINDIRECT == 0 then 2 else 1
  {
  }

  /** One or two blocks changed, each of them new or a pointer block of file i. */
  lemma SameButTwo(d: seq<Cell>, d': seq<Cell>, x: nat, y: nat, taken: set<nat>, own: Owners, i: nat)
    requires x < |d| && y < |d| && |d'| == |d| && d' == d[x := d'[x]][y := d'[y]]
    requires x in taken || (x in own && own[x].ino == i && !own[x].slot.Data?)
    requires y in taken || (y in own && own[y].ino == i && !own[y].slot.Data?)
    ensures SameBut(d, d', taken, own, i)
  {
  }

  lemma IndirectIsOwned(d: seq<Cell>, p: Pointers, i: nat, own: Owners, n: nat)
    requires TreeOk(d, p, i, own, n) && n > NDIRECT
    ensures p.indirect in own && own[p.indirect] == Owner(i, Ind)
  {
    assert Needs(n, Ind) && At(d, p, Ind) == p.indirect;
  }

  /** Only the block itself was new. */
  lemma MakeHookedOne(s: FS, own: Owners, d: seq<Cell>, p: Pointers, own': Owners, i: nat, n: nat, m: nat, b: u32, add: Owners, t: FS)
    requires Built(s, own, b, i, n) && m == n + 1 && own' == own + add && t == s.(disk := d, inodes := s.inodes[i := s.inodes[i].(ptrs := p)])
    requires SameBut(s.disk, d, {}, own, i) && Shape(d) && |d| == |s.disk| && b < |d| && GivesOne(add, b, Owner(i, Data(n)))
    requires TreeOk(d, p, i, own', m) && Extends(s.disk, s.inodes[i].ptrs, d, p, n) && (m <= NFLAT ==> p.indirect2 == 0)
    requires n != NDIRECT && (n < NFLAT || (n - NFLAT) % NINDIRECT != 0)
    ensures Hooked(s, own, t, own', i, n, m, b, b + 1)
  {
    hide FileOk, TreeOk, Total, SameBut, Built;
    CostOfBlock(n);
    assert add.Keys - {b as nat} == {};
    MakeHooked(s, own, d, p, own', i, n, m, b, b + 1, add, t);
  }

  /** One pointer block came with it. */
  lemma MakeHookedTwo(s: FS, own: Owners, d: seq<Cell>, p: Pointers, own': Owners, i: nat, n: nat, m: nat, b: u32, c: u32, o: Owner, add: Owners, t: FS)
    requires Built(s, own, b, i, n) && m == n + 1 && own' == own + add && t == s.(disk := d, inodes := s.inodes[i := s.inodes[i].(ptrs := p)])
    requires SameBut(s.disk, d, {c as nat}, own, i) && Shape(d) && |d| == |s.disk| && c == b + 1 < |d| && o.ino == i
    requires GivesTwo(add, b, Owner(i, Data(n)), c, o)
    requires TreeOk(d, p, i, own', m) && Extends(s.disk, s.inodes[i].ptrs, d, p, n) && (m <= NFLAT ==> p.indirect2 == 0)
    requires n == NDIRECT || (n > NFLAT && (n - NFLAT) % NINDIRECT == 0)
    ensures Hooked(s, own, t, own', i, n, m, b, b + 2)
  {
    hide FileOk, TreeOk, Total, SameBut, Built;
    CostOfBlock(n);
    assert add.Keys - {b as nat} == {c as nat};
    MakeHooked(s, own, d, p, own', i, n, m, b, b + 2, add, t);
  }

  lemma HookDirect(s: FS, own: Owners, t: FS, own': Owners, i: nat, n: nat, m: nat, b: u32)
    requires Built(s, own, b, i, n) && n < NDIRECT && m == n + 1 && b < |s.disk|
    requires own' == own + map[b as nat := Owner(i, Data(n))]
    requires t == s.(inodes := s.inodes[i := s.inodes[i].(ptrs := s.inodes[i].ptrs.(direct := s.inodes[i].ptrs.direct[n := b]))])
    ensures Hooked(s, own, t, own', i, n, m, b, b + 1)
  {
    hide FileOk, TreeOk, Total;
    CostOfBlock(n);
    BuiltTree(s, own, b, i, n);
    var add: Owners := map[b as nat := Owner(i, Data(n))];
    var p := s.inodes[i].ptrs.(direct := s.inodes[i].ptrs.direct[n := b]);
    GrowDirect(s.disk, s.inodes[i].ptrs, own, n, s.disk, p, own', m, i, b, add);
    MakeHooked(s, own, s.disk, p, own', i, n, m, b, b + 1, add, t);
  }

  lemma HookFirstIndirect(s: FS, own: Owners, t: FS, own': Owners, i: nat, n: nat, m: nat, b: u32, q: u32)
    requires Built(s, own, b, i, n) && n == NDIRECT && m == n + 1 && q == b + 1 < |s.disk|
    requires own' == own + map[b as nat := Owner(i, Data(n)), q as nat := Owner(i, Ind)]
    requires |t.disk| == |s.disk| && t.disk == s.disk[q as nat := t.disk[q]] && t.disk[q].words == Zeros()[0 := b]
    requires t == s.(disk := t.disk, inodes := s.inodes[i := s.inodes[i].(ptrs := s.inodes[i].ptrs.(indirect := q))])
    ensures Hooked(s, own, t, own', i, n, m, b, b + 2)
  {
    hide FileOk, TreeOk, Total, SameBut, Built;
    CostOfBlock(n);
    BuiltTree(s, own, b, i, n);
    var add: Owners := map[b as nat := Owner(i, Data(n)), q as nat := Owner(i, Ind)];
    var p := s.inodes[i].ptrs.(indirect := q);
    assert add.Keys == {b as nat, q as nat};
    SameButTwo(s.disk, t.disk, q, q, {q as nat}, own, i);
    GrowFirstIndirect(s.disk, s.inodes[i].ptrs, own, n, t.disk, p, own', m, i, b, q, add);
    MakeHookedTwo(s, own, t.disk, p, own', i, n, m, b, q, Owner(i, Ind), add, t);
  }

  lemma HookIndirect(s: FS, own: Owners, t: FS, own': Owners, i: nat, n: nat, m: nat, b: u32, q: u32)
    requires Built(s, own, b, i, n) && NDIRECT < n < NFLAT && m == n + 1 && b < |s.disk| && q == s.inodes[i].ptrs.indirect < |s.disk|
    requires own' == own + map[b as nat := Owner(i, Data(n))]
    requires |t.disk| == |s.disk| && t.disk == s.disk[q as nat := t.disk[q]] && t.disk[q].words == s.disk[q].words[n - NDIRECT := b]
    requires t == s.(disk := t.disk) && Shape(t.disk)
    ensures Hooked(s, own, t, own', i, n, m, b, b + 1)
  {
    hide FileOk, TreeOk, Total, SameBut, Built;
    BuiltTree(s, own, b, i, n);
    IndirectIsOwned(s.disk, s.inodes[i].ptrs, i, own, n);
    CostOfBlock(n);
    var add: Owners := map[b as nat := Owner(i, Data(n))];
    SameButTwo(s.disk, t.disk, q, q, {}, own, i);
    GrowIndirect(s.disk, s.inodes[i].ptrs, own, n, t.disk, own', m, i, b, add);
    assert t == s.(disk := t.disk, inodes := s.inodes[i := s.inodes[i].(ptrs := s.inodes[i].ptrs)]);
    MakeHookedOne(s, own, t.disk, s.inodes[i].ptrs, own', i, n, m, b, add, t);
  }

  lemma HookFirstIndirect2(s: FS, own: Owners, t: FS, own': Owners, i: nat, n: nat, m: nat, b: u32, e: u32, c: u32)
    requires Built(s, own, b, i, n) && n == NFLAT && m == n + 1 && e == b + 1 && c == b + 2 < |s.disk|
    requires own' == own + map[b as nat := Owner(i, Data(n)), c as nat := Owner(i, Sub(0)), e as nat := Owner(i, Ind2)]
    requires |t.disk| == |s.disk| && t.disk == s.disk[e as nat := t.disk[e]][c as nat := t.disk[c]]
    requires t.disk[e].words == Zeros()[0 := c] && t.disk[c].words == Zeros()[0 := b]
    requires t == s.(disk := t.disk, inodes := s.inodes[i := s.inodes[i].(ptrs := s.inodes[i].ptrs.(indirect2 := e))])
    ensures Hooked(s, own, t, own', i, n, m, b, b + 3)
  {
    hide FileOk, TreeOk, Total, SameBut, Built;
    CostOfBlock(n);
    BuiltTree(s, own, b, i, n);
    var add: Owners := map[b as nat := Owner(i, Data(n)), c as nat := Owner(i, Sub(0)), e as nat := Owner(i, Ind2)];
    var p := s.inodes[i].ptrs.(indirect2 := e);
    assert add.Keys == {b as nat, c as nat, e as nat};
    SameButTwo(s.disk, t.disk, e, c, add.Keys - {b as nat}, own, i);
    GrowFirstIndirect2(s.disk, s.inodes[i].ptrs, own, n, t.disk, p, own', m, i, b, c, e, add);
    MakeHooked(s, own, t.disk, p, own', i, n, m, b, b + 3, add, t);
  }

  lemma HookSub(s: FS, own: Owners, t: FS, own': Owners, i: nat, n: nat, m: nat, b: u32, q: u32)
    requires Built(s, own, b, i, n) && n > NFLAT && (n - NFLAT) % NINDIRECT != 0 && m == n + 1 && b < |s.disk|
    requires q == W(s.disk, s.inodes[i].ptrs.indirect2, (n - NFLAT) / NINDIRECT) && q < |s.disk|
    requires own' == own + map[b as nat := Owner(i, Data(n))]
    requires |t.disk| == |s.disk| && t.disk == s.disk[q as nat := t.disk[q]] && t.disk[q].words == s.disk[q].words[(n - NFLAT) % NINDIRECT := b]
    requires t == s.(disk := t.disk) && Shape(t.disk)
    ensures Hooked(s, own, t, own', i, n, m, b, b + 1)
  {
    hide FileOk, TreeOk, Total, SameBut, Built;
    BuiltTree(s, own, b, i, n);
    PointersDistinct(s.disk, s.inodes[i].ptrs, i, own, n);
    CostOfBlock(n);
    assert Subs(m) == Subs(n) && (n - NFLAT) / NINDIRECT < Subs(n);
    var add: Owners := map[b as nat := Owner(i, Data(n))];
    SameButTwo(s.disk, t.disk, q, q, {}, own, i);
    GrowSub(s.disk, s.inodes[i].ptrs, own, n, t.disk, own', m, i, b, q, add);
    assert t == s.(disk := t.disk, inodes := s.inodes[i := s.inodes[i].(ptrs := s.inodes[i].ptrs)]);
    MakeHookedOne(s, own, t.disk, s.inodes[i].ptrs, own', i, n, m, b, add, t);
  }

  lemma HookNewSub(s: FS, own: Owners, t: FS, own': Owners, i: nat, n: nat, m: nat, b: u32, c: u32, q: u32)
    requires Built(s, own, b, i, n) && n > NFLAT && (n - NFLAT) % NINDIRECT == 0 && (n - NFLAT) / NINDIRECT < NINDIRECT && m == n + 1
    requires c == b + 1 < |s.disk| && q == s.inodes[i].ptrs.indirect2 < |s.disk| && q != c
    requires own' == own + map[b as nat := Owner(i, Data(n)), c as nat := Owner(i, Sub((n - NFLAT) / NINDIRECT))]
    requires |t.disk| == |s.disk| && t.disk == s.disk[c as nat := t.disk[c]][q as nat := t.disk[q]]
    requires t.disk[c].words == Zeros()[0 := b] && t.disk[q].words == s.disk[q].words[(n - NFLAT) / NINDIRECT := c]
    requires t == s.(disk := t.disk) && Shape(t.disk)
    ensures Hooked(s, own, t, own', i, n, m, b, b + 2)
  {
    hide FileOk, TreeOk, Total, SameBut, Built;
    BuiltTree(s, own, b, i, n);
    PointersDistinct(s.disk, s.inodes[i].ptrs, i, own, n);
    CostOfBlock(n);
    assert Subs(m) == Subs(n) + 1;
    var add: Owners := map[b as nat := Owner(i, Data(n)), c as nat := Owner(i, Sub((n - NFLAT) / NINDIRECT))];
    assert add.Keys == {b as nat, c as nat};
    SameButTwo(s.disk, t.disk, c, q, {c as nat}, own, i);
    GrowNewSub(s.disk, s.inodes[i].ptrs, own, n, t.disk, own', m, i, b, c, add);
    assert t == s.(disk := t.disk, inodes := s.inodes[i := s.inodes[i].(ptrs := s.inodes[i].ptrs)]);
    MakeHookedTwo(s, own, t.disk, s.inodes[i].ptrs, own', i, n, m, b, c, Owner(i, Sub((n - NFLAT) / NINDIRECT)), add, t);
  }
}
