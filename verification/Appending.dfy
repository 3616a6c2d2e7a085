/** What each branch of add_block leaves behind. */
module Appending {
  import opened Words
  import opened BlockTree
  import opened FileSystem
  import opened Ownership
  import opened Resizing

  /** Positions of the pointers in struct ospfs_inode, in words. */
  const F_SIZE: nat := 0
  const F_DIRECT: nat := 4
  const F_INDIRECT: nat := 14
  const F_INDIRECT2: nat := 15

  /** File i is well formed and has n blocks, and the free set is right. */
  ghost predicate Ready(s: FS, own: Owners, i: nat, n: nat) {
    && ShapeOk(s) && FreeOk(s.geo, s.free, own) && i < |s.inodes|
    && TreeOk(s.disk, s.inodes[i].ptrs, i, own, n)
  }

  /** The image is s after block b, and the pointer blocks in 'add', went to file i; the size is still to be set. */
  ghost predicate Appended(s: FS, own: Owners, t: FS, own': Owners, i: nat, n: nat, m: nat, b: nat, add: Owners) {
    && i < |s.inodes| == |t.inodes|
    && t == s.(disk := t.disk, free := s.free - add.Keys, inodes := s.inodes[i := s.inodes[i].(ptrs := t.inodes[i].ptrs)])
    && (m <= NFLAT ==> t.inodes[i].ptrs.indirect2 == s.inodes[i].ptrs.indirect2)
    && Taken(s, own, t.disk, own', i, n, m, b, add) && Hung(s, t.disk, t.inodes[i].ptrs, own', i, n, m)
  }

  /** The image is s except for the content of free blocks. */
  ghost predicate Untouched(s: FS, t: FS) {
    t == s.(disk := t.disk) && SameExcept(s.disk, t.disk, s.free) && Shape(t.disk)
  }

  /** The image is s except for the content of free blocks and a pointer of inode i to one of them. */
  ghost predicate LeftStale(s: FS, t: FS, i: nat) {
    && i < |s.inodes| == |t.inodes| && t.inodes[i].ptrs.indirect2 in s.free
    && t == s.(disk := t.disk, inodes := s.inodes[i := SetField(s.inodes[i], F_INDIRECT2, t.inodes[i].ptrs.indirect2)])
    && SameExcept(s.disk, t.disk, s.free) && Shape(t.disk)
  }

  lemma FreeIsUsable(s: FS, own: Owners, b: nat)
    requires ShapeOk(s) && FreeOk(s.geo, s.free, own) && b in s.free
    ensures s.geo.DataStart() <= b < |s.disk| && b < ALLOC_BITS && b !in own && b > 0
  {
  }

  lemma OwnedIsUsable(s: FS, own: Owners, b: nat)
    requires ShapeOk(s) && FreeOk(s.geo, s.free, own) && b in own
    ensures s.geo.DataStart() <= b < |s.disk| && b < ALLOC_BITS && b !in s.free && b > 0
    ensures |s.disk[b].words| == WORDS_PER_BLOCK
  {
  }

  lemma ZeroIsNotOwned(s: FS, own: Owners)
    requires ShapeOk(s) && FreeOk(s.geo, s.free, own)
    ensures 0 !in own && 0 !in s.free
  {
  }

  lemma MakeTaken(s: FS, own: Owners, d: seq<Cell>, own': Owners, i: nat, n: nat, m: nat, b: nat, add: Owners)
    requires m == n + 1 && own' == own + add && add.Keys <= s.free && |add| == Total(m) - Total(n)
    requires SameBut(s.disk, d, add.Keys, own, i)
    requires Shape(d) && forall c :: c in add ==> add[c].ino == i
    requires b in add && add[b] == Owner(i, Data(n)) && BytesAt(d, b) == ZeroBlock()
    ensures Taken(s, own, d, own', i, n, m, b, add)
  {
  }

  /** The parts of a successful append put together: the new inode differs in its pointers only. */
  lemma MakeAppended(s: FS, own: Owners, t: FS, own': Owners, i: nat, n: nat, m: nat, b: nat, add: Owners, x: Inode)
    requires i < |s.inodes| && t.geo == s.geo && t.inodes == s.inodes[i := x] && x == s.inodes[i].(ptrs := x.ptrs)
    requires t.free == s.free - add.Keys && (m <= NFLAT ==> x.ptrs.indirect2 == s.inodes[i].ptrs.indirect2)
    requires Taken(s, own, t.disk, own', i, n, m, b, add) && Hung(s, t.disk, x.ptrs, own', i, n, m)
    ensures Appended(s, own, t, own', i, n, m, b, add)
  {
  }

  lemma AppendDirect(s: FS, own: Owners, t: FS, own': Owners, i: nat, n: nat, m: nat, b: u32, add: Owners, x: Inode)
    requires Ready(s, own, i, n) && n < NDIRECT && m == n + 1 && b in s.free
    requires t.geo == s.geo && t.free == s.free - add.Keys && t.inodes == s.inodes[i := x]
    requires x == SetField(s.inodes[i], F_DIRECT + n, b)
    requires SameExcept(s.disk, t.disk, {b as nat}) && Shape(t.disk) && BytesAt(t.disk, b) == ZeroBlock()
    requires GivesOne(add, b, Owner(i, Data(n))) && own' == own + add
    ensures Appended(s, own, t, own', i, n, m, b, add)
  {
    FreeIsUsable(s, own, b);
    CountOne(add, b);
    GrowDirect(s.disk, s.inodes[i].ptrs, own, n, t.disk, x.ptrs, own', m, i, b, add);
    MakeTaken(s, own, t.disk, own', i, n, m, b, add);
    MakeAppended(s, own, t, own', i, n, m, b, add, x);
  }

  lemma TakenFirstIndirect(s: FS, own: Owners, d: seq<Cell>, own': Owners, i: nat, n: nat, m: nat, b: u32, add: Owners, q: u32)
    requires n == NDIRECT && m == n + 1 && b in s.free && q in s.free
    requires SameExcept(s.disk, d, {b as nat, q as nat}) && Shape(d) && BytesAt(d, b) == ZeroBlock()
    requires GivesTwo(add, b, Owner(i, Data(n)), q, Owner(i, Ind)) && own' == own + add
    ensures Taken(s, own, d, own', i, n, m, b, add)
  {
    CountTwo(add, b, q);
  }

  lemma HungFirstIndirect(s: FS, own: Owners, d: seq<Cell>, p: Pointers, own': Owners, i: nat, n: nat, m: nat, b: u32, add: Owners, q: u32)
    requires Ready(s, own, i, n) && n == NDIRECT && m == n + 1 && b in s.free && q in s.free
    requires SameExcept(s.disk, d, {b as nat, q as nat}) && W(d, q, 0) == b && p == s.inodes[i].ptrs.(indirect := q)
    requires GivesTwo(add, b, Owner(i, Data(n)), q, Owner(i, Ind)) && own' == own + add
    ensures Hung(s, d, p, own', i, n, m)
  {
    FreeIsUsable(s, own, b);
    FreeIsUsable(s, own, q);
    GrowFirstIndirect(s.disk, s.inodes[i].ptrs, own, n, d, p, own', m, i, b, q, add);
  }

  lemma AppendIndirect(s: FS, own: Owners, t: FS, own': Owners, i: nat, n: nat, m: nat, b: u32, add: Owners, q: u32)
    requires Ready(s, own, i, n) && NDIRECT < n < NFLAT && m == n + 1 && b in s.free
    requires q == s.inodes[i].ptrs.indirect && q < |s.disk| && |s.disk[q].words| == WORDS_PER_BLOCK
    requires t.geo == s.geo && t.free == s.free - add.Keys && t.inodes == s.inodes
    requires SameExcept(s.disk, t.disk, {b as nat, q as nat}) && Shape(t.disk)
    requires BytesAt(t.disk, b) == ZeroBlock() && t.disk[q].words == s.disk[q].words[n - NDIRECT := b]
    requires GivesOne(add, b, Owner(i, Data(n))) && own' == own + add
    ensures Appended(s, own, t, own', i, n, m, b, add)
  {
    FreeIsUsable(s, own, b);
    assert Needs(n, Ind) && At(s.disk, s.inodes[i].ptrs, Ind) == q;
    CountOne(add, b);
    GrowIndirect(s.disk, s.inodes[i].ptrs, own, n, t.disk, own', m, i, b, add);
    MakeTaken(s, own, t.disk, own', i, n, m, b, add);
    MakeAppended(s, own, t, own', i, n, m, b, add, s.inodes[i]);
  }

  lemma TakenFirstIndirect2(s: FS, own: Owners, d: seq<Cell>, own': Owners, i: nat, n: nat, m: nat, b: u32, add: Owners, c: u32, e: u32)
    requires n == NFLAT && m == n + 1 && b in s.free && c in s.free && e in s.free
    requires SameExcept(s.disk, d, {b as nat, c as nat, e as nat}) && Shape(d) && BytesAt(d, b) == ZeroBlock()
    requires GivesThree(add, b, Owner(i, Data(n)), c, Owner(i, Sub(0)), e, Owner(i, Ind2)) && own' == own + add
    ensures Taken(s, own, d, own', i, n, m, b, add)
  {
    CountThree(add, b, c, e);
  }

  lemma HungFirstIndirect2(s: FS, own: Owners, d: seq<Cell>, p: Pointers, own': Owners, i: nat, n: nat, m: nat, b: u32,
                           add: Owners, c: u32, e: u32)
    requires Ready(s, own, i, n) && n == NFLAT && m == n + 1 && b in s.free && c in s.free && e in s.free
    requires SameExcept(s.disk, d, {b as nat, c as nat, e as nat}) && p == s.inodes[i].ptrs.(indirect2 := e)
    requires e < |d| && d[e].words == Zeros()[0 := c] && c < |d| && d[c].words == Zeros()[0 := b]
    requires GivesThree(add, b, Owner(i, Data(n)), c, Owner(i, Sub(0)), e, Owner(i, Ind2)) && own' == own + add
    ensures Hung(s, d, p, own', i, n, m)
  {
    FreeIsUsable(s, own, b);
    FreeIsUsable(s, own, c);
    FreeIsUsable(s, own, e);
    GrowFirstIndirect2(s.disk, s.inodes[i].ptrs, own, n, d, p, own', m, i, b, c, e, add);
  }

  lemma AppendSub(s: FS, own: Owners, t: FS, own': Owners, i: nat, n: nat, m: nat, b: u32, add: Owners, q: u32)
    requires Ready(s, own, i, n) && n > NFLAT && (n - NFLAT) % NINDIRECT != 0 && m == n + 1 && b in s.free
    requires q == W(s.disk, s.inodes[i].ptrs.indirect2, (n - NFLAT) / NINDIRECT) && q < |s.disk| && |s.disk[q].words| == WORDS_PER_BLOCK
    requires t.geo == s.geo && t.free == s.free - add.Keys && t.inodes == s.inodes
    requires SameExcept(s.disk, t.disk, {b as nat, q as nat}) && Shape(t.disk)
    requires BytesAt(t.disk, b) == ZeroBlock() && t.disk[q].words == s.disk[q].words[(n - NFLAT) % NINDIRECT := b]
    requires GivesOne(add, b, Owner(i, Data(n))) && own' == own + add
    ensures Appended(s, own, t, own', i, n, m, b, add)
  {
    FreeIsUsable(s, own, b);
    PointersDistinct(s.disk, s.inodes[i].ptrs, i, own, n);
    CountOne(add, b);
    assert Subs(m) == Subs(n) && (n - NFLAT) / NINDIRECT < Subs(n);
    GrowSub(s.disk, s.inodes[i].ptrs, own, n, t.disk, own', m, i, b, q, add);
    MakeTaken(s, own, t.disk, own', i, n, m, b, add);
    MakeAppended(s, own, t, own', i, n, m, b, add, s.inodes[i]);
  }

  lemma AppendNewSub(s: FS, own: Owners, t: FS, own': Owners, i: nat, n: nat, m: nat, b: u32, add: Owners, c: u32, q: u32)
    requires Ready(s, own, i, n) && n > NFLAT && (n - NFLAT) % NINDIRECT == 0 && (n - NFLAT) / NINDIRECT < NINDIRECT
    requires m == n + 1 && b in s.free && c in s.free
    requires q == s.inodes[i].ptrs.indirect2 && q < |s.disk| && |s.disk[q].words| == WORDS_PER_BLOCK
    requires t.geo == s.geo && t.free == s.free - add.Keys && t.inodes == s.inodes
    requires SameExcept(s.disk, t.disk, {b as nat, c as nat, q as nat}) && Shape(t.disk) && BytesAt(t.disk, b) == ZeroBlock()
    requires c < |t.disk| && t.disk[c].words == Zeros()[0 := b]
    requires t.disk[q].words == s.disk[q].words[(n - NFLAT) / NINDIRECT := c]
    requires GivesTwo(add, b, Owner(i, Data(n)), c, Owner(i, Sub((n - NFLAT) / NINDIRECT))) && own' == own + add
    ensures Appended(s, own, t, own', i, n, m, b, add)
  {
    FreeIsUsable(s, own, b);
    FreeIsUsable(s, own, c);
    PointersDistinct(s.disk, s.inodes[i].ptrs, i, own, n);
    assert Taken(s, own, t.disk, own', i, n, m, b, add) by {
      assert Subs(m) == Subs(n) + 1;
      CountTwo(add, b, c);
      MakeTaken(s, own, t.disk, own', i, n, m, b, add);
    }
    GrowNewSub(s.disk, s.inodes[i].ptrs, own, n, t.disk, own', m, i, b, c, add);
    MakeAppended(s, own, t, own', i, n, m, b, add, s.inodes[i]);
  }
}
