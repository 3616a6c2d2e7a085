/** What each branch of remove_block leaves behind. */
module Removing {
  import opened Words
  import opened BlockTree
  import opened FileSystem
  import opened Resizing
  import opened Appending

  /** Block m, the last one, and the pointer blocks that served only it are back in the free set. */
  ghost predicate Detached(s: FS, own: Owners, t: FS, own': Owners, i: nat, n: nat, m: nat) {
    && i < |s.inodes| == |t.inodes|
    && t == s.(disk := t.disk, free := s.free + (own.Keys - own'.Keys),
               inodes := s.inodes[i := s.inodes[i].(ptrs := t.inodes[i].ptrs)])
    && (m <= NFLAT ==> t.inodes[i].ptrs.indirect2 == if n <= NFLAT then s.inodes[i].ptrs.indirect2 else 0)
    && Unlinked(s, own, t.disk, t.inodes[i].ptrs, own', i, n, m)
  }

  /** The slots an n-block file has and an (n-1)-block file has not. */
  lemma LastSlots(n: nat, m: nat, slot: Slot)
    requires n == m + 1 && Needs(n, slot) && !Needs(m, slot)
    ensures slot == Data(m) || (m == NDIRECT && slot == Ind) || (m == NFLAT && slot == Ind2)
            || (m >= NFLAT && (m - NFLAT) % NINDIRECT == 0 && slot == Sub((m - NFLAT) / NINDIRECT))
  {
    match slot case Data(k) => case Ind => case Ind2 => case Sub(t) =>
  }

  /** Exactly the blocks in those slots are released. */
  lemma Dropped(d: seq<Cell>, p: Pointers, own: Owners, n: nat, own': Owners, m: nat, i: nat, b: nat)
    requires TreeOk(d, p, i, own, n) && n == m + 1 && own' == Release(own, i, m)
    ensures b in own.Keys - own'.Keys <==>
            || b == At(d, p, Data(m))
            || (m == NDIRECT && b == p.indirect)
            || (m == NFLAT && b == p.indirect2)
            || (m >= NFLAT && (m - NFLAT) % NINDIRECT == 0 && b == W(d, p.indirect2, (m - NFLAT) / NINDIRECT))
  {
    var t := if m >= NFLAT then (m - NFLAT) / NINDIRECT else 0;
    assert Needs(n, Data(m)) && At(d, p, Data(m)) in own;
    assert m == NDIRECT ==> Needs(n, Ind) && At(d, p, Ind) == p.indirect;
    assert m == NFLAT ==> Needs(n, Ind2) && At(d, p, Ind2) == p.indirect2;
    assert m >= NFLAT && (m - NFLAT) % NINDIRECT == 0 ==> Needs(n, Sub(t)) && At(d, p, Sub(t)) == W(d, p.indirect2, t);
    if b in own.Keys - own'.Keys {
      LastSlots(n, m, own[b].slot);
    }
  }

  lemma DroppedOne(d: seq<Cell>, p: Pointers, own: Owners, n: nat, own': Owners, m: nat, i: nat)
    requires TreeOk(d, p, i, own, n) && n == m + 1 && own' == Release(own, i, m)
    requires m != NDIRECT && (m < NFLAT || (m - NFLAT) % NINDIRECT != 0)
    ensures own.Keys - own'.Keys == {At(d, p, Data(m)) as nat}
  {
    forall b: nat
      ensures b in own.Keys - own'.Keys <==> b == At(d, p, Data(m))
    {
      Dropped(d, p, own, n, own', m, i, b);
    }
  }

  lemma DroppedTwo(d: seq<Cell>, p: Pointers, own: Owners, n: nat, own': Owners, m: nat, i: nat, q: nat)
    requires TreeOk(d, p, i, own, n) && n == m + 1 && own' == Release(own, i, m)
    requires (m == NDIRECT && q == p.indirect) ||
             (m > NFLAT && (m - NFLAT) % NINDIRECT == 0 && q == W(d, p.indirect2, (m - NFLAT) / NINDIRECT))
    ensures own.Keys - own'.Keys == {At(d, p, Data(m)) as nat, q}
  {
    forall b: nat
      ensures b in own.Keys - own'.Keys <==> b == At(d, p, Data(m)) || b == q
    {
      Dropped(d, p, own, n, own', m, i, b);
    }
  }

  lemma DroppedThree(d: seq<Cell>, p: Pointers, own: Owners, n: nat, own': Owners, m: nat, i: nat)
    requires TreeOk(d, p, i, own, n) && n == m + 1 && own' == Release(own, i, m) && m == NFLAT
    ensures own.Keys - own'.Keys == {At(d, p, Data(m)) as nat, W(d, p.indirect2, 0) as nat, p.indirect2 as nat}
  {
    forall b: nat
      ensures b in own.Keys - own'.Keys <==> b == At(d, p, Data(m)) || b == W(d, p.indirect2, 0) || b == p.indirect2
    {
      Dropped(d, p, own, n, own', m, i, b);
    }
  }

  lemma DetachDirect(s: FS, own: Owners, t: FS, own': Owners, i: nat, n: nat, m: nat, b: u32, x: Inode)
    requires Ready(s, own, i, n) && 0 < n <= NDIRECT && n == m + 1 && own' == Release(own, i, m)
    requires b == s.inodes[i].ptrs.direct[m]
    requires x == SetField(s.inodes[i], F_DIRECT + m, 0)
    requires t == s.(free := s.free + {b as nat}, inodes := s.inodes[i := x])
    ensures Detached(s, own, t, own', i, n, m)
  {
    DroppedOne(s.disk, s.inodes[i].ptrs, own, n, own', m, i);
    ShrinkDirect(s.disk, s.inodes[i].ptrs, x.ptrs, own, n, own', m, i);
  }

  lemma DetachLastIndirect(s: FS, own: Owners, t: FS, own': Owners, i: nat, n: nat, m: nat, b: u32, q: u32, x: Inode)
    requires Ready(s, own, i, n) && n == NDIRECT + 1 && n == m + 1 && own' == Release(own, i, m)
    requires b == W(s.disk, s.inodes[i].ptrs.indirect, 0) && q == s.inodes[i].ptrs.indirect
    requires x == s.inodes[i].(ptrs := s.inodes[i].ptrs.(indirect := 0))
    requires t == s.(disk := t.disk, free := s.free + {b as nat, q as nat}, inodes := s.inodes[i := x])
    requires SameExcept(s.disk, t.disk, {q as nat}) && Shape(t.disk)
    ensures Detached(s, own, t, own', i, n, m)
  {
    assert Needs(n, Ind) && At(s.disk, s.inodes[i].ptrs, Ind) == q;
    DroppedTwo(s.disk, s.inodes[i].ptrs, own, n, own', m, i, q);
    ShrinkLastIndirect(s.disk, t.disk, s.inodes[i].ptrs, x.ptrs, own, n, own', m, i);
  }

  lemma DetachIndirect(s: FS, own: Owners, t: FS, own': Owners, i: nat, n: nat, m: nat, b: u32, q: u32)
    requires Ready(s, own, i, n) && NDIRECT + 1 < n <= NFLAT && n == m + 1 && own' == Release(own, i, m)
    requires q == s.inodes[i].ptrs.indirect && b == W(s.disk, q, m - NDIRECT)
    requires q < |s.disk| && |s.disk[q].words| == WORDS_PER_BLOCK
    requires t == s.(disk := t.disk, free := s.free + {b as nat})
    requires SameExcept(s.disk, t.disk, {q as nat}) && Shape(t.disk) && t.disk[q].words == s.disk[q].words[m - NDIRECT := 0]
    ensures Detached(s, own, t, own', i, n, m)
  {
    assert Needs(n, Ind) && At(s.disk, s.inodes[i].ptrs, Ind) == q;
    DroppedOne(s.disk, s.inodes[i].ptrs, own, n, own', m, i);
    ShrinkIndirect(s.disk, t.disk, s.inodes[i].ptrs, own, n, own', m, i);
  }

  lemma DetachSub(s: FS, own: Owners, t: FS, own': Owners, i: nat, n: nat, m: nat, b: u32, q: u32)
    requires Ready(s, own, i, n) && n > NFLAT && n == m + 1 && own' == Release(own, i, m) && (m - NFLAT) % NINDIRECT != 0
    requires q == W(s.disk, s.inodes[i].ptrs.indirect2, (m - NFLAT) / NINDIRECT) && b == W(s.disk, q, (m - NFLAT) % NINDIRECT)
    requires q < |s.disk| && |s.disk[q].words| == WORDS_PER_BLOCK
    requires t == s.(disk := t.disk, free := s.free + {b as nat})
    requires SameExcept(s.disk, t.disk, {q as nat}) && Shape(t.disk)
    requires t.disk[q].words == s.disk[q].words[(m - NFLAT) % NINDIRECT := 0]
    ensures Detached(s, own, t, own', i, n, m)
  {
    PointersDistinct(s.disk, s.inodes[i].ptrs, i, own, n);
    assert (m - NFLAT) / NINDIRECT < Subs(n);
    DroppedOne(s.disk, s.inodes[i].ptrs, own, n, own', m, i);
    ShrinkSub(s.disk, t.disk, s.inodes[i].ptrs, own, n, own', m, i, q);
  }

  lemma DetachLastSub(s: FS, own: Owners, t: FS, own': Owners, i: nat, n: nat, m: nat, b: u32, q: u32, e: u32)
    requires Ready(s, own, i, n) && n > NFLAT + 1 && n == m + 1 && own' == Release(own, i, m) && (m - NFLAT) % NINDIRECT == 0
    requires (m - NFLAT) / NINDIRECT < NINDIRECT && e == s.inodes[i].ptrs.indirect2
    requires q == W(s.disk, e, (m - NFLAT) / NINDIRECT) && b == W(s.disk, q, 0)
    requires e < |s.disk| && |s.disk[e].words| == WORDS_PER_BLOCK
    requires t == s.(disk := t.disk, free := s.free + {b as nat, q as nat})
    requires SameExcept(s.disk, t.disk, {q as nat, e as nat}) && Shape(t.disk)
    requires t.disk[e].words == s.disk[e].words[(m - NFLAT) / NINDIRECT := 0]
    ensures Detached(s, own, t, own', i, n, m)
  {
    PointersDistinct(s.disk, s.inodes[i].ptrs, i, own, n);
    assert (m - NFLAT) / NINDIRECT < Subs(n);
    DroppedTwo(s.disk, s.inodes[i].ptrs, own, n, own', m, i, q);
    ShrinkLastSub(s.disk, t.disk, s.inodes[i].ptrs, s.inodes[i].ptrs, own, n, own', m, i, q);
  }

  lemma DetachIndirect2(s: FS, own: Owners, t: FS, own': Owners, i: nat, n: nat, m: nat, b: u32, q: u32, e: u32, x: Inode)
    requires Ready(s, own, i, n) && n == NFLAT + 1 && n == m + 1 && own' == Release(own, i, m)
    requires e == s.inodes[i].ptrs.indirect2 && q == W(s.disk, e, 0) && b == W(s.disk, q, 0)
    requires e < |s.disk| && |s.disk[e].words| == WORDS_PER_BLOCK
    requires x == s.inodes[i].(ptrs := s.inodes[i].ptrs.(indirect2 := 0))
    requires t == s.(disk := t.disk, free := s.free + {b as nat, q as nat, e as nat}, inodes := s.inodes[i := x])
    requires SameExcept(s.disk, t.disk, {q as nat, e as nat}) && Shape(t.disk)
    requires t.disk[e].words == s.disk[e].words[0 := 0]
    ensures Detached(s, own, t, own', i, n, m)
  {
    PointersDistinct(s.disk, s.inodes[i].ptrs, i, own, n);
    DroppedThree(s.disk, s.inodes[i].ptrs, own, n, own', m, i);
    ShrinkLastSub(s.disk, t.disk, s.inodes[i].ptrs, x.ptrs, own, n, own', m, i, q);
  }
}
