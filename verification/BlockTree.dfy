/** The on-disk block tree of a file: ten direct pointers, one indirect block, one doubly indirect block. */
module BlockTree {
  import opened Words

  const NDIRECT: nat := 10
  const NINDIRECT: nat := 256
  const NFLAT: nat := NDIRECT + NINDIRECT
  const MAXFILEBLKS: nat := NDIRECT + NINDIRECT + NINDIRECT * NINDIRECT

  /** The block pointers of an inode. */
  datatype PointersRaw = Pointers(direct: seq<u32>, indirect: u32, indirect2: u32)
  type Pointers = p: PointersRaw | |p.direct| == NDIRECT witness Pointers([0, 0, 0, 0, 0, 0, 0, 0, 0, 0], 0, 0)

  const NO_POINTERS: Pointers := Pointers([0, 0, 0, 0, 0, 0, 0, 0, 0, 0], 0, 0)

  /** A block of the data area, both as the words and as the bytes it holds. */
  datatype Cell = Cell(words: seq<u32>, bytes: Block)

  function W(d: seq<Cell>, b: int, j: int): u32 {
    if 0 <= b < |d| && 0 <= j < |d[b].words| then d[b].words[j] else 0
  }

  /** What a block can be used for within one file. */
  datatype Slot = Data(k: nat) | Ind | Ind2 | Sub(t: nat)

  /** A file of n data blocks uses exactly these slots. */
  predicate Needs(n: nat, slot: Slot) {
    match slot
    case Data(k) => k < n
    case Ind => n > NDIRECT
    case Ind2 => n > NFLAT
    case Sub(t) => NFLAT + NINDIRECT * t < n
  }

  /** Number of indirect blocks hanging off the doubly indirect block. */
  function Subs(n: nat): nat {
    if n <= NFLAT then 0 else (n - NFLAT + NINDIRECT - 1) / NINDIRECT
  }

  /** All blocks a file of n data blocks occupies, pointer blocks included. */
  function Total(n: nat): nat {
    n + (if n > NDIRECT then 1 else 0) + (if n > NFLAT then 1 + Subs(n) else 0)
  }

  /** The block number recorded for a slot, found by division and modulo. */
  function At(d: seq<Cell>, p: Pointers, slot: Slot): u32 {
    match slot
    case Data(k) =>
      if k < NDIRECT then p.direct[k]
      else if k < NFLAT then W(d, p.indirect, k - NDIRECT)
      else W(d, W(d, p.indirect2, (k - NFLAT) / NINDIRECT), (k - NFLAT) % NINDIRECT)
    case Ind => p.indirect
    case Ind2 => p.indirect2
    case Sub(t) => W(d, p.indirect2, t)
  }

  /** Ten blocks are listed in the inode, the next 256 in the indirect block, and 256 more in each block of the third level. */
  lemma TreeLayout(d: seq<Cell>, p: Pointers, k: nat)
    ensures k < 10 ==> At(d, p, Data(k)) == p.direct[k]
    ensures 10 <= k < 266 ==> At(d, p, Data(k)) == W(d, p.indirect, k - 10)
    ensures forall t: nat, j: nat :: k == 266 + 256 * t + j && j < 256 ==> At(d, p, Data(k)) == W(d, W(d, p.indirect2, t), j)
  {
  }

  datatype Owner = Owner(ino: nat, slot: Slot)

  /** Which file uses a block, and for what. */
  type Owners = map<nat, Owner>

  /** 'add' gives exactly block b, to owner o. */
  ghost predicate GivesOne(add: Owners, b: nat, o: Owner) {
    add.Keys == {b} && add[b] == o
  }

  ghost predicate GivesTwo(add: Owners, b: nat, o: Owner, c: nat, o1: Owner) {
    b != c && add.Keys == {b, c} && add[b] == o && add[c] == o1
  }

  ghost predicate GivesThree(add: Owners, b: nat, o: Owner, c: nat, o1: Owner, e: nat, o2: Owner) {
    b != c && b != e && c != e && add.Keys == {b, c, e} && add[b] == o && add[c] == o1 && add[e] == o2
  }

  lemma CountOne(add: Owners, b: nat)
    requires add.Keys == {b}
    ensures |add| == 1
  {
    assert |add| == |{b}|;
  }

  lemma CountTwo(add: Owners, b: nat, c: nat)
    requires add.Keys == {b, c} && b != c
    ensures |add| == 2
  {
    assert |add| == |{b, c}|;
  }

  lemma CountThree(add: Owners, b: nat, c: nat, e: nat)
    requires add.Keys == {b, c, e} && b != c && b != e && c != e
    ensures |add| == 3
  {
    assert |add| == |{b, c, e}|;
  }

  /** Pointers beyond the last block that add_block and remove_block take for unused because they are zero. */
  predicate ScannedAsUnused(n: nat, slot: Slot) {
    match slot
    case Ind => n <= NDIRECT
    case Ind2 => false
    case Sub(t) => n > NFLAT && Subs(n) <= t < NINDIRECT
    case Data(k) => n > NFLAT && n <= k < NFLAT + NINDIRECT * Subs(n)
  }

  /** The blocks of file i are exactly the ones 'own' gives it, and the pointers scanned as unused are zero. */
  ghost predicate TreeOk(d: seq<Cell>, p: Pointers, i: nat, own: Owners, n: nat) {
    && (forall slot :: Needs(n, slot) ==> At(d, p, slot) in own && own[At(d, p, slot)] == Owner(i, slot))
    && (forall b :: b in own && own[b].ino == i ==> Needs(n, own[b].slot) && At(d, p, own[b].slot) == b)
    && (forall slot :: ScannedAsUnused(n, slot) ==> At(d, p, slot) == 0)
  }

  ghost predicate SameOwned(own: Owners, own': Owners, i: nat) {
    forall b :: (b in own && own[b].ino == i) || (b in own' && own'[b].ino == i) ==>
                  b in own && b in own' && own[b] == own'[b]
  }

  /** The pointer blocks of file i are the same in both states. */
  ghost predicate SamePointerBlocks(d: seq<Cell>, d': seq<Cell>, own: Owners, i: nat) {
    |d| == |d'| && forall b :: b in own && own[b].ino == i && !own[b].slot.Data? && b < |d| ==> d[b] == d'[b]
  }

  lemma SameLookups(d: seq<Cell>, d': seq<Cell>, p: Pointers, i: nat, own: Owners, n: nat, slot: Slot)
    requires TreeOk(d, p, i, own, n) && SamePointerBlocks(d, d', own, i)
    requires Needs(n, slot) || ScannedAsUnused(n, slot)
    ensures At(d', p, slot) == At(d, p, slot)
  {
    if n > NDIRECT {
      assert Needs(n, Ind) && At(d, p, Ind) == p.indirect;
    }
    if n > NFLAT {
      assert Needs(n, Ind2) && At(d, p, Ind2) == p.indirect2;
    }
    match slot
    case Data(k) =>
      if k >= NFLAT {
        var t := (k - NFLAT) / NINDIRECT;
        assert Needs(n, Sub(t)) && At(d, p, Sub(t)) == W(d, p.indirect2, t);
      }
    case _ =>
  }

  /** A file whose pointer blocks and ownership are untouched keeps its tree. */
  lemma TreeFrame(d: seq<Cell>, d': seq<Cell>, p: Pointers, i: nat, own: Owners, own': Owners, n: nat)
    requires TreeOk(d, p, i, own, n)
    requires SameOwned(own, own', i) && SamePointerBlocks(d, d', own, i)
    ensures TreeOk(d', p, i, own', n)
    ensures forall slot :: Needs(n, slot) ==> At(d', p, slot) == At(d, p, slot)
  {
    forall slot | Needs(n, slot) || ScannedAsUnused(n, slot)
      ensures At(d', p, slot) == At(d, p, slot)
    {
      SameLookups(d, d', p, i, own, n, slot);
    }
  }

  ghost predicate Shape(d: seq<Cell>) {
    forall c :: 0 <= c < |d| ==> |d[c].words| == WORDS_PER_BLOCK
  }

  ghost predicate SameExcept(d: seq<Cell>, d': seq<Cell>, changed: set<nat>) {
    |d| == |d'| && forall c :: 0 <= c < |d| && c !in changed ==> d'[c] == d[c]
  }

  function Zeros(): seq<u32> { seq(WORDS_PER_BLOCK, _ => 0) }

  /** Slots of the shorter file keep their blocks when the file grows. */
  ghost predicate Extends(d: seq<Cell>, p: Pointers, d': seq<Cell>, p': Pointers, n: nat) {
    forall slot :: Needs(n, slot) ==> At(d', p', slot) == At(d, p, slot)
  }

  /** The slots block n of a file brings with it, and the blocks that fill them. */
  ghost predicate Fills(d: seq<Cell>, p: Pointers, i: nat, n: nat, m: nat, add: Owners) {
    && (forall slot :: Needs(m, slot) && !Needs(n, slot) ==>
                         At(d, p, slot) in add && add[At(d, p, slot)] == Owner(i, slot))
    && (forall b :: b in add ==> add[b].ino == i && Needs(m, add[b].slot) && !Needs(n, add[b].slot)
                                 && At(d, p, add[b].slot) == b)
  }

  ghost predicate UnusedAreZero(d: seq<Cell>, p: Pointers, n: nat) {
    forall slot :: ScannedAsUnused(n, slot) ==> At(d, p, slot) == 0
  }

  lemma NeedsMonotone(n: nat, slot: Slot)
    ensures Needs(n, slot) ==> Needs(n + 1, slot)
  {
  }

  /** Appending one block to a well-formed file, whatever the regime. */
  lemma Grow(d: seq<Cell>, p: Pointers, own: Owners, n: nat, d': seq<Cell>, p': Pointers, own': Owners, m: nat,
             i: nat, add: Owners)
    requires TreeOk(d, p, i, own, n) && own.Keys !! add.Keys && own' == own + add && m == n + 1
    requires Extends(d, p, d', p', n) && Fills(d', p', i, n, m, add) && UnusedAreZero(d', p', m)
    ensures TreeOk(d', p', i, own', m)
  {
    forall slot | Needs(m, slot)
      ensures At(d', p', slot) in own' && own'[At(d', p', slot)] == Owner(i, slot)
    {
      if Needs(n, slot) {
        assert At(d', p', slot) in own;
      }
    }
    forall b | b in own' && own'[b].ino == i
      ensures Needs(m, own'[b].slot) && At(d', p', own'[b].slot) == b
    {
      if b in own {
        NeedsMonotone(n, own[b].slot);
      }
    }
  }

  lemma GrowDirect(d: seq<Cell>, p: Pointers, own: Owners, n: nat, d': seq<Cell>, p': Pointers, own': Owners, m: nat,
                   i: nat, b: u32, add: Owners)
    requires TreeOk(d, p, i, own, n) && n < NDIRECT && m == n + 1
    requires b !in own && SameExcept(d, d', {b})
    requires p' == p.(direct := p.direct[n := b]) && own' == own + add && GivesOne(add, b, Owner(i, Data(n)))
    ensures TreeOk(d', p', i, own', m) && Extends(d, p, d', p', n)
  {
    forall slot
      ensures Needs(n, slot) ==> At(d', p', slot) == At(d, p, slot)
      ensures Needs(m, slot) && !Needs(n, slot) ==> slot == Data(n) && At(d', p', slot) == b
      ensures ScannedAsUnused(m, slot) ==> slot == Ind
    {
      match slot case Data(k) => case Ind => case Ind2 => case Sub(t) =>
    }
    assert ScannedAsUnused(n, Ind) && At(d, p, Ind) == At(d', p', Ind);
    Grow(d, p, own, n, d', p', own', m, i, add);
  }

  lemma GrowFirstIndirect(d: seq<Cell>, p: Pointers, own: Owners, n: nat, d': seq<Cell>, p': Pointers, own': Owners, m: nat,
                          i: nat, b: u32, c: u32, add: Owners)
    requires TreeOk(d, p, i, own, n) && n == NDIRECT && m == n + 1
    requires b !in own && c !in own && b != c && c < |d|
    requires SameExcept(d, d', {b, c}) && W(d', c, 0) == b
    requires p' == p.(indirect := c) && own' == own + add && GivesTwo(add, b, Owner(i, Data(n)), c, Owner(i, Ind))
    ensures TreeOk(d', p', i, own', m) && Extends(d, p, d', p', n)
  {
    forall slot
      ensures Needs(n, slot) ==> At(d', p', slot) == At(d, p, slot)
      ensures Needs(m, slot) && !Needs(n, slot) ==> slot == Data(n) || slot == Ind
      ensures !ScannedAsUnused(m, slot)
    {
      match slot case Data(k) => case Ind => case Ind2 => case Sub(t) =>
    }
    assert At(d', p', Data(n)) == b && At(d', p', Ind) == c;
    Grow(d, p, own, n, d', p', own', m, i, add);
  }

  lemma GrowIndirect(d: seq<Cell>, p: Pointers, own: Owners, n: nat, d': seq<Cell>, own': Owners, m: nat, i: nat, b: u32, add: Owners)
    requires TreeOk(d, p, i, own, n) && NDIRECT < n < NFLAT && m == n + 1
    requires b !in own && p.indirect < |d| && |d[p.indirect].words| == WORDS_PER_BLOCK
    requires SameExcept(d, d', {b, p.indirect}) && d'[p.indirect].words == d[p.indirect].words[n - NDIRECT := b]
    requires own' == own + add && GivesOne(add, b, Owner(i, Data(n)))
    ensures TreeOk(d', p, i, own', m) && Extends(d, p, d', p, n)
  {
    forall slot
      ensures Needs(n, slot) ==> At(d', p, slot) == At(d, p, slot)
      ensures Needs(m, slot) && !Needs(n, slot) ==> slot == Data(n)
      ensures !ScannedAsUnused(m, slot)
    {
      match slot case Data(k) => case Ind => case Ind2 => case Sub(t) =>
    }
    assert At(d', p, Data(n)) == b;
    Grow(d, p, own, n, d', p, own', m, i, add);
  }

  lemma GrowFirstIndirect2(d: seq<Cell>, p: Pointers, own: Owners, n: nat, d': seq<Cell>, p': Pointers, own': Owners, m: nat,
                           i: nat, b: u32, c: u32, e: u32, add: Owners)
    requires TreeOk(d, p, i, own, n) && n == NFLAT && m == n + 1
    requires b !in own && c !in own && e !in own && b != c && b != e && c != e && c < |d| && e < |d|
    requires SameExcept(d, d', {b, c, e}) && d'[e].words == Zeros()[0 := c] && d'[c].words == Zeros()[0 := b]
    requires p' == p.(indirect2 := e)
    requires own' == own + add && GivesThree(add, b, Owner(i, Data(n)), c, Owner(i, Sub(0)), e, Owner(i, Ind2))
    ensures TreeOk(d', p', i, own', m) && Extends(d, p, d', p', n)
  {
    assert Needs(n, Ind) && At(d, p, Ind) == p.indirect;
    assert W(d', e, 0) == c && forall j :: j > 0 ==> W(d', e, j) == 0 && W(d', c, j) == 0;
    forall slot
      ensures Needs(n, slot) ==> At(d', p', slot) == At(d, p, slot)
      ensures Needs(m, slot) && !Needs(n, slot) ==> slot == Data(n) || slot == Sub(0) || slot == Ind2
      ensures ScannedAsUnused(m, slot) ==> At(d', p', slot) == 0
    {
      match slot case Data(k) => case Ind => case Ind2 => case Sub(t) =>
    }
    assert At(d', p', Data(n)) == b && At(d', p', Sub(0)) == c && At(d', p', Ind2) == e;
    Grow(d, p, own, n, d', p', own', m, i, add);
  }

  /** The pointer blocks of a file with a doubly indirect block are distinct from one another. */
  lemma PointersDistinct(d: seq<Cell>, p: Pointers, i: nat, own: Owners, n: nat)
    requires TreeOk(d, p, i, own, n) && n > NFLAT
    ensures p.indirect in own && p.indirect2 in own && p.indirect != p.indirect2
    ensures own[p.indirect] == Owner(i, Ind) && own[p.indirect2] == Owner(i, Ind2)
    ensures forall t: nat :: t < Subs(n) ==>
              var q := W(d, p.indirect2, t); q in own && own[q] == Owner(i, Sub(t)) && q != p.indirect && q != p.indirect2
  {
    assert Needs(n, Ind) && At(d, p, Ind) == p.indirect;
    assert Needs(n, Ind2) && At(d, p, Ind2) == p.indirect2;
    forall t: nat | t < Subs(n)
      ensures var q := W(d, p.indirect2, t); q in own && own[q] == Owner(i, Sub(t))
    {
      assert Needs(n, Sub(t)) && At(d, p, Sub(t)) == W(d, p.indirect2, t);
    }
  }

  lemma SamePlace(a: nat, b: nat)
    ensures a / NINDIRECT == b / NINDIRECT && a % NINDIRECT == b % NINDIRECT ==> a == b
  {
  }

  /** Rewriting one word of the sub-indirect block of block m affects the lookup of block m only. */
  lemma PokeSub(d: seq<Cell>, d': seq<Cell>, p: Pointers, i: nat, own: Owners, n: nat, m: nat, q: u32, b: u32, other: nat, slot: Slot)
    requires TreeOk(d, p, i, own, n) && n > NFLAT && NFLAT <= m < NFLAT + NINDIRECT * Subs(n)
    requires q == W(d, p.indirect2, (m - NFLAT) / NINDIRECT) && q < |d| && |d[q].words| == WORDS_PER_BLOCK
    requires other !in own || other == q
    requires SameExcept(d, d', {other, q as nat}) && d'[q].words == d[q].words[(m - NFLAT) % NINDIRECT := b]
    requires Needs(n, slot) || ScannedAsUnused(n, slot) || slot == Data(m)
    ensures At(d', p, slot) == if slot == Data(m) then b else At(d, p, slot)
  {
    hide TreeOk, SameExcept;
    PointersDistinct(d, p, i, own, n);
    var t, r := (m - NFLAT) / NINDIRECT, (m - NFLAT) % NINDIRECT;
    InLastSub(m - NFLAT, Subs(n));
    WordPoked(d, d', other, q, r, b);
    WordsKept(d, d', other, q, p.indirect2);
    WordsKept(d, d', other, q, p.indirect);
    match slot
    case Data(k) =>
      if k >= NFLAT {
        var u := (k - NFLAT) / NINDIRECT;
        InLastSub(k - NFLAT, Subs(n));
        if u == t {
          SamePlace(k - NFLAT, m - NFLAT);
        } else {
          WordsKept(d, d', other, q, W(d, p.indirect2, u));
        }
      }
    case Ind => case Ind2 => case Sub(u) =>
  }

  lemma InLastSub(k: nat, subs: nat)
    ensures k < NINDIRECT * subs ==> k / NINDIRECT < subs
  {
  }

  lemma WordPoked(d: seq<Cell>, d': seq<Cell>, other: nat, q: nat, r: nat, b: u32)
    requires SameExcept(d, d', {other, q}) && q < |d| && r < |d[q].words| && d'[q].words == d[q].words[r := b]
    ensures forall j :: W(d', q, j) == if j == r then b else W(d, q, j)
  {
  }

  lemma WordsKept(d: seq<Cell>, d': seq<Cell>, other: nat, q: nat, x: nat)
    requires SameExcept(d, d', {other, q}) && x != other && x != q
    ensures forall j :: W(d', x, j) == W(d, x, j)
  {
  }

  lemma GrowSub(d: seq<Cell>, p: Pointers, own: Owners, n: nat, d': seq<Cell>, own': Owners, m: nat, i: nat, b: u32, q: u32, add: Owners)
    requires TreeOk(d, p, i, own, n) && n > NFLAT && m == n + 1 && (n - NFLAT) % NINDIRECT != 0
    requires q == W(d, p.indirect2, (n - NFLAT) / NINDIRECT) && q < |d| && |d[q].words| == WORDS_PER_BLOCK
    requires b !in own && SameExcept(d, d', {b as nat, q as nat})
    requires d'[q].words == d[q].words[(n - NFLAT) % NINDIRECT := b]
    requires own' == own + add && GivesOne(add, b, Owner(i, Data(n)))
    ensures TreeOk(d', p, i, own', m) && Extends(d, p, d', p, n)
  {
    assert Subs(n) == Subs(m) && n < NFLAT + NINDIRECT * Subs(n);
    forall slot
      ensures Needs(n, slot) || ScannedAsUnused(n, slot) || slot == Data(n) ==>
                At(d', p, slot) == if slot == Data(n) then b else At(d, p, slot)
      ensures Needs(m, slot) && !Needs(n, slot) ==> slot == Data(n)
      ensures ScannedAsUnused(m, slot) ==> ScannedAsUnused(n, slot) && slot != Data(n)
    {
      if Needs(n, slot) || ScannedAsUnused(n, slot) || slot == Data(n) {
        PokeSub(d, d', p, i, own, n, n, q, b, b, slot);
      }
      match slot case Data(k) => case Ind => case Ind2 => case Sub(u) =>
    }
    Grow(d, p, own, n, d', p, own', m, i, add);
  }

  lemma GrowNewSub(d: seq<Cell>, p: Pointers, own: Owners, n: nat, d': seq<Cell>, own': Owners, m: nat, i: nat, b: u32, c: u32, add: Owners)
    requires TreeOk(d, p, i, own, n) && n > NFLAT && m == n + 1 && (n - NFLAT) % NINDIRECT == 0 && (n - NFLAT) / NINDIRECT < NINDIRECT
    requires b !in own && c !in own && b != c && c < |d| && p.indirect2 < |d| && |d[p.indirect2].words| == WORDS_PER_BLOCK
    requires SameExcept(d, d', {b, c, p.indirect2}) && d'[c].words == Zeros()[0 := b]
    requires d'[p.indirect2].words == d[p.indirect2].words[(n - NFLAT) / NINDIRECT := c]
    requires own' == own + add && GivesTwo(add, b, Owner(i, Data(n)), c, Owner(i, Sub((n - NFLAT) / NINDIRECT)))
    ensures TreeOk(d', p, i, own', m) && Extends(d, p, d', p, n)
  {
    var t := (n - NFLAT) / NINDIRECT;
    PointersDistinct(d, p, i, own, n);
    assert Subs(n) == t && Subs(m) == t + 1;
    assert forall u :: W(d', p.indirect2, u) == if u == t then c else W(d, p.indirect2, u);
    assert W(d', c, 0) == b && forall j :: j > 0 ==> W(d', c, j) == 0;
    forall slot
      ensures Needs(n, slot) ==> At(d', p, slot) == At(d, p, slot)
      ensures Needs(m, slot) && !Needs(n, slot) ==> slot == Data(n) || slot == Sub(t)
      ensures ScannedAsUnused(m, slot) ==> At(d', p, slot) == 0
    {
      match slot
      case Data(k) =>
        if NFLAT <= k < n {
          assert (k - NFLAT) / NINDIRECT < t;
        }
      case Ind => case Ind2 => case Sub(u) =>
        if ScannedAsUnused(m, slot) { assert ScannedAsUnused(n, slot) && At(d, p, slot) == 0; }
    }
    assert At(d', p, Data(n)) == b && At(d', p, Sub(t)) == c;
    Grow(d, p, own, n, d', p, own', m, i, add);
  }

  /** Ownership after file i has dropped every slot an n-block file does not need. */
  function Release(own: Owners, i: nat, n: nat): Owners {
    map b | b in own && (own[b].ino != i || Needs(n, own[b].slot)) :: own[b]
  }

  /** Dropping the last block of a well-formed file, whatever the regime. */
  lemma Shrink(d: seq<Cell>, p: Pointers, d': seq<Cell>, p': Pointers, own: Owners, n: nat, own': Owners, m: nat, i: nat)
    requires TreeOk(d, p, i, own, n) && n == m + 1 && own' == Release(own, i, m)
    requires Extends(d, p, d', p', m) && UnusedAreZero(d', p', m)
    ensures TreeOk(d', p', i, own', m)
  {
    forall slot | Needs(m, slot)
      ensures At(d', p', slot) in own' && own'[At(d', p', slot)] == Owner(i, slot)
    {
      NeedsMonotone(m, slot);
    }
  }

  lemma ShrinkDirect(d: seq<Cell>, p: Pointers, p': Pointers, own: Owners, n: nat, own': Owners, m: nat, i: nat)
    requires TreeOk(d, p, i, own, n) && n == m + 1 && own' == Release(own, i, m) && 0 < n <= NDIRECT
    requires p' == p.(direct := p.direct[m := 0])
    ensures TreeOk(d, p', i, own', m) && Extends(d, p, d, p', m)
  {
    forall slot
      ensures Needs(m, slot) ==> At(d, p', slot) == At(d, p, slot)
      ensures ScannedAsUnused(m, slot) ==> slot == Ind
    {
      match slot case Data(k) => case Ind => case Ind2 => case Sub(t) =>
    }
    assert ScannedAsUnused(n, Ind) && At(d, p, Ind) == At(d, p', Ind);
    Shrink(d, p, d, p', own, n, own', m, i);
  }

  lemma ShrinkLastIndirect(d: seq<Cell>, d': seq<Cell>, p: Pointers, p': Pointers, own: Owners, n: nat, own': Owners, m: nat, i: nat)
    requires TreeOk(d, p, i, own, n) && n == m + 1 && own' == Release(own, i, m) && n == NDIRECT + 1
    requires p' == p.(indirect := 0)
    ensures TreeOk(d', p', i, own', m) && Extends(d, p, d', p', m)
  {
    forall slot
      ensures Needs(m, slot) ==> At(d', p', slot) == At(d, p, slot)
      ensures ScannedAsUnused(m, slot) ==> slot == Ind
    {
      match slot case Data(k) => case Ind => case Ind2 => case Sub(t) =>
    }
    Shrink(d, p, d', p', own, n, own', m, i);
  }

  lemma ShrinkIndirect(d: seq<Cell>, d': seq<Cell>, p: Pointers, own: Owners, n: nat, own': Owners, m: nat, i: nat)
    requires TreeOk(d, p, i, own, n) && n == m + 1 && own' == Release(own, i, m) && NDIRECT + 1 < n <= NFLAT
    requires p.indirect < |d| && |d[p.indirect].words| == WORDS_PER_BLOCK
    requires SameExcept(d, d', {p.indirect}) && d'[p.indirect].words == d[p.indirect].words[m - NDIRECT := 0]
    ensures TreeOk(d', p, i, own', m) && Extends(d, p, d', p, m)
  {
    forall slot
      ensures Needs(m, slot) ==> At(d', p, slot) == At(d, p, slot)
      ensures !ScannedAsUnused(m, slot)
    {
      match slot case Data(k) => case Ind => case Ind2 => case Sub(t) =>
    }
    Shrink(d, p, d', p, own, n, own', m, i);
  }

  lemma ShrinkSub(d: seq<Cell>, d': seq<Cell>, p: Pointers, own: Owners, n: nat, own': Owners, m: nat, i: nat, q: u32)
    requires TreeOk(d, p, i, own, n) && n == m + 1 && own' == Release(own, i, m) && n > NFLAT && (m - NFLAT) % NINDIRECT != 0
    requires q == W(d, p.indirect2, (m - NFLAT) / NINDIRECT) && q < |d| && |d[q].words| == WORDS_PER_BLOCK
    requires SameExcept(d, d', {q as nat}) && d'[q].words == d[q].words[(m - NFLAT) % NINDIRECT := 0]
    ensures TreeOk(d', p, i, own', m) && Extends(d, p, d', p, m)
  {
    assert Subs(m) == Subs(n);
    forall slot
      ensures Needs(m, slot) ==> At(d', p, slot) == At(d, p, slot)
      ensures ScannedAsUnused(m, slot) ==> At(d', p, slot) == 0
    {
      NeedsMonotone(m, slot);
      match slot { case Data(k) => case Ind => case Ind2 => case Sub(u) => }
      if Needs(m, slot) || ScannedAsUnused(m, slot) {
        PokeSub(d, d', p, i, own, n, m, q, 0, q, slot);
      }
    }
    Shrink(d, p, d', p, own, n, own', m, i);
  }

  /** The last block of a sub-indirect block goes, and with it that block; with the first of them, the whole subtree. */
  lemma ShrinkLastSub(d: seq<Cell>, d': seq<Cell>, p: Pointers, p': Pointers, own: Owners, n: nat, own': Owners, m: nat, i: nat, q: u32)
    requires TreeOk(d, p, i, own, n) && n == m + 1 && own' == Release(own, i, m) && n > NFLAT && (m - NFLAT) % NINDIRECT == 0 && (m - NFLAT) / NINDIRECT < NINDIRECT
    requires q == W(d, p.indirect2, (m - NFLAT) / NINDIRECT)
    requires p.indirect2 < |d| && |d[p.indirect2].words| == WORDS_PER_BLOCK
    requires SameExcept(d, d', {q, p.indirect2})
    requires d'[p.indirect2].words == d[p.indirect2].words[(m - NFLAT) / NINDIRECT := 0]
    requires p' == if n == NFLAT + 1 then p.(indirect2 := 0) else p
    ensures TreeOk(d', p', i, own', m) && Extends(d, p, d', p', m)
  {
    PointersDistinct(d, p, i, own, n);
    var t := (m - NFLAT) / NINDIRECT;
    assert Subs(n) == t + 1 && Subs(m) == t;
    assert forall u :: W(d', p.indirect2, u) == if u == t then 0 else W(d, p.indirect2, u);
    forall slot
      ensures Needs(m, slot) ==> At(d', p', slot) == At(d, p, slot)
      ensures ScannedAsUnused(m, slot) ==> At(d', p', slot) == 0
    {
      match slot
      case Data(k) =>
        if NFLAT <= k < m {
          assert (k - NFLAT) / NINDIRECT < t;
          assert W(d, p.indirect2, (k - NFLAT) / NINDIRECT) != q;
        }
      case Ind => case Ind2 => case Sub(u) =>
        if ScannedAsUnused(m, slot) && u != t { assert ScannedAsUnused(n, slot) && At(d, p, slot) == 0; }
    }
    Shrink(d, p, d', p', own, n, own', m, i);
  }
}
