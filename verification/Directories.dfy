/** Directory entries: 128-byte records in the data blocks of a directory, each an inode number and a C string. */
module Directories {
  import opened Words
  import opened BlockTree
  import opened FileSystem
  import opened Ownership
  import opened FileIO

  const DIRENTRY_SIZE: nat := 128
  const PER_BLOCK: nat := 8
  const MAXNAMELEN: nat := 123

  /** A directory entry; inode number 0 marks an empty one. */
  datatype Entry = Entry(ino: u32, name: seq<byte>) {
    predicate Live() { ino != 0 }
  }

  const BLANK: Entry := Entry(0, [])

  function EntryIn(blk: Block, j: nat): Entry
    requires j < PER_BLOCK
  {
    Entry(Word(blk, 32 * j), CStr(blk[128 * j + 4..128 * j + 128]))
  }

  /** Where the fields of a struct ospfs_direntry lie: 128 bytes, of which the last 124 are for the name and its zero. */
  lemma EntryLayout(blk: Block, j: nat)
    requires j < PER_BLOCK
    ensures var e, at := EntryIn(blk, j), 128 * j;
            && e.ino == NumberAt(blk, at) && |e.name| <= 124 && 0 !in e.name
            && (forall k :: 0 <= k < |e.name| ==> e.name[k] == blk[at + 4 + k]) && (|e.name| < 124 ==> blk[at + 4 + |e.name|] == 0)
  {
    var e, at := EntryIn(blk, j), 128 * j;
    var area := blk[at + 4..at + 128];
    assert forall k :: 0 <= k < 124 ==> area[k] == blk[at + 4 + k];
    assert e.name == area[..|e.name|];
  }

  /** Names fit and are written before the inode number. */
  function PutEntry(blk: Block, j: nat, name: seq<byte>, ino: u32): Block
    requires j < PER_BLOCK && |name| <= MAXNAMELEN
  {
    PutWord(PutBytes(blk, 128 * j + 4, name + [0]), 32 * j, ino)
  }

  /** A name copied into entry j. */
  lemma EntryAfterName(blk: Block, j: nat, name: seq<byte>, k: nat)
    requires j < PER_BLOCK && k < PER_BLOCK && |name| <= MAXNAMELEN && 0 !in name
    ensures EntryIn(PutBytes(blk, 128 * j + 4, name + [0]), k) == if k == j then Entry(EntryIn(blk, j).ino, name) else EntryIn(blk, k)
  {
    hide CStr, PutBytes, Word;
    var b := PutBytes(blk, 128 * j + 4, name + [0]);
    PutElsewhere(blk, 128 * j + 4, name + [0], 128 * k, 4);
    SameWord(blk, b, 32 * k);
    if k == j {
      StringStored(blk, 128 * j + 4, name, 124);
    } else {
      PutElsewhere(blk, 128 * j + 4, name + [0], 128 * k + 4, 124);
    }
  }

  lemma PutElsewhere(blk: Block, off: nat, s: seq<byte>, at: nat, len: nat)
    requires off + |s| <= BLKSIZE && at + len <= BLKSIZE && (at + len <= off || off + |s| <= at)
    ensures PutBytes(blk, off, s)[at..at + len] == blk[at..at + len]
  {
  }

  lemma SameWord(b: Block, b': Block, i: nat)
    requires i < WORDS_PER_BLOCK && b'[4 * i..4 * i + 4] == b[4 * i..4 * i + 4]
    ensures Word(b', i) == Word(b, i)
  {
    var w, w' := b[4 * i..4 * i + 4], b'[4 * i..4 * i + 4];
    assert b[4 * i] == w[0] && b[4 * i + 1] == w[1] && b[4 * i + 2] == w[2] && b[4 * i + 3] == w[3];
    assert b'[4 * i] == w'[0] && b'[4 * i + 1] == w'[1] && b'[4 * i + 2] == w'[2] && b'[4 * i + 3] == w'[3];
  }

  /** The inode number of entry j. */
  lemma EntryAfterIno(blk: Block, j: nat, ino: u32, k: nat)
    requires j < PER_BLOCK && k < PER_BLOCK
    ensures EntryIn(PutWord(blk, 32 * j, ino), k) == if k == j then Entry(ino, EntryIn(blk, j).name) else EntryIn(blk, k)
  {
    hide CStr, Word;
    var b := PutWord(blk, 32 * j, ino);
    WordAfterPut(blk, 32 * j, ino, 32 * k);
    assert b[128 * k + 4..128 * k + 128] == blk[128 * k + 4..128 * k + 128];
  }

  lemma EntryAfterPut(blk: Block, j: nat, name: seq<byte>, ino: u32, k: nat)
    requires j < PER_BLOCK && k < PER_BLOCK && |name| <= MAXNAMELEN && 0 !in name
    ensures EntryIn(PutEntry(blk, j, name, ino), k) == if k == j then Entry(ino, name) else EntryIn(blk, k)
  {
    hide EntryIn, PutWord, PutBytes;
    var b := PutBytes(blk, 128 * j + 4, name + [0]);
    EntryAfterIno(b, j, ino, k);
    EntryAfterName(blk, j, name, j);
    EntryAfterName(blk, j, name, k);
  }

  lemma EntriesOfZero(k: nat)
    requires k < PER_BLOCK
    ensures EntryIn(ZeroBlock(), k) == BLANK
  {
  }

  /** All entries of a directory with n blocks, in order. */
  function Entries(d: seq<Cell>, p: Pointers, n: nat): (r: seq<Entry>)
    ensures |r| == PER_BLOCK * n
  {
    seq(PER_BLOCK * n, e requires 0 <= e < PER_BLOCK * n => EntryIn(DataBytes(d, p, e / PER_BLOCK), e % PER_BLOCK))
  }

  function DirEntries(s: FS, i: nat): (r: seq<Entry>)
    requires i < |s.inodes|
    ensures |r| == PER_BLOCK * NBlocks(s.inodes[i])
  {
    Entries(s.disk, s.inodes[i].ptrs, NBlocks(s.inodes[i]))
  }

  /** Live entries have names that fit and differ from one another. */
  ghost predicate NamesOk(es: seq<Entry>) {
    && (forall e :: 0 <= e < |es| && es[e].Live() ==> |es[e].name| <= MAXNAMELEN)
    && (forall e, f :: 0 <= e < f < |es| && es[e].Live() && es[f].Live() ==> es[e].name != es[f].name)
  }

  ghost predicate HasName(es: seq<Entry>, name: seq<byte>) {
    exists e :: 0 <= e < |es| && es[e].Live() && es[e].name == name
  }

  /** The directory as a map from names to inode numbers. */
  function NameMap(es: seq<Entry>): map<seq<byte>, u32> {
    if es == [] then map[]
    else
      var rest := NameMap(es[..|es| - 1]); var x := es[|es| - 1];
      if x.Live() then rest[x.name := x.ino] else rest
  }

  lemma {:induction false} NameMapIs(es: seq<Entry>, name: seq<byte>)
    requires NamesOk(es)
    ensures name in NameMap(es) <==> HasName(es, name)
    ensures forall e :: 0 <= e < |es| && es[e].Live() && es[e].name == name ==> name in NameMap(es) && NameMap(es)[name] == es[e].ino
  {
    if es != [] {
      var k := |es| - 1;
      NameMapIs(es[..k], name);
      if HasName(es[..k], name) {
        var e :| 0 <= e < k && es[e].Live() && es[e].name == name;
        assert es[..k][e] == es[e];
      }
    }
  }

  // ----- counting links -----

  /** Entries that name inode j. */
  function Count(es: seq<Entry>, j: nat): (c: nat)
    ensures c <= |es|
  {
    if es == [] then 0 else Count(es[..|es| - 1], j) + (if es[|es| - 1].ino == j then 1 else 0)
  }

  lemma {:induction false} CountUpdate(es: seq<Entry>, e: nat, x: Entry, j: nat)
    requires e < |es|
    ensures Count(es[e := x], j) + (if es[e].ino == j then 1 else 0) == Count(es, j) + (if x.ino == j then 1 else 0)
  {
    var k := |es| - 1;
    if e == k {
      assert es[e := x][..k] == es[..k];
    } else {
      assert es[e := x][..k] == es[..k][e := x];
      CountUpdate(es[..k], e, x, j);
    }
  }

  function Blanks(n: nat): seq<Entry> { seq(n, _ => BLANK) }

  lemma {:induction false} CountBlanks(es: seq<Entry>, n: nat, j: nat)
    requires j != 0
    ensures Count(es + Blanks(n), j) == Count(es, j)
  {
    if n == 0 {
      assert es + Blanks(0) == es;
    } else {
      assert (es + Blanks(n))[..|es| + n - 1] == es + Blanks(n - 1);
      CountBlanks(es, n - 1, j);
    }
  }

  lemma {:induction false} CountPositive(es: seq<Entry>, e: nat)
    requires e < |es|
    ensures Count(es, es[e].ino) > 0
  {
    if e < |es| - 1 {
      CountPositive(es[..|es| - 1], e);
    }
  }

  /** Entries naming inode j in the directories among the first k inodes. */
  function CountAll(s: FS, j: nat, k: nat): nat
    requires k <= |s.inodes|
  {
    if k == 0 then 0
    else CountAll(s, j, k - 1) + (if s.inodes[k - 1].ftype == FTYPE_DIR then Count(DirEntries(s, k - 1), j) else 0)
  }

  function LinkCount(s: FS, j: nat): nat { CountAll(s, j, |s.inodes|) }

  /** Every directory but 'dir' has the entries it had. */
  ghost predicate DirsSame(s: FS, t: FS, dir: nat) {
    && |t.inodes| == |s.inodes|
    && (forall i: nat :: i < |s.inodes| ==> (t.inodes[i].ftype == FTYPE_DIR <==> s.inodes[i].ftype == FTYPE_DIR))
    && (forall i: nat :: i < |s.inodes| && i != dir && s.inodes[i].ftype == FTYPE_DIR ==> DirEntries(t, i) == DirEntries(s, i))
  }

  lemma {:induction false} CountAllOneDir(s: FS, t: FS, dir: nat, j: nat, k: nat)
    requires DirsSame(s, t, dir) && k <= |s.inodes| && dir < |s.inodes| && s.inodes[dir].ftype == FTYPE_DIR
    ensures CountAll(t, j, k) + (if dir < k then Count(DirEntries(s, dir), j) else 0)
         == CountAll(s, j, k) + (if dir < k then Count(DirEntries(t, dir), j) else 0)
  {
    hide DirEntries, Count;
    if k > 0 {
      CountAllOneDir(s, t, dir, j, k - 1);
      if k - 1 != dir && s.inodes[k - 1].ftype == FTYPE_DIR {
        assert DirEntries(t, k - 1) == DirEntries(s, k - 1);
      }
    }
  }

  lemma {:induction false} CountAllSame(s: FS, t: FS, j: nat, k: nat)
    requires DirsSame(s, t, |s.inodes|) && k <= |s.inodes|
    ensures CountAll(t, j, k) == CountAll(s, j, k)
  {
    if k > 0 {
      CountAllSame(s, t, j, k - 1);
    }
  }

  lemma {:induction false} CountAllBound(s: FS, own: Owners, j: nat, k: nat)
    requires Consistent(s, own) && k <= |s.inodes|
    ensures CountAll(s, j, k) <= PER_BLOCK * ALLOC_BITS * k
  {
    if k > 0 {
      CountAllBound(s, own, j, k - 1);
      FileIsShort(s, own, k - 1);
    }
  }

  lemma {:induction false} CountAllHas(s: FS, dir: nat, e: nat, k: nat)
    requires dir < k <= |s.inodes| && s.inodes[dir].ftype == FTYPE_DIR && e < |DirEntries(s, dir)|
    ensures CountAll(s, DirEntries(s, dir)[e].ino, k) > 0
  {
    if dir < k - 1 {
      CountAllHas(s, dir, e, k - 1);
    } else {
      CountPositive(DirEntries(s, dir), e);
    }
  }

  // ----- how the entries of a directory change -----

  /** A changed data block of a directory changes the entries in it. */
  lemma EntriesAfterStore(d: seq<Cell>, d': seq<Cell>, p: Pointers, n: nat, e: nat, blk: Block, x: Entry)
    requires e < PER_BLOCK * n
    requires forall k: nat :: k < n ==> DataBytes(d', p, k) == if k == e / PER_BLOCK then blk else DataBytes(d, p, k)
    requires forall j: nat :: j < PER_BLOCK ==>
               EntryIn(blk, j) == if j == e % PER_BLOCK then x else EntryIn(DataBytes(d, p, e / PER_BLOCK), j)
    ensures Entries(d', p, n) == Entries(d, p, n)[e := x]
  {
    forall f | 0 <= f < PER_BLOCK * n
      ensures Entries(d', p, n)[f] == Entries(d, p, n)[e := x][f]
    {
      assert f == PER_BLOCK * (f / PER_BLOCK) + f % PER_BLOCK && f / PER_BLOCK < n;
    }
  }

  lemma EntriesAfterGrowth(d: seq<Cell>, p: Pointers, d': seq<Cell>, p': Pointers, n: nat)
    requires TreeResized(d, p, d', p', n, n + 1)
    ensures Entries(d', p', n + 1) == Entries(d, p, n) + Blanks(PER_BLOCK)
  {
    forall f | 0 <= f < PER_BLOCK * (n + 1)
      ensures Entries(d', p', n + 1)[f] == (Entries(d, p, n) + Blanks(PER_BLOCK))[f]
    {
      if f >= PER_BLOCK * n {
        assert f / PER_BLOCK == n;
        EntriesOfZero(f % PER_BLOCK);
      }
    }
  }

  lemma EntriesAfterRefusal(d: seq<Cell>, p: Pointers, d': seq<Cell>, p': Pointers, n: nat)
    requires TreeResized(d, p, d', p', n, n)
    ensures Entries(d', p', n) == Entries(d, p, n)
  {
  }

  /** A directory other than the one that changed has the entries it had. */
  lemma OtherEntries(s: FS, own: Owners, t: FS, own': Owners, i: nat, j: nat)
    requires j < |s.inodes| && j != i && s.inodes[j].ftype != FTYPE_SYMLINK
    requires FileOk(s.disk, s.inodes[j], j, own) && OthersSame(s, own, t, own', i)
    ensures t.inodes[j] == s.inodes[j] && DirEntries(t, j) == DirEntries(s, j)
  {
    hide FileOk, OthersKeep, DataBytes;
    OtherData(s.disk, own, t.disk, own', i, s.inodes[j], j);
    assert DirEntries(t, j) == DirEntries(s, j);
  }
}
