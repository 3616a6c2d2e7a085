/** Names and link counts across the whole image: the invariant that the directory operations keep. */
module Links {
  import opened Words
  import opened BlockTree
  import opened FileSystem
  import opened Ownership
  import opened FileIO
  import opened Directories

  ghost predicate DirOk(s: FS, i: nat)
    requires i < |s.inodes|
  {
    && s.inodes[i].size % BLKSIZE == 0 && s.inodes[i].nlink > 0 && NamesOk(DirEntries(s, i))
    && forall e :: 0 <= e < |DirEntries(s, i)| ==> DirEntries(s, i)[e].ino < |s.inodes|
  }

  /** The link count of a file or symbolic link is the number of live entries that name it; unlinked files are empty. */
  ghost predicate LinkOk(s: FS, j: nat)
    requires j < |s.inodes|
  {
    && (j > 0 ==> s.inodes[j].nlink == LinkCount(s, j))
    && (s.inodes[j].nlink == 0 && s.inodes[j].ftype != FTYPE_SYMLINK ==> s.inodes[j].size == 0)
  }

  ghost predicate Tidy(s: FS) {
    && (forall i: nat :: i < |s.inodes| && s.inodes[i].ftype == FTYPE_DIR ==> DirOk(s, i))
    && (forall j: nat :: j < |s.inodes| && s.inodes[j].ftype != FTYPE_DIR ==> LinkOk(s, j))
  }

  /** Blocks, names and link counts are all right. */
  ghost predicate Sound(s: FS, own: Owners) {
    Inv(s, own) && Tidy(s)
  }

  // ----- names as a map -----

  lemma NameAdded(es: seq<Entry>, e: nat, name: seq<byte>, ino: u32)
    requires NamesOk(es) && e < |es| && !es[e].Live() && !HasName(es, name) && |name| <= MAXNAMELEN && ino != 0
    ensures NamesOk(es[e := Entry(ino, name)])
    ensures NameMap(es[e := Entry(ino, name)]) == NameMap(es)[name := ino]
  {
    var es' := es[e := Entry(ino, name)];
    assert es'[e].Live();
    forall m: seq<byte>
      ensures m in NameMap(es') <==> m in NameMap(es) || m == name
      ensures m in NameMap(es') ==> NameMap(es')[m] == if m == name then ino else NameMap(es)[m]
    {
      NameMapIs(es, m);
      NameMapIs(es', m);
      if HasName(es, m) {
        var f :| 0 <= f < |es| && es[f].Live() && es[f].name == m;
        assert es'[f] == es[f];
      }
      if HasName(es', m) && m != name {
        var f :| 0 <= f < |es'| && es'[f].Live() && es'[f].name == m;
        assert es'[f] == es[f];
      }
    }
  }

  lemma NameRemoved(es: seq<Entry>, e: nat)
    requires NamesOk(es) && e < |es| && es[e].Live()
    ensures NamesOk(es[e := es[e].(ino := 0)])
    ensures NameMap(es[e := es[e].(ino := 0)]) == NameMap(es) - {es[e].name}
  {
    var es', name := es[e := es[e].(ino := 0)], es[e].name;
    forall m: seq<byte>
      ensures m in NameMap(es') <==> m in NameMap(es) && m != name
      ensures m in NameMap(es') ==> NameMap(es')[m] == NameMap(es)[m]
    {
      NameMapIs(es, m);
      NameMapIs(es', m);
      if HasName(es, m) && m != name {
        var f :| 0 <= f < |es| && es[f].Live() && es[f].name == m;
        assert es'[f] == es[f];
      }
      if HasName(es', m) {
        var f :| 0 <= f < |es'| && es'[f].Live() && es'[f].name == m;
        assert es'[f] == es[f];
      }
    }
  }

  lemma BlanksAdded(es: seq<Entry>, n: nat)
    requires NamesOk(es)
    ensures NamesOk(es + Blanks(n)) && NameMap(es + Blanks(n)) == NameMap(es)
    decreases n
  {
    if n == 0 {
      assert es + Blanks(0) == es;
    } else {
      BlanksAdded(es, n - 1);
      assert (es + Blanks(n))[..|es| + n - 1] == es + Blanks(n - 1);
    }
  }

  lemma BlankRenamed(es: seq<Entry>, e: nat, name: seq<byte>)
    requires NamesOk(es) && e < |es| && !es[e].Live()
    ensures NamesOk(es[e := Entry(0, name)])
    ensures NameMap(es[e := Entry(0, name)]) == NameMap(es)
  {
    var es' := es[e := Entry(0, name)];
    assert forall f :: 0 <= f < |es'| && es'[f].Live() ==> es'[f] == es[f];
    forall m: seq<byte>
      ensures m in NameMap(es') <==> m in NameMap(es)
      ensures m in NameMap(es') ==> NameMap(es')[m] == NameMap(es)[m]
    {
      NameMapIs(es, m);
      NameMapIs(es', m);
      if HasName(es, m) {
        var f :| 0 <= f < |es| && es[f].Live() && es[f].name == m;
        assert es'[f] == es[f];
      }
      if HasName(es', m) {
        var f :| 0 <= f < |es'| && es'[f].Live() && es'[f].name == m;
        assert es'[f] == es[f];
      }
    }
  }

  // ----- keeping the image tidy -----

  lemma LinksAfterEntry(s: FS, t: FS, dir: nat, e: nat, x: Entry, j: nat)
    requires DirsSame(s, t, dir) && dir < |s.inodes| && s.inodes[dir].ftype == FTYPE_DIR && e < |DirEntries(s, dir)|
    requires DirEntries(t, dir) == DirEntries(s, dir)[e := x]
    ensures LinkCount(t, j) + (if DirEntries(s, dir)[e].ino == j then 1 else 0) == LinkCount(s, j) + (if x.ino == j then 1 else 0)
  {
    CountAllOneDir(s, t, dir, j, |s.inodes|);
    CountUpdate(DirEntries(s, dir), e, x, j);
  }

  /** One entry, which named j or nothing, now names j or nothing, and the link count of j followed. */
  ghost predicate Relinked(s: FS, t: FS, dir: nat, e: nat, x: Entry, j: nat) {
    && DirsSame(s, t, dir) && dir < |s.inodes| && s.inodes[dir].ftype == FTYPE_DIR && t.inodes[dir] == s.inodes[dir]
    && e < |DirEntries(s, dir)| && DirEntries(t, dir) == DirEntries(s, dir)[e := x]
    && 0 < j < |s.inodes| && s.inodes[j].ftype != FTYPE_DIR
    && (forall k: nat :: k < |s.inodes| && k != j ==> t.inodes[k] == s.inodes[k])
    && (DirEntries(s, dir)[e].ino == 0 || DirEntries(s, dir)[e].ino == j) && (x.ino == 0 || x.ino == j)
    && t.inodes[j].nlink + (if DirEntries(s, dir)[e].ino == j then 1 else 0) == s.inodes[j].nlink + (if x.ino == j then 1 else 0)
  }

  lemma TidyAfterRelink(s: FS, t: FS, dir: nat, e: nat, x: Entry, j: nat)
    requires Tidy(s) && Relinked(s, t, dir, e, x, j) && NamesOk(DirEntries(t, dir))
    requires t.inodes[j].nlink == 0 && t.inodes[j].ftype != FTYPE_SYMLINK ==> t.inodes[j].size == 0
    ensures Tidy(t)
  {
    hide DirEntries, LinkCount, NamesOk;
    forall i: nat | i < |t.inodes| && t.inodes[i].ftype == FTYPE_DIR
      ensures DirOk(t, i)
    {
      assert DirOk(s, i);
      assert DirEntries(t, i) == if i == dir then DirEntries(s, dir)[e := x] else DirEntries(s, i);
    }
    forall k: nat | k < |t.inodes| && t.inodes[k].ftype != FTYPE_DIR
      ensures LinkOk(t, k)
    {
      assert LinkOk(s, k);
      LinksAfterEntry(s, t, dir, e, x, k);
    }
  }

  /** Changing the contents of one file or link leaves the names alone. */
  lemma TidyAfterContent(s: FS, t: FS, j: nat)
    requires Tidy(s) && DirsSame(s, t, |s.inodes|) && j < |s.inodes| && s.inodes[j].ftype != FTYPE_DIR
    requires forall k: nat :: k < |s.inodes| && k != j ==> t.inodes[k] == s.inodes[k]
    requires t.inodes[j].nlink == s.inodes[j].nlink && t.inodes[j].ftype == s.inodes[j].ftype
    ensures Tidy(t) <==> (s.inodes[j].nlink == 0 && s.inodes[j].ftype != FTYPE_SYMLINK ==> t.inodes[j].size == 0)
  {
    hide DirEntries, NamesOk;
    forall i: nat | i < |t.inodes| && t.inodes[i].ftype == FTYPE_DIR
      ensures DirOk(t, i)
    {
      assert DirOk(s, i);
    }
    forall k: nat | k < |t.inodes| && t.inodes[k].ftype != FTYPE_DIR
      ensures LinkOk(s, k) && LinkCount(t, k) == LinkCount(s, k)
      ensures k != j ==> LinkOk(t, k)
    {
      CountAllSame(s, t, k, |s.inodes|);
    }
  }

  /** A directory that got one more, blank, block is still a directory with the same names. */
  lemma TidyAfterGrowth(s: FS, t: FS, dir: nat)
    requires Tidy(s) && DirsSame(s, t, dir) && dir < |s.inodes| && s.inodes[dir].ftype == FTYPE_DIR
    requires forall k: nat :: k < |s.inodes| && k != dir ==> t.inodes[k] == s.inodes[k]
    requires t.inodes[dir].nlink == s.inodes[dir].nlink && t.inodes[dir].size % BLKSIZE == 0
    requires DirEntries(t, dir) == DirEntries(s, dir) + Blanks(PER_BLOCK)
    ensures Tidy(t)
  {
    hide DirEntries, NamesOk;
    assert DirOk(s, dir);
    BlanksAdded(DirEntries(s, dir), PER_BLOCK);
    forall i: nat | i < |t.inodes| && t.inodes[i].ftype == FTYPE_DIR
      ensures DirOk(t, i)
    {
      assert DirOk(s, i);
      assert i != dir ==> DirEntries(t, i) == DirEntries(s, i);
    }
    forall k: nat | k < |t.inodes| && t.inodes[k].ftype != FTYPE_DIR
      ensures LinkOk(t, k)
    {
      assert LinkOk(s, k);
      if k > 0 {
        CountAllOneDir(s, t, dir, k, |s.inodes|);
        CountBlanks(DirEntries(s, dir), PER_BLOCK, k);
      }
    }
  }

  // ----- the block level -----

  lemma InodeReplaced(s: FS, own: Owners, t: FS, j: nat, x: Inode)
    requires Consistent(s, own) && j < |s.inodes| && FileOk(s.disk, x, j, own) && t == s.(inodes := s.inodes[j := x])
    ensures Consistent(t, own) && OthersSame(s, own, t, own, j)
  {
    hide FileOk;
    ConsistentFromOneFile(s, own, t, own, j);
  }

  /** An inode without blocks can be reinitialised as an empty file or as a symbolic link. */
  lemma FreshInodeOk(s: FS, own: Owners, j: nat, x: Inode)
    requires Consistent(s, own) && j < |s.inodes| && NBlocks(s.inodes[j]) == 0
    requires x.ftype == FTYPE_SYMLINK || (x.size == 0 && x.ptrs.indirect == 0)
    ensures FileOk(s.disk, x, j, own)
  {
    assert FileOk(s.disk, s.inodes[j], j, own);
    forall slot
      ensures !Needs(0, slot)
      ensures ScannedAsUnused(0, slot) ==> At(s.disk, Tree(x), slot) == 0
    {
      match slot case Data(k) => case Ind => case Ind2 => case Sub(t) =>
    }
  }

  /** A block of a directory was rewritten so that one entry changed. */
  ghost predicate EntrySet(s: FS, own: Owners, t: FS, dir: nat, e: nat, x: Entry) {
    && dir < |s.inodes| && Consistent(t, own) && OthersSame(s, own, t, own, dir) && t.inodes == s.inodes && t.free == s.free
    && e < |DirEntries(s, dir)| && DirEntries(t, dir) == DirEntries(s, dir)[e := x]
  }

  lemma EntryStored(s: FS, own: Owners, t: FS, dir: nat, e: nat, b: nat, blk: Block, x: Entry)
    requires Consistent(s, own) && dir < |s.inodes| && s.inodes[dir].ftype != FTYPE_SYMLINK && e < |DirEntries(s, dir)|
    requires Stored(s, own, t, dir, NBlocks(s.inodes[dir]), e / PER_BLOCK, b, blk)
    requires forall j: nat :: j < PER_BLOCK ==>
               EntryIn(blk, j) == if j == e % PER_BLOCK then x else EntryIn(DataBytes(s.disk, s.inodes[dir].ptrs, e / PER_BLOCK), j)
    ensures EntrySet(s, own, t, dir, e, x)
  {
    var n := NBlocks(s.inodes[dir]);
    StoredKeeps(s, own, t, dir, n, e / PER_BLOCK, b, blk);
    hide Consistent, OthersSame, DataBytes, EntryIn;
    EntriesAfterStore(s.disk, t.disk, s.inodes[dir].ptrs, n, e, blk, x);
  }

  /** What changing one inode or the blocks of one file does to the directories. */
  lemma DirsSameFromOthers(s: FS, own: Owners, t: FS, own': Owners, i: nat)
    requires Consistent(s, own) && OthersSame(s, own, t, own', i)
    requires s.inodes[i].ftype == FTYPE_DIR <==> t.inodes[i].ftype == FTYPE_DIR
    ensures DirsSame(s, t, i)
  {
    forall j: nat | j < |s.inodes| && j != i && s.inodes[j].ftype == FTYPE_DIR
      ensures DirEntries(t, j) == DirEntries(s, j)
    {
      OtherEntries(s, own, t, own', i, j);
    }
  }
}
