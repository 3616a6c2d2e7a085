/** create, link, symlink and unlink: names, link counts and blocks stay in step. */
module Namespace {
  import opened Words
  import opened BlockTree
  import opened FileSystem
  import opened Ownership
  import opened Appending
  import opened Image
  import opened FileSize
  import opened SizeChange
  import opened FileIO
  import opened Directories
  import opened Links
  import opened DirOps

  const ENOENT: int := 2
  const MAXSYMLINKLEN: nat := 51

  /** Files other than a and b have the inode and the contents they had. */
  ghost predicate FilesSame(s: FS, t: FS, a: nat, b: nat) {
    && |t.inodes| == |s.inodes|
    && forall k: nat :: k < |s.inodes| && k != a && k != b ==>
         t.inodes[k] == s.inodes[k] && (s.inodes[k].ftype != FTYPE_SYMLINK ==> RawOf(t, k) == RawOf(s, k))
  }

  lemma FilesSameFromOthers(s: FS, own: Owners, t: FS, own': Owners, i: nat)
    requires Consistent(s, own) && OthersSame(s, own, t, own', i)
    ensures FilesSame(s, t, i, i)
  {
    forall k: nat | k < |s.inodes| && k != i && s.inodes[k].ftype != FTYPE_SYMLINK
      ensures RawOf(t, k) == RawOf(s, k)
    {
      OthersContent(s, own, t, own', i, k);
    }
  }

  lemma DirsSameTransitive(s: FS, t: FS, u: FS, dir: nat, j: nat)
    requires DirsSame(s, t, dir) && DirsSame(t, u, j) && j < |s.inodes| && s.inodes[j].ftype != FTYPE_DIR
    ensures DirsSame(s, u, dir)
    ensures dir != j && dir < |s.inodes| && s.inodes[dir].ftype == FTYPE_DIR ==> DirEntries(u, dir) == DirEntries(t, dir)
  {
    forall i: nat | i < |s.inodes| && i != dir && s.inodes[i].ftype == FTYPE_DIR
      ensures DirEntries(u, i) == DirEntries(s, i)
    {
      assert i != j;
    }
  }

  /** Entry e of directory 'dir' became x and inode j became y; nothing else changed. */
  ghost predicate Named(s: FS, own: Owners, t: FS, dir: nat, e: nat, x: Entry, j: nat, y: Inode) {
    && Consistent(t, own) && dir < |s.inodes| && j < |s.inodes| && dir != j
    && t.inodes == s.inodes[j := y] && t.free == s.free && FilesSame(s, t, dir, j) && DirsSame(s, t, dir)
    && e < |DirEntries(s, dir)| && DirEntries(t, dir) == DirEntries(s, dir)[e := x]
  }

  /** First the inode, then the entry. */
  lemma InodeThenEntry(s: FS, own: Owners, u: FS, t: FS, dir: nat, e: nat, x: Entry, j: nat, y: Inode)
    requires Consistent(s, own) && dir < |s.inodes| && s.inodes[dir].ftype == FTYPE_DIR && j < |s.inodes|
    requires s.inodes[j].ftype != FTYPE_DIR && y.ftype != FTYPE_DIR && FileOk(s.disk, y, j, own)
    requires u == s.(inodes := s.inodes[j := y]) && EntrySet(u, own, t, dir, e, x)
    ensures Named(s, own, t, dir, e, x, j, y)
  {
    InodeReplaced(s, own, u, j, y);
    hide Consistent, OthersSame, DirEntries, RawOf, FileOk;
    DirsSameFromOthers(s, own, u, own, j);
    DirsSameFromOthers(u, own, t, own, dir);
    FilesSameFromOthers(s, own, u, own, j);
    FilesSameFromOthers(u, own, t, own, dir);
    assert DirEntries(u, dir) == DirEntries(s, dir);
    forall i: nat | i < |s.inodes| && i != dir && s.inodes[i].ftype == FTYPE_DIR
      ensures DirEntries(t, i) == DirEntries(s, i)
    {
      assert DirEntries(u, i) == DirEntries(s, i);
    }
  }

  lemma SameTreeSameRaw(s: FS, t: FS, i: nat)
    requires t.disk == s.disk && i < |s.inodes| == |t.inodes| && t.inodes[i].ptrs == s.inodes[i].ptrs
    requires NBlocks(t.inodes[i]) == NBlocks(s.inodes[i])
    ensures RawOf(t, i) == RawOf(s, i)
  {
  }

  /** First the entry, then the inode. */
  lemma EntryThenInode(s: FS, own: Owners, u: FS, t: FS, dir: nat, e: nat, x: Entry, j: nat, y: Inode)
    requires Consistent(s, own) && dir < |s.inodes| && s.inodes[dir].ftype == FTYPE_DIR && j < |s.inodes|
    requires s.inodes[j].ftype != FTYPE_DIR && y == s.inodes[j].(nlink := y.nlink)
    requires EntrySet(s, own, u, dir, e, x) && t == u.(inodes := u.inodes[j := y])
    ensures Named(s, own, t, dir, e, x, j, y)
    ensures s.inodes[j].ftype != FTYPE_SYMLINK ==> RawOf(t, j) == RawOf(s, j)
  {
    assert FileOk(u.disk, u.inodes[j], j, own);
    assert FileOk(u.disk, y, j, own);
    InodeReplaced(u, own, t, j, y);
    hide Consistent, OthersSame, DirEntries, RawOf, FileOk;
    DirsSameFromOthers(s, own, u, own, dir);
    DirsSameFromOthers(u, own, t, own, j);
    DirsSameTransitive(s, u, t, dir, j);
    FilesSameFromOthers(s, own, u, own, dir);
    FilesSameFromOthers(u, own, t, own, j);
    if s.inodes[j].ftype != FTYPE_SYMLINK {
      assert RawOf(u, j) == RawOf(s, j);
      SameTreeSameRaw(u, t, j);
    }
  }

  // ----- room for a name -----

  /** Making room keeps the image sound and changes no name. */
  lemma RoomIsSound(s: FS, own: Owners, t: FS, own': Owners, dir: nat, e: nat)
    requires Sound(s, own) && IsDir(s, own, dir) && Room(s, own, t, own', dir, e)
    ensures Sound(t, own') && FilesSame(s, t, dir, dir) && |t.inodes| == |s.inodes|
    ensures t.inodes[dir] == s.inodes[dir].(size := t.inodes[dir].size, ptrs := t.inodes[dir].ptrs)
    ensures NameMap(DirEntries(t, dir)) == NameMap(DirEntries(s, dir)) && NamesOk(DirEntries(t, dir))
    ensures forall name :: HasName(DirEntries(t, dir), name) <==> HasName(DirEntries(s, dir), name)
  {
    assert DirOk(s, dir);
    if t == s && own' == own {
    } else {
      hide FirstBlank, NoBlanks;
      GrownDirIsSound(s, own, t, own', dir);
      var es := DirEntries(s, dir);
      BlanksAdded(es, PER_BLOCK);
      forall name: seq<byte>
        ensures HasName(es + Blanks(PER_BLOCK), name) <==> HasName(es, name)
      {
        NameMapIs(es, name);
        NameMapIs(es + Blanks(PER_BLOCK), name);
      }
    }
  }

  lemma GrownDirIsSound(s: FS, own: Owners, t: FS, own': Owners, dir: nat)
    requires Sound(s, own) && IsDir(s, own, dir) && Grew(s, own, t, own', dir) && Consistent(t, own')
    ensures Sound(t, own') && FilesSame(s, t, dir, dir)
    ensures t.inodes[dir] == s.inodes[dir].(size := t.inodes[dir].size, ptrs := t.inodes[dir].ptrs)
  {
    hide Consistent, TreeResized, OwnersResized, OthersKeep, Tidy, NoBlanks, FirstBlank;
    GrownDir(s, own, t, own', dir);
    var n := NBlocks(s.inodes[dir]);
    assert GrewTo(s, own, t, own', dir, n, n + 1);
    DirsSameFromOthers(s, own, t, own', dir);
    FilesSameFromOthers(s, own, t, own', dir);
    TidyAfterGrowth(s, t, dir);
  }

  lemma NamesAreOk(s: FS, own: Owners, dir: nat)
    requires Sound(s, own) && dir < |s.inodes| && s.inodes[dir].ftype == FTYPE_DIR
    ensures NamesOk(DirEntries(s, dir)) && Tidy(s) && IsDir(s, own, dir) && s.inodes[dir].nlink > 0
  {
    assert DirOk(s, dir);
  }

  /** A new name for a free inode, or one more for a file that has some. */
  lemma NamedIsSound(s: FS, own: Owners, t: FS, dir: nat, e: nat, name: seq<byte>, j: u32, y: Inode)
    requires Sound(s, own) && IsDir(s, own, dir) && 0 < j < |s.inodes| && s.inodes[j].ftype != FTYPE_DIR && y.ftype != FTYPE_DIR
    requires Named(s, own, t, dir, e, Entry(j, name), j, y) && !DirEntries(s, dir)[e].Live()
    requires !HasName(DirEntries(s, dir), name) && |name| <= MAXNAMELEN
    requires y.nlink == s.inodes[j].nlink + 1 && !Stale(y)
    ensures Sound(t, own) && NameMap(DirEntries(t, dir)) == NameMap(DirEntries(s, dir))[name := j]
  {
    hide Consistent, DirEntries, RawOf, NamesOk, NameMap, Tidy, FilesSame, HasName;
    NamesAreOk(s, own, dir);
    NameAdded(DirEntries(s, dir), e, name, j);
    assert Relinked(s, t, dir, e, Entry(j, name), j);
    TidyAfterRelink(s, t, dir, e, Entry(j, name), j);
  }

  /** A name written next to inode number 0 is no name. */
  lemma UnnamedIsSound(s: FS, own: Owners, t: FS, dir: nat, e: nat, name: seq<byte>)
    requires Sound(s, own) && IsDir(s, own, dir) && EntrySet(s, own, t, dir, e, Entry(0, name)) && !DirEntries(s, dir)[e].Live()
    ensures Sound(t, own) && NameMap(DirEntries(t, dir)) == NameMap(DirEntries(s, dir)) && FilesSame(s, t, dir, dir)
  {
    assert DirOk(s, dir);
    hide Consistent, DirEntries, RawOf, NamesOk, NameMap, Tidy;
    BlankRenamed(DirEntries(s, dir), e, name);
    DirsSameFromOthers(s, own, t, own, dir);
    FilesSameFromOthers(s, own, t, own, dir);
    TidyAfterBlank(s, t, dir, e, name);
  }

  lemma TidyAfterBlank(s: FS, t: FS, dir: nat, e: nat, name: seq<byte>)
    requires Tidy(s) && DirsSame(s, t, dir) && dir < |s.inodes| && s.inodes[dir].ftype == FTYPE_DIR && t.inodes == s.inodes
    requires e < |DirEntries(s, dir)| && !DirEntries(s, dir)[e].Live() && DirEntries(t, dir) == DirEntries(s, dir)[e := Entry(0, name)]
    requires NamesOk(DirEntries(t, dir))
    ensures Tidy(t)
  {
    hide DirEntries, LinkCount, NamesOk;
    forall i: nat | i < |t.inodes| && t.inodes[i].ftype == FTYPE_DIR
      ensures DirOk(t, i)
    {
      assert DirOk(s, i);
      assert i != dir ==> DirEntries(t, i) == DirEntries(s, i);
    }
    forall k: nat | k < |t.inodes| && t.inodes[k].ftype != FTYPE_DIR
      ensures LinkOk(t, k)
    {
      assert LinkOk(s, k);
      LinksAfterEntry(s, t, dir, e, Entry(0, name), k);
    }
  }

  // ----- writing entries and inodes -----

  lemma PlaceMeans(s: FS, own: Owners, dir: nat, e: nat, b: u32, j: nat, blk: Block, t: FS, x: Entry)
    requires Consistent(s, own) && Place(s, dir, e, b, j) && s.inodes[dir].ftype != FTYPE_SYMLINK
    requires t == s.(disk := s.disk[b := CellOf(blk)])
    requires forall k: nat :: k < PER_BLOCK ==> EntryIn(blk, k) == if k == j then x else EntryIn(BytesAt(s.disk, b), k)
    ensures EntrySet(s, own, t, dir, e, x)
  {
    assert Stored(s, own, t, dir, NBlocks(s.inodes[dir]), e / PER_BLOCK, b, blk);
    EntryStored(s, own, t, dir, e, b, blk, x);
  }

  /** The name, a terminating zero, and then the inode number. */
  method WriteEntry(fs: Ospfs, dir: nat, ghost e: nat, b: u32, j: nat, name: seq<byte>, ino: u32)
    requires fs.Valid() && Consistent(fs.View(), fs.own) && Place(fs.View(), dir, e, b, j)
    requires fs.View().inodes[dir].ftype != FTYPE_SYMLINK && |name| <= MAXNAMELEN && 0 !in name
    modifies fs.data
    ensures fs.Valid() && EntrySet(old(fs.View()), fs.own, fs.View(), dir, e, Entry(ino, name))
  {
    hide ViewOf, HasGeometry, Consistent, EntryIn, PutEntry, EntrySet, DirEntries;
    ghost var s := fs.View();
    var blk := fs.Bytes(b);
    fs.PokeBlock(b, PutEntry(blk, j, name, ino));
    forall k: nat | k < PER_BLOCK
      ensures EntryIn(PutEntry(blk, j, name, ino), k) == if k == j then Entry(ino, name) else EntryIn(BytesAt(s.disk, b), k)
    {
      EntryAfterPut(blk, j, name, ino, k);
    }
    PlaceMeans(s, fs.own, dir, e, b, j, PutEntry(blk, j, name, ino), fs.View(), Entry(ino, name));
  }

  /** The entry becomes an empty one; its name stays. */
  method ClearEntry(fs: Ospfs, dir: nat, ghost e: nat, b: u32, j: nat)
    requires fs.Valid() && Consistent(fs.View(), fs.own) && Place(fs.View(), dir, e, b, j)
    requires fs.View().inodes[dir].ftype != FTYPE_SYMLINK
    modifies fs.data
    ensures fs.Valid() && EntrySet(old(fs.View()), fs.own, fs.View(), dir, e, old(DirEntries(fs.View(), dir)[e]).(ino := 0))
  {
    hide ViewOf, HasGeometry, Consistent, EntryIn, PutWord, EntrySet;
    ghost var s := fs.View();
    var blk := fs.Bytes(b);
    ghost var x := DirEntries(s, dir)[e];
    assert x == EntryIn(BytesAt(s.disk, b), j);
    fs.PokeBlock(b, PutWord(blk, 32 * j, 0));
    forall k: nat | k < PER_BLOCK
      ensures EntryIn(PutWord(blk, 32 * j, 0), k) == if k == j then x.(ino := 0) else EntryIn(BytesAt(s.disk, b), k)
    {
      EntryAfterIno(blk, j, 0, k);
    }
    PlaceMeans(s, fs.own, dir, e, b, j, PutWord(blk, 32 * j, 0), fs.View(), x.(ino := 0));
  }

  /** The lowest inode from 2 on that has no links. */
  ghost predicate FreeInode(s: FS, j: nat) {
    2 <= j < |s.inodes| && s.inodes[j].nlink == 0 && forall k :: 2 <= k < j ==> s.inodes[k].nlink > 0
  }

  ghost predicate NoFreeInode(s: FS) { forall k :: 2 <= k < |s.inodes| ==> s.inodes[k].nlink > 0 }

  /** Returns 0 when there is none. */
  method FindFreeInode(fs: Ospfs) returns (j: u32)
    requires fs.Valid()
    ensures if j == 0 then NoFreeInode(fs.View()) else FreeInode(fs.View(), j)
  {
    hide ViewOf, HasGeometry;
    j := 2;
    while j < fs.NInodes()
      invariant j >= 2 && forall k :: 2 <= k < j && k < |fs.View().inodes| ==> fs.View().inodes[k].nlink > 0
    {
      if fs.Oi(j).nlink == 0 {
        return;
      }
      j := j + 1;
    }
    j := 0;
  }

  /** The inode of a new file. Only the first ten bytes of the direct pointers are cleared. */
  function NewFile(x: Inode, mode: u32): Inode {
    Inode(0, FTYPE_REG, 1, mode,
          Pointers(x.ptrs.direct[0 := 0][1 := 0][2 := x.ptrs.direct[2] / 65536 * 65536], 0, 0))
  }

  /**
   * The inode of a new file, field by field: an empty regular file with one link and this mode, without pointer blocks;
   * of the direct pointers only ten bytes are zero, the rest is what inode x had there.
   */
  ghost predicate IsNewFile(x: Inode, y: Inode, mode: u32) {
    && y.size == 0 && y.ftype == FTYPE_REG && y.nlink == 1 && y.mode == mode
    && y.ptrs.indirect == 0 && y.ptrs.indirect2 == 0 && y.ptrs.direct[0] == 0 && y.ptrs.direct[1] == 0
    && y.ptrs.direct[2] % 65536 == 0 && y.ptrs.direct[2] / 65536 == x.ptrs.direct[2] / 65536
    && forall k :: 3 <= k < NDIRECT ==> y.ptrs.direct[k] == x.ptrs.direct[k]
  }

  lemma NewFileIsNew(x: Inode, mode: u32)
    ensures IsNewFile(x, NewFile(x, mode), mode)
  {
  }

  method InitFile(fs: Ospfs, j: nat, mode: u32)
    requires fs.Valid() && j < |fs.View().inodes|
    modifies fs.data
    ensures fs.Valid() && j < |fs.View().inodes| && IsNewFile(old(fs.View()).inodes[j], fs.View().inodes[j], mode)
    ensures fs.View() == old(fs.View()).(inodes := old(fs.View()).inodes[j := NewFile(old(fs.View()).inodes[j], mode)])
  {
    hide ViewOf, HasGeometry;
    var x := fs.Oi(j);
    fs.PokeInode(j, 0, 0);
    fs.PokeInode(j, 2, 1);
    fs.PokeInode(j, 1, FTYPE_REG);
    fs.PokeInode(j, 3, mode);
    fs.PokeInode(j, F_DIRECT, 0);
    fs.PokeInode(j, F_DIRECT + 1, 0);
    fs.PokeInode(j, F_DIRECT + 2, x.ptrs.direct[2] / 65536 * 65536);
    fs.PokeInode(j, F_INDIRECT, 0);
    fs.PokeInode(j, F_INDIRECT2, 0);
    NewFileIsNew(x, mode);
  }

  // ----- ospfs_create -----

  /** 'name' in directory 'dir' now means inode j, which is y; no other name and no other file changed. */
  ghost predicate NameGiven(s: FS, t: FS, own': Owners, dir: nat, name: seq<byte>, j: u32, y: Inode) {
    && Sound(t, own') && dir < |s.inodes| == |t.inodes| && j < |s.inodes| && FilesSame(s, t, dir, j) && t.inodes[j] == y
    && t.inodes[dir] == s.inodes[dir].(size := t.inodes[dir].size, ptrs := t.inodes[dir].ptrs)
    && NameMap(DirEntries(t, dir)) == NameMap(DirEntries(s, dir))[name := j]
  }

  /** Nothing got a name; the directory may have grown. */
  ghost predicate NoNameGiven(s: FS, t: FS, own': Owners, dir: nat) {
    && Sound(t, own') && dir < |s.inodes| == |t.inodes| && FilesSame(s, t, dir, dir)
    && t.inodes[dir] == s.inodes[dir].(size := t.inodes[dir].size, ptrs := t.inodes[dir].ptrs)
    && NameMap(DirEntries(t, dir)) == NameMap(DirEntries(s, dir))
  }

  /** The error that create, link and symlink return, if any. */
  ghost function NameError(s: FS, dir: nat, name: seq<byte>): int
    requires dir < |s.inodes|
  {
    if |name| > MAXNAMELEN then -ENAMETOOLONG
    else if HasName(DirEntries(s, dir), name) then -EEXIST
    else if !HasRoom(s, dir) then -ENOSPC
    else 0
  }

  /** Nothing changed at all, or a failed add_block changed what Refused allows. */
  ghost predicate NameRefused(s: FS, own: Owners, t: FS, own': Owners, dir: nat, r: int) {
    if r == -ENOSPC then Refused(s, own, t, own', dir) && Consistent(t, own') else t == s && own' == own
  }

  /** Everything up to and including create_blank_direntry, which the three operations share. */
  method ReserveName(fs: Ospfs, dir: nat, name: seq<byte>) returns (r: int, b: u32, j: nat, ghost e: nat)
    requires fs.Valid() && Sound(fs.View(), fs.own) && dir < |fs.View().inodes| && fs.View().inodes[dir].ftype == FTYPE_DIR
    modifies fs`own, fs.data
    ensures fs.Valid() && r == NameError(old(fs.View()), dir, name)
    ensures r == 0 ==> Room(old(fs.View()), old(fs.own), fs.View(), fs.own, dir, e) && Place(fs.View(), dir, e, b, j)
    ensures r != 0 ==> NameRefused(old(fs.View()), old(fs.own), fs.View(), fs.own, dir, r)
  {
    hide ViewOf, HasGeometry, Sound, Room, Place, Refused, HasRoom, Consistent, NamesOk, DirEntries;
    b, j, e := 0, 0, 0;
    if |name| > MAXNAMELEN {
      return -ENAMETOOLONG, b, j, e;
    }
    NamesAreOk(fs.View(), fs.own, dir);
    var found;
    found, b, j, e := FindDirentry(fs, dir, name);
    if found {
      return -EEXIST, b, j, e;
    }
    r, b, j, e := CreateBlankDirentry(fs, dir);
  }

  /** An inode without links has no blocks, and is no directory. */
  lemma FreeInodeIsEmpty(s: FS, own: Owners, j: nat)
    requires Sound(s, own) && j < |s.inodes| && s.inodes[j].nlink == 0
    ensures NBlocks(s.inodes[j]) == 0 && s.inodes[j].ftype != FTYPE_DIR
  {
    assert s.inodes[j].ftype == FTYPE_DIR ==> DirOk(s, j);
    assert s.inodes[j].ftype != FTYPE_DIR ==> LinkOk(s, j);
  }

  /** The free inode is the same before and after the directory grew. */
  lemma RoomKeepsFree(s: FS, own: Owners, t: FS, own': Owners, dir: nat, e: nat)
    requires Sound(s, own) && IsDir(s, own, dir) && Room(s, own, t, own', dir, e)
    ensures |t.inodes| == |s.inodes| && t.inodes[dir].nlink == s.inodes[dir].nlink
    ensures forall k :: 0 <= k < |s.inodes| && k != dir ==> t.inodes[k] == s.inodes[k]
    ensures IsDir(t, own', dir) && !DirEntries(t, dir)[e].Live()
  {
    hide DirEntries, Tidy, RawOf;
    RoomIsSound(s, own, t, own', dir, e);
    RoomIsBlank(s, own, t, own', dir, e);
  }

  lemma RoomIsBlank(s: FS, own: Owners, t: FS, own': Owners, dir: nat, e: nat)
    requires Room(s, own, t, own', dir, e)
    ensures !DirEntries(t, dir)[e].Live()
  {
  }

  /** The inode was made, then the entry. */
  lemma MadeName(s: FS, own: Owners, s1: FS, own1: Owners, u: FS, t: FS, dir: nat, e: nat, name: seq<byte>, j: u32, y: Inode)
    requires Sound(s, own) && IsDir(s, own, dir) && Room(s, own, s1, own1, dir, e)
    requires !HasName(DirEntries(s, dir), name) && |name| <= MAXNAMELEN
    requires 0 < j < |s1.inodes| && s1.inodes[j].nlink == 0 && y.nlink == 1 && y.ftype != FTYPE_DIR && !Stale(y)
    requires y.ftype == FTYPE_SYMLINK || (y.size == 0 && y.ptrs.indirect == 0)
    requires u == s1.(inodes := s1.inodes[j := y]) && EntrySet(u, own1, t, dir, e, Entry(j, name))
    ensures NameGiven(s, t, own1, dir, name, j, y) && j != dir
  {
    hide DirEntries, RawOf, FileOk, NamesOk, HasName, NameMap, Tidy, Consistent, EntrySet, Room;
    RoomIsSound(s, own, s1, own1, dir, e);
    RoomKeepsFree(s, own, s1, own1, dir, e);
    FreeInodeIsEmpty(s1, own1, j);
    FreshInodeOk(s1, own1, j, y);
    InodeThenEntry(s1, own1, u, t, dir, e, Entry(j, name), j, y);
    NamedIsSound(s1, own1, t, dir, e, name, j, y);
    FilesSameWider(s, s1, t, dir, j);
  }

  lemma FilesSameWider(s: FS, s1: FS, t: FS, dir: nat, j: nat)
    requires FilesSame(s, s1, dir, dir) && FilesSame(s1, t, dir, j)
    ensures FilesSame(s, t, dir, j)
  {
  }

  /** There was no inode to make: only the name was written. */
  lemma MadeNoName(s: FS, own: Owners, s1: FS, own1: Owners, t: FS, dir: nat, e: nat, name: seq<byte>)
    requires Sound(s, own) && IsDir(s, own, dir) && Room(s, own, s1, own1, dir, e)
    requires EntrySet(s1, own1, t, dir, e, Entry(0, name))
    ensures NoNameGiven(s, t, own1, dir)
  {
    hide DirEntries, RawOf, NamesOk, HasName, NameMap, Tidy, Consistent, OthersSame, Room;
    RoomIsSound(s, own, s1, own1, dir, e);
    RoomKeepsFree(s, own, s1, own1, dir, e);
    UnnamedIsSound(s1, own1, t, dir, e, name);
    FilesSameWider(s, s1, t, dir, dir);
  }

  lemma SameFreeInode(s: FS, t: FS, dir: nat)
    requires |t.inodes| == |s.inodes| && dir < |s.inodes| && t.inodes[dir].nlink == s.inodes[dir].nlink
    requires forall k :: 0 <= k < |s.inodes| && k != dir ==> t.inodes[k] == s.inodes[k]
    ensures NoFreeInode(t) <==> NoFreeInode(s)
    ensures forall j: nat :: FreeInode(t, j) <==> FreeInode(s, j)
  {
    assert forall k :: 0 <= k < |s.inodes| ==> t.inodes[k].nlink == s.inodes[k].nlink;
  }

  lemma RoomIs(s: FS, own: Owners, t: FS, own': Owners, dir: nat, e: nat)
    requires Room(s, own, t, own', dir, e)
    ensures Consistent(t, own') && dir < |t.inodes| && t.inodes[dir].ftype == FTYPE_DIR
  {
  }

  /**
   * ospfs_create. It returns 0 also when every inode is taken: then the name is written without an inode number, and
   * no file exists under it ('made' is 0).
   */
  method Create(fs: Ospfs, dir: nat, name: seq<byte>, mode: u32) returns (r: int, ghost made: u32)
    requires fs.Valid() && Sound(fs.View(), fs.own) && dir < |fs.View().inodes| && fs.View().inodes[dir].ftype == FTYPE_DIR
    requires 0 !in name
    modifies fs`own, fs.data
    ensures fs.Valid() && r == NameError(old(fs.View()), dir, name)
    ensures r != 0 ==> NameRefused(old(fs.View()), old(fs.own), fs.View(), fs.own, dir, r)
    ensures r == 0 && made == 0 ==> NoFreeInode(old(fs.View())) && NoNameGiven(old(fs.View()), fs.View(), fs.own, dir)
    ensures r == 0 && made != 0 ==> FreeInode(old(fs.View()), made) && made != dir && made < |fs.View().inodes|
    ensures r == 0 && made != 0 ==> IsNewFile(old(fs.View()).inodes[made], fs.View().inodes[made], mode)
    ensures r == 0 && made != 0 ==> NameGiven(old(fs.View()), fs.View(), fs.own, dir, name, made, fs.View().inodes[made])
  {
    hide ViewOf, HasGeometry, Sound, Room, Refused, HasRoom, Consistent, NameGiven, NoNameGiven, EntrySet, DirEntries, At;
    hide IsNewFile;
    ghost var s, own := fs.View(), fs.own;
    var b, j;
    ghost var e;
    r, b, j, e := ReserveName(fs, dir, name);
    made := 0;
    if r != 0 {
      return;
    }
    ghost var s1, own1 := fs.View(), fs.own;
    NamesAreOk(s, own, dir);
    RoomIs(s, own, s1, own1, dir, e);
    RoomKeepsFree(s, own, s1, own1, dir, e);
    SameFreeInode(s, s1, dir);
    var entryIno := FindFreeInode(fs);
    made := entryIno;
    if entryIno == 0 {
      WriteEntry(fs, dir, e, b, j, name, 0);
      MadeNoName(s, own, s1, own1, fs.View(), dir, e, name);
    } else {
      RoomIsSound(s, own, s1, own1, dir, e);
      FreshFile(s1, own1, dir, entryIno, mode);
      InitFile(fs, entryIno, mode);
      ghost var u := fs.View();
      WriteEntry(fs, dir, e, b, j, name, entryIno);
      EntrySetInodes(u, own1, fs.View(), dir, e, Entry(entryIno, name));
      MadeName(s, own, s1, own1, u, fs.View(), dir, e, name, entryIno, NewFile(s.inodes[entryIno], mode));
    }
  }

  /** Initialising a free inode leaves the image consistent and the directory alone. */
  lemma FreshFile(s: FS, own: Owners, dir: nat, j: nat, mode: u32)
    requires Sound(s, own) && dir < |s.inodes| && s.inodes[dir].ftype == FTYPE_DIR && j < |s.inodes| && s.inodes[j].nlink == 0
    ensures j != dir && !Stale(NewFile(s.inodes[j], mode))
    ensures Consistent(s.(inodes := s.inodes[j := NewFile(s.inodes[j], mode)]), own)
  {
    hide FileOk, Tidy;
    NamesAreOk(s, own, dir);
    FreeInodeIsEmpty(s, own, j);
    FreshInodeOk(s, own, j, NewFile(s.inodes[j], mode));
    InodeReplaced(s, own, s.(inodes := s.inodes[j := NewFile(s.inodes[j], mode)]), j, NewFile(s.inodes[j], mode));
  }

  // ----- ospfs_link -----

  lemma LinkCountBound(s: FS, own: Owners, j: nat)
    requires Sound(s, own) && 0 < j < |s.inodes| && s.inodes[j].ftype != FTYPE_DIR
    ensures s.inodes[j].nlink == LinkCount(s, j) && s.inodes[j].nlink + 1 < TWO32
  {
    assert LinkOk(s, j);
    CountAllBound(s, own, j, |s.inodes|);
    assert |s.inodes| <= BLKINODES * 8 * BLKSIZE;
  }

  lemma LinkedName(s: FS, own: Owners, s1: FS, own1: Owners, u: FS, t: FS, dir: nat, e: nat, name: seq<byte>, j: u32, y: Inode)
    requires Sound(s, own) && IsDir(s, own, dir) && Room(s, own, s1, own1, dir, e)
    requires !HasName(DirEntries(s, dir), name) && |name| <= MAXNAMELEN
    requires 0 < j < |s.inodes| && s.inodes[j].ftype != FTYPE_DIR && s.inodes[j].nlink + 1 < TWO32
    requires y == s.inodes[j].(nlink := s.inodes[j].nlink + 1)
    requires EntrySet(s1, own1, u, dir, e, Entry(j, name)) && t == u.(inodes := u.inodes[j := y])
    ensures NameGiven(s, t, own1, dir, name, j, y)
    ensures s.inodes[j].ftype != FTYPE_SYMLINK ==> RawOf(t, j) == RawOf(s, j)
  {
    hide DirEntries, RawOf, FileOk, NamesOk, HasName, NameMap, Tidy, Consistent, EntrySet, Room;
    RoomIsSound(s, own, s1, own1, dir, e);
    RoomKeepsFree(s, own, s1, own1, dir, e);
    EntryThenInode(s1, own1, u, t, dir, e, Entry(j, name), j, y);
    NamedIsSound(s1, own1, t, dir, e, name, j, y);
    FilesSameWider(s, s1, t, dir, j);
  }

  method Link(fs: Ospfs, src: u32, dir: nat, name: seq<byte>) returns (r: int)
    requires fs.Valid() && Sound(fs.View(), fs.own) && dir < |fs.View().inodes| && fs.View().inodes[dir].ftype == FTYPE_DIR
    requires 0 < src < |fs.View().inodes| && fs.View().inodes[src].ftype != FTYPE_DIR && 0 !in name
    modifies fs`own, fs.data
    ensures fs.Valid() && r == NameError(old(fs.View()), dir, name)
    ensures r != 0 ==> NameRefused(old(fs.View()), old(fs.own), fs.View(), fs.own, dir, r)
    ensures r == 0 ==> old(fs.View()).inodes[src].nlink + 1 < TWO32
    ensures r == 0 ==> NameGiven(old(fs.View()), fs.View(), fs.own, dir, name, src,
                                 old(fs.View()).inodes[src].(nlink := old(fs.View()).inodes[src].nlink + 1))
    ensures r == 0 && old(fs.View()).inodes[src].ftype != FTYPE_SYMLINK ==> src < |fs.View().inodes| && RawOf(fs.View(), src) == old(RawOf(fs.View(), src))
  {
    hide ViewOf, HasGeometry, Sound, Room, Refused, HasRoom, Consistent, NameGiven, EntrySet, DirEntries, At, RawOf;
    ghost var s, own := fs.View(), fs.own;
    var b, j;
    ghost var e;
    r, b, j, e := ReserveName(fs, dir, name);
    if r != 0 {
      return;
    }
    ghost var s1, own1 := fs.View(), fs.own;
    NamesAreOk(s, own, dir);
    RoomIs(s, own, s1, own1, dir, e);
    RoomKeepsFree(s, own, s1, own1, dir, e);
    LinkCountBound(s, own, src);
    WriteEntry(fs, dir, e, b, j, name, src);
    ghost var u := fs.View();
    EntrySetInodes(s1, own1, u, dir, e, Entry(src, name));
    fs.PokeInode(src, 2, fs.Oi(src).nlink + 1);
    LinkedName(s, own, s1, own1, u, fs.View(), dir, e, name, src, s.inodes[src].(nlink := s.inodes[src].nlink + 1));
  }

  lemma EntrySetInodes(s: FS, own: Owners, t: FS, dir: nat, e: nat, x: Entry)
    requires EntrySet(s, own, t, dir, e, x)
    ensures t.inodes == s.inodes && Consistent(t, own) && t.free == s.free && dir < |s.inodes|
  {
  }

  // ----- ospfs_symlink -----

  method InitSymlink(fs: Ospfs, j: nat, target: seq<byte>)
    requires fs.Valid() && j < |fs.View().inodes| && |target| <= MAXSYMLINKLEN && 0 !in target
    modifies fs.data
    ensures fs.Valid() && j < |fs.View().inodes|
    ensures fs.View() == old(fs.View()).(inodes := old(fs.View()).inodes[j := fs.View().inodes[j]])
    ensures IsLinkTo(fs.View().inodes[j], target)
  {
    hide ViewOf, HasGeometry, CStr, TargetArea;
    fs.PokeInode(j, 0, |target|);
    fs.PokeInode(j, 2, 1);
    fs.PokeInode(j, 1, FTYPE_SYMLINK);
    fs.PokeTarget(j, target);
  }

  ghost predicate IsLinkTo(x: Inode, target: seq<byte>) {
    x.size == |target| && x.ftype == FTYPE_SYMLINK && x.nlink == 1 && CStr(TargetArea(x)) == target
  }

  lemma FreshLink(s: FS, own: Owners, dir: nat, j: nat, y: Inode, u: FS)
    requires Sound(s, own) && dir < |s.inodes| && s.inodes[dir].ftype == FTYPE_DIR && j < |s.inodes| && s.inodes[j].nlink == 0
    requires y.ftype == FTYPE_SYMLINK && u == s.(inodes := s.inodes[j := y])
    ensures j != dir && Consistent(u, own)
  {
    hide FileOk, Tidy;
    NamesAreOk(s, own, dir);
    FreeInodeIsEmpty(s, own, j);
    FreshInodeOk(s, own, j, y);
    InodeReplaced(s, own, u, j, y);
  }

  method Symlink(fs: Ospfs, dir: nat, name: seq<byte>, target: seq<byte>) returns (r: int, ghost made: u32)
    requires fs.Valid() && Sound(fs.View(), fs.own) && dir < |fs.View().inodes| && fs.View().inodes[dir].ftype == FTYPE_DIR
    requires 0 !in name && 0 !in target
    modifies fs`own, fs.data
    ensures fs.Valid() && r == if |target| > MAXSYMLINKLEN then -ENAMETOOLONG else NameError(old(fs.View()), dir, name)
    ensures r != 0 ==> NameRefused(old(fs.View()), old(fs.own), fs.View(), fs.own, dir, r)
    ensures r == 0 && made == 0 ==> NoFreeInode(old(fs.View())) && NoNameGiven(old(fs.View()), fs.View(), fs.own, dir)
    ensures r == 0 && made != 0 ==> FreeInode(old(fs.View()), made) && made != dir && made < |fs.View().inodes|
    ensures r == 0 && made != 0 ==> IsLinkTo(fs.View().inodes[made], target)
    ensures r == 0 && made != 0 ==> NameGiven(old(fs.View()), fs.View(), fs.own, dir, name, made, fs.View().inodes[made])
  {
    hide ViewOf, HasGeometry, Sound, Room, Refused, HasRoom, Consistent, NameGiven, NoNameGiven, EntrySet, DirEntries, At, CStr, TargetArea;
    ghost var s, own := fs.View(), fs.own;
    made := 0;
    if |name| > MAXNAMELEN || |target| > MAXSYMLINKLEN {
      return -ENAMETOOLONG, 0;
    }
    var b, j;
    ghost var e;
    r, b, j, e := ReserveName(fs, dir, name);
    if r != 0 {
      return;
    }
    ghost var s1, own1 := fs.View(), fs.own;
    NamesAreOk(s, own, dir);
    RoomIs(s, own, s1, own1, dir, e);
    RoomKeepsFree(s, own, s1, own1, dir, e);
    SameFreeInode(s, s1, dir);
    var entryIno := FindFreeInode(fs);
    made := entryIno;
    if entryIno == 0 {
      WriteEntry(fs, dir, e, b, j, name, 0);
      MadeNoName(s, own, s1, own1, fs.View(), dir, e, name);
    } else {
      RoomIsSound(s, own, s1, own1, dir, e);
      InitSymlink(fs, entryIno, target);
      ghost var u := fs.View();
      FreshLink(s1, own1, dir, entryIno, u.inodes[entryIno], u);
      WriteEntry(fs, dir, e, b, j, name, entryIno);
      EntrySetInodes(u, own1, fs.View(), dir, e, Entry(entryIno, name));
      MadeName(s, own, s1, own1, u, fs.View(), dir, e, name, entryIno, u.inodes[entryIno]);
    }
  }

  // ----- ospfs_unlink -----

  /** The entry found names the inode of the dentry, and that inode has a link to lose. */
  lemma EntryToRemove(s: FS, own: Owners, dir: nat, e: nat, ino: u32)
    requires Sound(s, own) && dir < |s.inodes| && s.inodes[dir].ftype == FTYPE_DIR && e < |DirEntries(s, dir)|
    requires DirEntries(s, dir)[e].Live() && NameMeans(s, dir, DirEntries(s, dir)[e].name, ino)
    requires 0 < ino < |s.inodes| && s.inodes[ino].ftype != FTYPE_DIR
    ensures DirEntries(s, dir)[e].ino == ino && s.inodes[ino].nlink > 0 && ino != dir
  {
    NamesAreOk(s, own, dir);
    NameMapIs(DirEntries(s, dir), DirEntries(s, dir)[e].name);
    assert LinkOk(s, ino);
    CountAllHas(s, dir, e, |s.inodes|);
  }

  /** If the directory has the name at all, it stands for this inode. */
  ghost predicate NameMeans(s: FS, dir: nat, name: seq<byte>, ino: u32)
    requires dir < |s.inodes|
  {
    name in NameMap(DirEntries(s, dir)) ==> NameMap(DirEntries(s, dir))[name] == ino
  }

  /** 'name' is gone from directory 'dir', no other name changed, and the inode it stood for has one link less. */
  ghost predicate NameTaken(s: FS, t: FS, own': Owners, dir: nat, name: seq<byte>, ino: u32) {
    && Sound(t, own') && dir < |s.inodes| == |t.inodes| && ino < |s.inodes| && FilesSame(s, t, dir, ino)
    && t.inodes[dir] == s.inodes[dir]
    && NameMap(DirEntries(t, dir)) == NameMap(DirEntries(s, dir)) - {name}
    && t.inodes[ino].nlink + 1 == s.inodes[ino].nlink && t.inodes[ino].ftype == s.inodes[ino].ftype
  }

  /** What the last unlink of a file does to its blocks, and every other unlink does not. */
  ghost predicate BlocksAfterUnlink(s: FS, own: Owners, t: FS, own': Owners, ino: u32) {
    && ino < |s.inodes| == |t.inodes|
    && if s.inodes[ino].nlink == 1 && s.inodes[ino].ftype != FTYPE_SYMLINK then
         t.inodes[ino].size == 0 && own' == Release(own, ino, 0)
       else
         && t.inodes[ino] == s.inodes[ino].(nlink := t.inodes[ino].nlink) && own' == own
         && (s.inodes[ino].ftype != FTYPE_SYMLINK ==> RawOf(t, ino) == RawOf(s, ino))
  }

  lemma UnlinkedIsSound(s: FS, own: Owners, v: FS, t: FS, own': Owners, dir: nat, e: nat, name: seq<byte>, ino: u32, y: Inode)
    requires Sound(s, own) && dir < |s.inodes| && s.inodes[dir].ftype == FTYPE_DIR && 0 < ino < |s.inodes| && s.inodes[ino].ftype != FTYPE_DIR
    requires e < |DirEntries(s, dir)| && DirEntries(s, dir)[e] == Entry(ino, name) && ino != dir
    requires y == s.inodes[ino].(nlink := y.nlink) && y.nlink + 1 == s.inodes[ino].nlink
    requires Named(s, own, v, dir, e, Entry(0, name), ino, y)
    requires Consistent(t, own') && OthersSame(v, own, t, own', ino)
    requires t.inodes[ino] == y.(size := t.inodes[ino].size, ptrs := t.inodes[ino].ptrs) && !Stale(t.inodes[ino])
    requires y.nlink == 0 && y.ftype != FTYPE_SYMLINK ==> t.inodes[ino].size == 0
    ensures NameTaken(s, t, own', dir, name, ino)
  {
    hide Consistent, DirEntries, RawOf, NamesOk, NameMap, Tidy, OthersKeep;
    NamesAreOk(s, own, dir);
    NameRemoved(DirEntries(s, dir), e);
    DirsSameFromOthers(v, own, t, own', ino);
    FilesSameFromOthers(v, own, t, own', ino);
    DirsSameTransitive(s, v, t, dir, ino);
    assert Relinked(s, t, dir, e, Entry(0, name), ino);
    TidyAfterRelink(s, t, dir, e, Entry(0, name), ino);
    FilesSameBoth(s, v, t, dir, ino);
  }

  lemma FilesSameBoth(s: FS, v: FS, t: FS, dir: nat, j: nat)
    requires FilesSame(s, v, dir, j) && FilesSame(v, t, j, j)
    ensures FilesSame(s, t, dir, j)
  {
  }

  /** Shrinking a file to nothing releases exactly its blocks. */
  lemma AllReleased(s: FS, own: Owners, t: FS, own': Owners, i: nat, n: nat)
    requires Consistent(s, own) && Consistent(t, own') && Resized(s, own, t, own', i, n, 0) && NBlocks(t.inodes[i]) == 0
    ensures own' == Release(own, i, 0)
  {
    assert FileOk(t.disk, t.inodes[i], i, own');
    assert forall slot :: !Needs(0, slot);
    assert own'.Keys == Release(own, i, 0).Keys;
  }

  method Unlink(fs: Ospfs, dir: nat, name: seq<byte>, ino: u32) returns (r: int)
    requires fs.Valid() && Sound(fs.View(), fs.own) && dir < |fs.View().inodes| && fs.View().inodes[dir].ftype == FTYPE_DIR
    requires 0 < ino < |fs.View().inodes| && fs.View().inodes[ino].ftype != FTYPE_DIR && NameMeans(fs.View(), dir, name, ino)
    modifies fs`own, fs.data
    ensures fs.Valid() && r == if HasName(old(DirEntries(fs.View(), dir)), name) then 0 else -ENOENT
    ensures r != 0 ==> fs.View() == old(fs.View()) && fs.own == old(fs.own)
    ensures r == 0 ==> NameTaken(old(fs.View()), fs.View(), fs.own, dir, name, ino)
    ensures r == 0 ==> BlocksAfterUnlink(old(fs.View()), old(fs.own), fs.View(), fs.own, ino)
  {
    hide ViewOf, HasGeometry, Sound, Consistent, NameTaken, BlocksAfterUnlink, EntrySet, DirEntries, At, NamesOk, Place, NameMap;
    ghost var s, own := fs.View(), fs.own;
    NamesAreOk(s, own, dir);
    var found, b, j;
    ghost var e;
    found, b, j, e := FindDirentry(fs, dir, name);
    if !found {
      return -ENOENT;
    }
    PlaceIs(s, dir, e, b, j);
    EntryToRemove(s, own, dir, e, ino);
    ClearEntry(fs, dir, e, b, j);
    ghost var u := fs.View();
    EntrySetInodes(s, own, u, dir, e, Entry(0, name));
    var nlink := fs.Oi(ino).nlink - 1;
    ghost var y := s.inodes[ino].(nlink := nlink);
    fs.PokeInode(ino, 2, nlink);
    EntryThenInode(s, own, u, fs.View(), dir, e, Entry(0, name), ino, y);
    DropFile(fs, s, own, dir, e, name, ino, y);
    r := 0;
  }

  lemma PlaceIs(s: FS, dir: nat, e: nat, b: u32, j: nat)
    requires Place(s, dir, e, b, j)
    ensures dir < |s.inodes| && e < |DirEntries(s, dir)|
  {
  }

  /** A file that lost its last link gives its blocks back; a symbolic link has none. */
  method DropFile(fs: Ospfs, ghost s: FS, ghost own: Owners, ghost dir: nat, ghost e: nat, ghost name: seq<byte>, ino: u32, ghost y: Inode)
    requires fs.Valid() && fs.own == own && Sound(s, own) && dir < |s.inodes| && s.inodes[dir].ftype == FTYPE_DIR
    requires 0 < ino < |s.inodes| && s.inodes[ino].ftype != FTYPE_DIR && ino != dir
    requires e < |DirEntries(s, dir)| && DirEntries(s, dir)[e] == Entry(ino, name)
    requires y == s.inodes[ino].(nlink := y.nlink) && y.nlink + 1 == s.inodes[ino].nlink
    requires Named(s, own, fs.View(), dir, e, Entry(0, name), ino, y)
    requires y.ftype != FTYPE_SYMLINK ==> ino < |fs.View().inodes| && RawOf(fs.View(), ino) == RawOf(s, ino)
    modifies fs`own, fs.data
    ensures fs.Valid() && NameTaken(s, fs.View(), fs.own, dir, name, ino)
    ensures BlocksAfterUnlink(s, own, fs.View(), fs.own, ino)
  {
    hide ViewOf, HasGeometry, Consistent, NameTaken, Tidy, DirEntries, RawOf, FilesSame, DirsSame, SizeSet, RolledBack, Resized, NameMap;
    ghost var v := fs.View();
    if fs.Oi(ino).nlink <= 0 && fs.Oi(ino).ftype != FTYPE_SYMLINK {
      var e := ChangeSize(fs, ino, 0);
      EmptiedFile(v, own, fs.View(), fs.own, ino);
    } else {
      OthersSameReflexive(v, own, ino);
    }
    UnlinkedIsSound(s, own, v, fs.View(), fs.own, dir, e, name, ino, y);
  }

  lemma OthersSameReflexive(s: FS, own: Owners, i: nat)
    requires i < |s.inodes|
    ensures OthersSame(s, own, s, own, i)
  {
  }

  lemma EmptiedFile(s: FS, own: Owners, t: FS, own': Owners, i: nat)
    requires Consistent(s, own) && i < |s.inodes| && s.inodes[i].ftype != FTYPE_SYMLINK && SizeSet(s, own, t, own', i, 0)
    ensures Consistent(t, own') && OthersSame(s, own, t, own', i) && own' == Release(own, i, 0)
    ensures t.inodes[i] == s.inodes[i].(size := 0, ptrs := t.inodes[i].ptrs) && !Stale(t.inodes[i])
  {
    hide TreeOk, TreeResized, OwnersResized, OthersKeep, Release;
    AllReleased(s, own, t, own', i, NBlocks(s.inodes[i]));
  }
}
