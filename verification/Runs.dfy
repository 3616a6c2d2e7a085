/** Any sequence of file system operations: what it keeps, and the exact states in which an operation breaks it. */
module Runs {
  import opened Words
  import opened BlockTree
  import opened FileSystem
  import opened Ownership
  import opened Appending
  import opened Image
  import opened FileSize
  import opened SizeChange
  import opened FileIO
  import opened Directories
  import opened Links
  import opened DirOps
  import opened Namespace

  datatype Op =
    | DoCreate(dir: nat, name: seq<byte>, mode: u32)
    | DoLink(src: u32, dir: nat, name: seq<byte>)
    | DoSymlink(dir: nat, name: seq<byte>, target: seq<byte>)
    | DoUnlink(dir: nat, name: seq<byte>, ino: u32)
    | DoWrite(i: nat, buffer: seq<byte>, append: bool, pos: nat)
    | DoResize(i: nat, size: u32)

  ghost predicate Dir(s: FS, i: nat) { i < |s.inodes| && s.inodes[i].ftype == FTYPE_DIR }

  /** A regular file, with a name or without: it may have been opened before its last name went. */
  ghost predicate File(s: FS, i: nat) {
    i < |s.inodes| && s.inodes[i].ftype != FTYPE_DIR && s.inodes[i].ftype != FTYPE_SYMLINK
  }

  ghost function WriteStart(s: FS, i: nat, append: bool, pos: nat): nat
    requires i < |s.inodes|
  {
    if append then s.inodes[i].size else pos
  }

  /**
   * What Linux checks before it calls the operation: the inode has the right type, a dentry belongs to the inode that its
   * name stands for, names and targets are C strings, and a byte count has 32 bits.
   */
  ghost predicate Allowed(op: Op, s: FS) {
    match op
    case DoCreate(dir, name, mode) => Dir(s, dir) && 0 !in name
    case DoLink(src, dir, name) => Dir(s, dir) && 0 !in name && 0 < src < |s.inodes| && s.inodes[src].ftype != FTYPE_DIR
    case DoSymlink(dir, name, target) => Dir(s, dir) && 0 !in name && 0 !in target
    case DoUnlink(dir, name, ino) =>
      Dir(s, dir) && 0 < ino < |s.inodes| && s.inodes[ino].ftype != FTYPE_DIR && NameMeans(s, dir, name, ino)
    case DoWrite(i, buffer, append, pos) => File(s, i) && |buffer| < TWO32
    case DoResize(i, size) => File(s, i) || Dir(s, i)
  }

  /** The name means a new, empty file; when every inode is taken, it means nothing. */
  ghost predicate Created(s: FS, t: FS, own': Owners, dir: nat, name: seq<byte>, mode: u32) {
    if NoFreeInode(s) then NoNameGiven(s, t, own', dir)
    else exists j: u32 :: FreeInode(s, j) && j < |t.inodes| && NameGiven(s, t, own', dir, name, j, t.inodes[j])
                          && IsNewFile(s.inodes[j], t.inodes[j], mode)
  }

  /** The name means the file that has other names already, and its link count says so. */
  ghost predicate Linked(s: FS, t: FS, own': Owners, dir: nat, name: seq<byte>, src: u32) {
    && src < |s.inodes| == |t.inodes| && NameGiven(s, t, own', dir, name, src, t.inodes[src])
    && t.inodes[src] == s.inodes[src].(nlink := t.inodes[src].nlink) && t.inodes[src].nlink == s.inodes[src].nlink + 1
    && (s.inodes[src].ftype != FTYPE_SYMLINK ==> RawOf(t, src) == RawOf(s, src))
  }

  /** The name means a new symbolic link to this target; when every inode is taken, it means nothing. */
  ghost predicate Symlinked(s: FS, t: FS, own': Owners, dir: nat, name: seq<byte>, target: seq<byte>) {
    if NoFreeInode(s) then NoNameGiven(s, t, own', dir)
    else exists j: u32 :: FreeInode(s, j) && j < |t.inodes| && NameGiven(s, t, own', dir, name, j, t.inodes[j])
                          && IsLinkTo(t.inodes[j], target)
  }

  /** What create, link and symlink have in common: the errors, and what an error leaves behind. */
  ghost predicate NameStep(s: FS, own: Owners, t: FS, own': Owners, dir: nat, name: seq<byte>, r: int, done: bool) {
    && dir < |s.inodes| && r == NameError(s, dir, name)
    && if r == 0 then done else NameRefused(s, own, t, own', dir, r)
  }

  /** What an operation with result r does to the image. */
  ghost predicate Step(op: Op, s: FS, own: Owners, t: FS, own': Owners, r: int) {
    match op
    case DoCreate(dir, name, mode) => NameStep(s, own, t, own', dir, name, r, Created(s, t, own', dir, name, mode))
    case DoLink(src, dir, name) => NameStep(s, own, t, own', dir, name, r, Linked(s, t, own', dir, name, src))
    case DoSymlink(dir, name, target) =>
      if |target| > MAXSYMLINKLEN then r == -ENAMETOOLONG && t == s && own' == own
      else NameStep(s, own, t, own', dir, name, r, Symlinked(s, t, own', dir, name, target))
    case DoUnlink(dir, name, ino) =>
      dir < |s.inodes| && r == (if HasName(DirEntries(s, dir), name) then 0 else -ENOENT)
      && if r == 0 then NameTaken(s, t, own', dir, name, ino) && BlocksAfterUnlink(s, own, t, own', ino) else t == s && own' == own
    case DoWrite(i, buffer, append, pos) =>
      i < |s.inodes| && var start := WriteStart(s, i, append, pos);
      if start + |buffer| <= s.inodes[i].size then r == |buffer| && Wrote(s, own, t, own', i, start, buffer)
      else Lengthened(s, own, t, own', i, start, buffer, r)
    case DoResize(i, size) =>
      i < |s.inodes| && if s.inodes[i].ftype == FTYPE_DIR then t == s && own' == own else ChangedSize(s, own, t, own', i, size, r)
  }

  /** Carries out one operation on the image. */
  method Perform(fs: Ospfs, op: Op) returns (r: int)
    requires fs.Valid() && Sound(fs.View(), fs.own) && Allowed(op, fs.View())
    modifies fs`own, fs.data
    ensures fs.Valid() && Step(op, old(fs.View()), old(fs.own), fs.View(), fs.own, r)
  {
    hide ViewOf, HasGeometry, Sound, NameGiven, NoNameGiven, NameRefused, NameTaken, Wrote, RolledBack, BlocksAfterUnlink, Lengthened;
    hide ChangedSize, HasRoom, DirEntries, FreeInode, NoFreeInode, IsLinkTo, RawOf, FilesSame, NameMeans, IsNewFile;
    ghost var s := fs.View();
    ghost var made: u32 := 0;
    match op
    case DoCreate(dir, name, mode) =>
      r, made := Create(fs, dir, name, mode);
      FreeOrNot(s);
    case DoLink(src, dir, name) =>
      r := Link(fs, src, dir, name);
      if r == 0 { GivenInode(s, fs.View(), fs.own, dir, name, src, s.inodes[src].(nlink := s.inodes[src].nlink + 1)); }
    case DoSymlink(dir, name, target) =>
      ghost var own := fs.own;
      r, made := Symlink(fs, dir, name, target);
      FreeOrNot(s);
      RefusedUnchanged(s, own, fs.View(), fs.own, dir, r);
    case DoUnlink(dir, name, ino) =>
      r := Unlink(fs, dir, name, ino);
    case DoWrite(i, buffer, append, pos) =>
      SoundFile(s, fs.own, i);
      ghost var start;
      r, start := Write(fs, i, buffer, append, pos);
    case DoResize(i, size) =>
      SoundFile(s, fs.own, i);
      r := SetAttrSize(fs, i, size);
  }

  lemma FreeOrNot(s: FS)
    ensures forall j: nat :: FreeInode(s, j) ==> !NoFreeInode(s)
  {
  }

  lemma GivenInode(s: FS, t: FS, own': Owners, dir: nat, name: seq<byte>, j: u32, y: Inode)
    requires NameGiven(s, t, own', dir, name, j, y)
    ensures j < |s.inodes| == |t.inodes| && t.inodes[j] == y && NameGiven(s, t, own', dir, name, j, t.inodes[j])
  {
  }

  lemma RefusedUnchanged(s: FS, own: Owners, t: FS, own': Owners, dir: nat, r: int)
    ensures NameRefused(s, own, t, own', dir, r) && r != -ENOSPC ==> t == s && own' == own
  {
  }

  lemma SoundFile(s: FS, own: Owners, i: nat)
    requires Sound(s, own) && i < |s.inodes|
    ensures Consistent(s, own) && !Stale(s.inodes[i])
    ensures s.inodes[i].ftype != FTYPE_SYMLINK ==> s.inodes[i].size <= MAX_SIZE
  {
    if s.inodes[i].ftype != FTYPE_SYMLINK { SizeFits(s, own, i); }
  }

  // ----- which steps keep the image sound -----

  /** A failed create_blank_direntry leaves a stale pointer. */
  ghost predicate BreaksDir(s: FS, dir: nat, name: seq<byte>) {
    dir < |s.inodes| && NameError(s, dir, name) == -ENOSPC && LeavesStale(NBlocks(s.inodes[dir]), |s.free|)
  }

  /**
   * A new size breaks the image when it wraps around in ospfs_size2nblocks, when the number of free blocks is just the wrong
   * one, or when a file without a name gets any: its inode counts as free.
   */
  ghost predicate BreaksResize(x: Inode, size: u32, free: nat) {
    || size > MAX_SIZE || StaleOnTheWay(NBlocks(x), Size2NBlocks(size), free)
    || (x.nlink == 0 && size != 0 && Fits(NBlocks(x), Size2NBlocks(size), free))
  }

  /** The states in which an operation breaks the image. */
  ghost predicate Breaks(op: Op, s: FS) {
    match op
    case DoCreate(dir, name, mode) => BreaksDir(s, dir, name)
    case DoLink(src, dir, name) => BreaksDir(s, dir, name)
    case DoSymlink(dir, name, target) => |target| <= MAXSYMLINKLEN && BreaksDir(s, dir, name)
    case DoUnlink(dir, name, ino) => false
    case DoWrite(i, buffer, append, pos) =>
      i < |s.inodes| && var end := WriteStart(s, i, append, pos) + |buffer|;
      end > s.inodes[i].size && BreaksResize(s.inodes[i], end % TWO32, |s.free|)
    case DoResize(i, size) =>
      i < |s.inodes| && s.inodes[i].ftype != FTYPE_DIR && BreaksResize(s.inodes[i], size, |s.free|)
  }

  lemma StaleMeansFull(n: nat, m: nat, free: nat)
    requires StaleOnTheWay(n, m, free)
    ensures !Fits(n, m, free)
  {
    TotalIsMonotone(NFLAT + 1, m);
  }

  lemma TidySame(s: FS, t: FS)
    requires Tidy(s) && t.inodes == s.inodes && DirsSame(s, t, |s.inodes|)
    ensures Tidy(t)
  {
    hide DirEntries, NamesOk;
    forall i: nat | i < |t.inodes| && t.inodes[i].ftype == FTYPE_DIR
      ensures DirOk(t, i)
    {
      assert DirOk(s, i);
    }
    forall k: nat | k < |t.inodes| && t.inodes[k].ftype != FTYPE_DIR
      ensures LinkOk(t, k)
    {
      assert LinkOk(s, k);
      CountAllSame(s, t, k, |s.inodes|);
    }
  }

  lemma RefusedDirs(s: FS, own: Owners, t: FS, own': Owners, dir: nat)
    requires Consistent(s, own) && dir < |s.inodes| && s.inodes[dir].ftype == FTYPE_DIR
    requires Refused(s, own, t, own', dir) && !LeavesStale(NBlocks(s.inodes[dir]), |s.free|)
    ensures t.inodes == s.inodes && DirsSame(s, t, |s.inodes|)
  {
    hide Consistent, OwnersResized;
    DirsSameFromOthers(s, own, t, own', dir);
    EntriesAfterRefusal(s.disk, s.inodes[dir].ptrs, t.disk, t.inodes[dir].ptrs, NBlocks(s.inodes[dir]));
  }

  lemma NameStepSoundIff(s: FS, own: Owners, t: FS, own': Owners, dir: nat, name: seq<byte>, r: int, done: bool)
    requires Sound(s, own) && Dir(s, dir) && NameStep(s, own, t, own', dir, name, r, done) && (r == 0 ==> Sound(t, own'))
    ensures Sound(t, own') <==> !BreaksDir(s, dir, name)
  {
    hide Consistent, Tidy, DirEntries, FilesSame, HasRoom, HasName;
    if r == -ENOSPC {
      SoundFile(s, own, dir);
      if LeavesStale(NBlocks(s.inodes[dir]), |s.free|) {
        NoZero(s, own);
        assert Stale(t.inodes[dir]);
      } else {
        RefusedDirs(s, own, t, own', dir);
        TidySame(s, t);
      }
    }
  }

  lemma NoZero(s: FS, own: Owners)
    requires Consistent(s, own)
    ensures 0 !in s.free
  {
    ZeroIsNotOwned(s, own);
  }

  /** The contents and the size of one file changed. */
  lemma ContentStepSoundIff(s: FS, own: Owners, t: FS, own': Owners, i: nat)
    requires Sound(s, own) && File(s, i) && Consistent(t, own') && OthersSame(s, own, t, own', i)
    requires t.inodes[i] == s.inodes[i].(size := t.inodes[i].size, ptrs := t.inodes[i].ptrs)
    ensures Sound(t, own') <==> !Stale(t.inodes[i]) && (s.inodes[i].nlink == 0 ==> t.inodes[i].size == 0)
  {
    hide Consistent, Tidy, DirEntries, OthersKeep;
    DirsSameFromOthers(s, own, t, own', i);
    TidyAfterContent(s, t, i);
  }

  lemma NamelessIsEmpty(s: FS, own: Owners, i: nat)
    requires Sound(s, own) && File(s, i)
    ensures s.inodes[i].nlink == 0 ==> s.inodes[i].size == 0
  {
    assert LinkOk(s, i);
  }

  lemma RolledBackIs(s: FS, own: Owners, t: FS, own': Owners, i: nat, m: nat)
    requires RolledBack(s, own, t, own', i, m)
    ensures Consistent(t, own') && OthersSame(s, own, t, own', i)
    ensures t.inodes[i] == s.inodes[i].(size := t.inodes[i].size, ptrs := t.inodes[i].ptrs)
    ensures Stale(t.inodes[i]) <==> StaleOnTheWay(NBlocks(s.inodes[i]), m, |s.free|)
  {
  }

  lemma SizeSetIs(s: FS, own: Owners, t: FS, own': Owners, i: nat, size: u32)
    requires SizeSet(s, own, t, own', i, size) && s.inodes[i].ftype != FTYPE_SYMLINK
    ensures i < |t.inodes| && !Stale(t.inodes[i]) && OthersSame(s, own, t, own', i) && t.inodes[i].size == size
    ensures t.inodes[i] == s.inodes[i].(size := t.inodes[i].size, ptrs := t.inodes[i].ptrs)
    ensures Consistent(t, own') <==> size <= MAX_SIZE
  {
    Size2NBlocksIsCeiling(size);
  }

  lemma ResizeSoundIff(s: FS, own: Owners, t: FS, own': Owners, i: nat, size: u32, r: int)
    requires Sound(s, own) && File(s, i) && ChangedSize(s, own, t, own', i, size, r)
    ensures Sound(t, own') <==> !BreaksResize(s.inodes[i], size, |s.free|)
  {
    hide Consistent, Tidy, OthersSame, RolledBack, SizeSet, Size2NBlocks;
    var n, m := NBlocks(s.inodes[i]), Size2NBlocks(size);
    Size2NBlocksIsCeiling(size);
    NamelessIsEmpty(s, own, i);
    if StaleOnTheWay(n, m, |s.free|) { StaleMeansFull(n, m, |s.free|); }
    if r == 0 {
      SizeSetIs(s, own, t, own', i, size);
      if size <= MAX_SIZE { ContentStepSoundIff(s, own, t, own', i); }
    } else {
      RolledBackIs(s, own, t, own', i, m);
      NamelessStaysEmpty(s, own, t, own', i, m);
      ContentStepSoundIff(s, own, t, own', i);
    }
  }

  lemma NamelessStaysEmpty(s: FS, own: Owners, t: FS, own': Owners, i: nat, m: nat)
    requires RolledBack(s, own, t, own', i, m) && s.inodes[i].ftype != FTYPE_SYMLINK
    ensures s.inodes[i].size == 0 ==> t.inodes[i].size == 0
  {
  }

  lemma LengthenedSoundIff(s: FS, own: Owners, t: FS, own': Owners, i: nat, start: nat, data: seq<byte>, r: int)
    requires Sound(s, own) && File(s, i) && Lengthened(s, own, t, own', i, start, data, r) && |data| < TWO32
    ensures Sound(t, own') <==> !BreaksResize(s.inodes[i], (start + |data|) % TWO32, |s.free|)
  {
    hide Consistent, Tidy, OthersSame, RolledBack, SizeSet, RawOf, Size2NBlocks, Sound;
    var n, size := NBlocks(s.inodes[i]), (start + |data|) % TWO32;
    if !Fits(n, Size2NBlocks(size), |s.free|) {
      ResizeSoundIff(s, own, t, own', i, size, -ENOSPC);
    } else if size > MAX_SIZE || start % TWO32 + |data| >= TWO32 {
      ResizeSoundIff(s, own, t, own', i, size, 0);
    } else {
      ContentStepSoundIff(s, own, t, own', i);
      if StaleOnTheWay(n, Size2NBlocks(size), |s.free|) { StaleMeansFull(n, Size2NBlocks(size), |s.free|); }
    }
  }

  lemma WriteSoundIff(s: FS, own: Owners, t: FS, own': Owners, i: nat, buffer: seq<byte>, append: bool, pos: nat, r: int)
    requires Sound(s, own) && Allowed(DoWrite(i, buffer, append, pos), s)
    requires Step(DoWrite(i, buffer, append, pos), s, own, t, own', r)
    ensures Sound(t, own') <==> !Breaks(DoWrite(i, buffer, append, pos), s)
  {
    hide Consistent, Tidy, OthersSame, RawOf, Size2NBlocks, Lengthened, BreaksResize, Sound;
    var start := WriteStart(s, i, append, pos);
    if start + |buffer| <= s.inodes[i].size {
      NamelessIsEmpty(s, own, i);
      ContentStepSoundIff(s, own, t, own', i);
    } else {
      LengthenedSoundIff(s, own, t, own', i, start, buffer, r);
    }
  }

  lemma UnlinkSound(s: FS, own: Owners, t: FS, own': Owners, dir: nat, name: seq<byte>, ino: u32, r: int)
    requires Sound(s, own) && Step(DoUnlink(dir, name, ino), s, own, t, own', r)
    ensures Sound(t, own')
  {
    hide Inv, Tidy;
  }

  /** A step that the kernel may ask for keeps the image sound exactly when the state it starts in is not one of 'Breaks'. */
  lemma StepSoundIff(op: Op, s: FS, own: Owners, t: FS, own': Owners, r: int)
    requires Sound(s, own) && Allowed(op, s) && Step(op, s, own, t, own', r)
    ensures Sound(t, own') <==> !Breaks(op, s)
  {
    hide Sound, BreaksDir, RolledBack, ChangedSize, Wrote, Lengthened, BreaksResize;
    hide NameRefused, NameError, FreeInode, NoFreeInode, IsNewFile, IsLinkTo, BlocksAfterUnlink, NameTaken, FilesSame, DirEntries, HasName;
    match op
    case DoCreate(dir, name, mode) => NameStepSoundIff(s, own, t, own', dir, name, r, Created(s, t, own', dir, name, mode));
    case DoLink(src, dir, name) => NameStepSoundIff(s, own, t, own', dir, name, r, Linked(s, t, own', dir, name, src));
    case DoSymlink(dir, name, target) =>
      if |target| <= MAXSYMLINKLEN { NameStepSoundIff(s, own, t, own', dir, name, r, Symlinked(s, t, own', dir, name, target)); }
    case DoUnlink(dir, name, ino) => UnlinkSound(s, own, t, own', dir, name, ino, r);
    case DoWrite(i, buffer, append, pos) => WriteSoundIff(s, own, t, own', i, buffer, append, pos, r);
    case DoResize(i, size) =>
      if File(s, i) { ResizeSoundIff(s, own, t, own', i, size, r); }
  }

  // ----- why a file without a name must stay empty -----

  /** An inode that owns blocks is reused for a new file: whatever owners one assumes, the image is broken. */
  lemma ReuseLeaks(s: FS, own: Owners, j: nat, mode: u32, own': Owners)
    requires Consistent(s, own) && j < |s.inodes| && s.inodes[j].ftype != FTYPE_SYMLINK && NBlocks(s.inodes[j]) > 0
    ensures !Consistent(s.(inodes := s.inodes[j := NewFile(s.inodes[j], mode)]), own')
  {
    var t, b := s.(inodes := s.inodes[j := NewFile(s.inodes[j], mode)]), At(s.disk, s.inodes[j].ptrs, Data(0));
    assert FileOk(s.disk, s.inodes[j], j, own);
    assert Needs(NBlocks(s.inodes[j]), Data(0)) && own[b] == Owner(j, Data(0));
    if Consistent(t, own') {
      assert b !in s.free && b in own';
      var k, slot := own'[b].ino, own'[b].slot;
      assert FileOk(t.disk, t.inodes[k], k, own');
      assert FileOk(s.disk, s.inodes[k], k, own);
      if k == j {
        NothingNeeded(slot);
      }
      assert false;
    }
  }

  lemma NothingNeeded(slot: Slot)
    ensures !Needs(0, slot)
  {
  }

  /** A successful write to such a file, followed by the next create, does exactly that. */
  lemma NamelessWriteLeaks(i: nat, buffer: seq<byte>, append: bool, pos: nat, s: FS, own: Owners, t: FS, own': Owners, r: int, mode: u32,
                           own2: Owners)
    requires Sound(s, own) && FreeInode(s, i) && Allowed(DoWrite(i, buffer, append, pos), s)
    requires Step(DoWrite(i, buffer, append, pos), s, own, t, own', r) && r > 0 && pos + |buffer| <= MAX_SIZE
    ensures FreeInode(t, i) && !Consistent(t.(inodes := t.inodes[i := NewFile(t.inodes[i], mode)]), own2)
  {
    hide Consistent, OthersKeep, RawOf, Size2NBlocks, NewFile;
    var start := WriteStart(s, i, append, pos);
    NamelessIsEmpty(s, own, i);
    if start + |buffer| > s.inodes[i].size {
      LengthenedIsWrote(s, own, t, own', i, start, buffer, r);
    }
    ReuseLeaks(t, own', i, mode, own2);
  }

  /** Three empty inodes, none of which has a name, and one free block. */
  function Nameless(): (s: FS) {
    var x := Inode(0, FTYPE_REG, 0, 0, Pointers([0, 0, 0, 0, 0, 0, 0, 0, 0, 0], 0, 0));
    FS(Geometry(5, 3, 3), seq(5, _ => CellOf(ZeroBlock())), [x, x, x], {4})
  }

  lemma NamelessIsSound()
    ensures Sound(Nameless(), map[])
  {
    hide Consistent, LinkCount, DirEntries, NamesOk, CellOf;
    NamelessIsConsistent();
    forall j: nat | j < 3
      ensures LinkOk(Nameless(), j)
    {
      NoLinks(Nameless(), j, 3);
    }
  }

  lemma NamelessIsConsistent()
    ensures Consistent(Nameless(), map[])
  {
    hide FileOk;
    forall i: nat | i < 3
      ensures FileOk(Nameless().disk, Nameless().inodes[i], i, map[])
    {
      EmptyIsOk(Nameless().disk, Nameless().inodes[i], i);
    }
  }

  lemma EmptyIsOk(d: seq<Cell>, x: Inode, i: nat)
    requires x.size == 0 && x.ftype == FTYPE_REG && x.ptrs.indirect == 0
    ensures FileOk(d, x, i, map[])
  {
    forall slot
      ensures !Needs(0, slot)
      ensures ScannedAsUnused(0, slot) ==> At(d, x.ptrs, slot) == 0
    {
      match slot case Data(k) => case Ind => case Ind2 => case Sub(k) =>
    }
  }

  lemma {:induction false} NoLinks(s: FS, j: nat, k: nat)
    requires k <= |s.inodes| && forall i :: 0 <= i < k ==> s.inodes[i].ftype != FTYPE_DIR
    ensures CountAll(s, j, k) == 0
    ensures k == |s.inodes| ==> LinkCount(s, j) == 0
  {
    if k > 0 { NoLinks(s, j, k - 1); }
  }

  /** An ordinary state in which a write of one byte to a file that was opened before its name went breaks the image. */
  lemma NamelessWriteBreaks(t: FS, own': Owners, r: int)
    ensures Sound(Nameless(), map[]) && FreeInode(Nameless(), 2) && Allowed(DoWrite(2, [1], false, 0), Nameless())
    ensures Step(DoWrite(2, [1], false, 0), Nameless(), map[], t, own', r) ==> !Sound(t, own')
  {
    hide Sound, Step;
    NamelessIsSound();
    assert Fits(0, 1, 1);
    if Step(DoWrite(2, [1], false, 0), Nameless(), map[], t, own', r) {
      StepSoundIff(DoWrite(2, [1], false, 0), Nameless(), map[], t, own', r);
    }
  }

  // ----- runs -----

  /** Operation k leads from states[k] to states[k + 1], and none starts in a state in which it breaks the image. */
  ghost predicate Run(ops: seq<Op>, rs: seq<int>, states: seq<(FS, Owners)>) {
    && |states| == |ops| + 1 && |rs| == |ops|
    && forall k :: 0 <= k < |ops| ==>
         && Allowed(ops[k], states[k].0) && !Breaks(ops[k], states[k].0)
         && Step(ops[k], states[k].0, states[k].1, states[k + 1].0, states[k + 1].1, rs[k])
  }

  /**
   * Over any run: every data-area block is free or owned by one slot of one file, nothing is leaked or shared, names
   * are unique in their directory, and link counts equal the number of names.
   */
  lemma {:induction false} RunIsSound(ops: seq<Op>, rs: seq<int>, states: seq<(FS, Owners)>, k: nat)
    requires Run(ops, rs, states) && Sound(states[0].0, states[0].1) && k <= |ops|
    ensures Sound(states[k].0, states[k].1)
  {
    hide Sound, Allowed, Breaks, Step, Run;
    RunHasStates(ops, rs, states);
    if k > 0 {
      RunIsSound(ops, rs, states, k - 1);
      StepOfRun(ops, rs, states, k - 1);
      StepSoundIff(ops[k - 1], states[k - 1].0, states[k - 1].1, states[k].0, states[k].1, rs[k - 1]);
    }
  }

  lemma RunHasStates(ops: seq<Op>, rs: seq<int>, states: seq<(FS, Owners)>)
    requires Run(ops, rs, states)
    ensures |states| == |ops| + 1 && |rs| == |ops|
  {
  }

  lemma StepOfRun(ops: seq<Op>, rs: seq<int>, states: seq<(FS, Owners)>, k: nat)
    requires Run(ops, rs, states) && k < |ops|
    ensures |states| == |ops| + 1 && |rs| == |ops|
    ensures Allowed(ops[k], states[k].0) && !Breaks(ops[k], states[k].0)
    ensures Step(ops[k], states[k].0, states[k].1, states[k + 1].0, states[k + 1].1, rs[k])
  {
    hide Allowed, Breaks, Step;
  }

  /** What soundness says about a single block: free, or one slot of one file, and never both or neither. */
  lemma BlockHasOneUse(s: FS, own: Owners, b: nat)
    requires Sound(s, own) && s.geo.Usable(b)
    ensures b in s.free <==> b !in own
    ensures forall i: nat, slot :: i < |s.inodes| && Needs(NBlocks(s.inodes[i]), slot) && At(s.disk, Tree(s.inodes[i]), slot) == b ==>
              b in own && own[b] == Owner(i, slot)
    ensures b in own ==> own[b].ino < |s.inodes| && Needs(NBlocks(s.inodes[own[b].ino]), own[b].slot)
    ensures b in own ==> At(s.disk, Tree(s.inodes[own[b].ino]), own[b].slot) == b
  {
    forall i: nat | i < |s.inodes|
      ensures FileOk(s.disk, s.inodes[i], i, own)
    {
    }
  }
}
