/** What files hold and what names mean, over any run of operations on other files. */
module Contents {
  import opened Words
  import opened BlockTree
  import opened FileSystem
  import opened Ownership
  import opened Image
  import opened FileSize
  import opened FileIO
  import opened SizeChange
  import opened Directories
  import opened Links
  import opened DirOps
  import opened Namespace
  import opened Runs

  /** Equal bytes are equal directory entries. */
  lemma EntriesFromBytes(s: FS, t: FS, i: nat)
    requires i < |s.inodes| == |t.inodes| && t.inodes[i] == s.inodes[i] && RawOf(t, i) == RawOf(s, i)
    ensures DirEntries(t, i) == DirEntries(s, i)
  {
    hide DataBytes, EntryIn, NBlocks;
    var p, n := s.inodes[i].ptrs, NBlocks(s.inodes[i]);
    forall k: nat | k < n
      ensures DataBytes(t.disk, p, k) == DataBytes(s.disk, p, k)
    {
      RawSlice(s.disk, p, n, k, 0, BLKSIZE);
      RawSlice(t.disk, p, n, k, 0, BLKSIZE);
    }
  }

  // ----- one step -----

  /** The operations that may change what file j holds, or let it go. */
  ghost predicate Touches(op: Op, s: FS, j: nat) {
    match op
    case DoCreate(_, _, _) => false
    case DoLink(_, _, _) => false
    case DoSymlink(_, _, _) => false
    case DoUnlink(_, _, ino) => ino == j && j < |s.inodes| && s.inodes[j].nlink == 1
    case DoWrite(i, _, _, _) => i == j
    case DoResize(i, _) => i == j
  }

  /** A file that has a name. */
  ghost predicate LinkedFile(s: FS, j: nat) { File(s, j) && s.inodes[j].nlink > 0 }

  /** File j holds the bytes that it held; only its link count may differ. */
  ghost predicate KeepsFile(s: FS, t: FS, j: nat) {
    && j < |s.inodes| == |t.inodes| && LinkedFile(t, j)
    && t.inodes[j] == s.inodes[j].(nlink := t.inodes[j].nlink) && RawOf(t, j) == RawOf(s, j)
  }

  lemma OtherFile(s: FS, own: Owners, t: FS, own': Owners, i: nat, j: nat)
    requires Sound(s, own) && LinkedFile(s, j) && OthersSame(s, own, t, own', i) && i != j
    ensures KeepsFile(s, t, j)
  {
    hide FileOk, RawOf, OthersKeep, Tidy;
    OthersContent(s, own, t, own', i, j);
  }

  lemma NameStepKeepsFile(s: FS, own: Owners, t: FS, own': Owners, dir: nat, r: int, j: nat)
    requires Sound(s, own) && Dir(s, dir) && LinkedFile(s, j) && NameRefused(s, own, t, own', dir, r)
    ensures KeepsFile(s, t, j)
  {
    hide Sound, RawOf, OthersKeep;
    if t != s || own' != own { OtherFile(s, own, t, own', dir, j); }
  }

  lemma WriteKeepsOthers(s: FS, own: Owners, t: FS, own': Owners, i: nat, start: nat, data: seq<byte>, r: int)
    requires i < |s.inodes|
    requires if start + |data| <= s.inodes[i].size then Wrote(s, own, t, own', i, start, data)
             else Lengthened(s, own, t, own', i, start, data, r)
    ensures OthersSame(s, own, t, own', i)
  {
    hide OthersSame, RawOf, Consistent, Size2NBlocks;
    var n, size := NBlocks(s.inodes[i]), (start + |data|) % TWO32;
    if start + |data| > s.inodes[i].size {
      if !Fits(n, Size2NBlocks(size), |s.free|) {
        MovedOthers(s, own, t, own', i, Before(n));
      } else if size > MAX_SIZE || start % TWO32 + |data| >= TWO32 {
        MovedOthers(s, own, t, own', i, Size2NBlocks(size));
      }
    }
  }

  lemma MovedOthers(s: FS, own: Owners, t: FS, own': Owners, i: nat, m: nat)
    requires i < |s.inodes| && Resized(s, own, t, own', i, NBlocks(s.inodes[i]), m)
    ensures OthersSame(s, own, t, own', i)
  {
  }

  lemma SizeKeepsOthers(s: FS, own: Owners, t: FS, own': Owners, i: nat, size: u32, r: int)
    requires ChangedSize(s, own, t, own', i, size, r)
    ensures OthersSame(s, own, t, own', i)
  {
    hide OthersSame, Consistent, Size2NBlocks;
    MovedOthers(s, own, t, own', i, if r == 0 then Size2NBlocks(size) else Before(NBlocks(s.inodes[i])));
  }

  /** A step that does not touch a file keeps its bytes, whether it succeeds or fails, breaks the image or not. */
  lemma StepKeepsFile(op: Op, s: FS, own: Owners, t: FS, own': Owners, r: int, j: nat)
    requires Sound(s, own) && Allowed(op, s) && Step(op, s, own, t, own', r) && LinkedFile(s, j) && !Touches(op, s, j)
    ensures KeepsFile(s, t, j)
  {
    hide Sound, NameRefused, NameError, RawOf, OthersSame, Wrote, Lengthened, ChangedSize, NameMap, DirEntries, HasName, IsNewFile, IsLinkTo;
    match op
    case DoCreate(dir, name, mode) => if r != 0 { NameStepKeepsFile(s, own, t, own', dir, r, j); }
    case DoLink(src, dir, name) => if r != 0 { NameStepKeepsFile(s, own, t, own', dir, r, j); }
    case DoSymlink(dir, name, target) => if r != 0 && |target| <= MAXSYMLINKLEN { NameStepKeepsFile(s, own, t, own', dir, r, j); }
    case DoUnlink(dir, name, ino) =>
    case DoWrite(i, buffer, append, pos) =>
      WriteKeepsOthers(s, own, t, own', i, WriteStart(s, i, append, pos), buffer, r);
      OtherFile(s, own, t, own', i, j);
    case DoResize(i, size) =>
      if s.inodes[i].ftype != FTYPE_DIR {
        SizeKeepsOthers(s, own, t, own', i, size, r);
        OtherFile(s, own, t, own', i, j);
      }
  }

  /** In directory 'dir' the name means inode j. */
  ghost predicate Means(s: FS, dir: nat, name: seq<byte>, j: u32) {
    Dir(s, dir) && name in NameMap(DirEntries(s, dir)) && NameMap(DirEntries(s, dir))[name] == j
  }

  lemma OtherDirectory(s: FS, t: FS, a: nat, b: nat, dir: nat, name: seq<byte>, j: u32)
    requires FilesSame(s, t, a, b) && dir != a && dir != b && Means(s, dir, name, j)
    ensures Means(t, dir, name, j)
  {
    hide RawOf, DirEntries, NameMap;
    EntriesFromBytes(s, t, dir);
  }

  lemma GivenKeepsName(s: FS, own: Owners, t: FS, own': Owners, d: nat, n2: seq<byte>, k: u32, y: Inode, dir: nat, name: seq<byte>, j: u32)
    requires Sound(s, own) && NameGiven(s, t, own', d, n2, k, y) && Dir(s, d) && Means(s, dir, name, j) && (dir == d ==> n2 != name)
    requires s.inodes[k].ftype != FTYPE_DIR
    ensures Means(t, dir, name, j)
  {
    hide Sound, RawOf, DirEntries, NameMap, FilesSame;
    if dir != d { OtherDirectory(s, t, d, k, dir, name, j); }
  }

  lemma NewNameDiffers(s: FS, own: Owners, dir: nat, name: seq<byte>, j: u32, d: nat, n2: seq<byte>)
    requires Sound(s, own) && Means(s, dir, name, j) && d < |s.inodes| && NameError(s, d, n2) == 0
    ensures dir == d ==> n2 != name
  {
    hide DirEntries, NameMap;
    NamesAreOk(s, own, dir);
    NameMapIs(DirEntries(s, dir), name);
  }

  lemma RefusalKeepsName(s: FS, own: Owners, t: FS, own': Owners, d: nat, n2: seq<byte>, dir: nat, name: seq<byte>, j: u32)
    requires Sound(s, own) && Dir(s, d) && NameRefused(s, own, t, own', d, NameError(s, d, n2)) && !BreaksDir(s, d, n2)
    requires Means(s, dir, name, j)
    ensures Means(t, dir, name, j)
  {
    hide Tidy, DirEntries, NameMap, Consistent, Refused, HasRoom, HasName;
    if NameError(s, d, n2) == -ENOSPC { RefusedDirs(s, own, t, own', d); }
  }

  lemma ContentKeepsName(s: FS, own: Owners, t: FS, own': Owners, i: nat, dir: nat, name: seq<byte>, j: u32)
    requires Sound(s, own) && OthersSame(s, own, t, own', i) && Means(s, dir, name, j) && i != dir
    ensures Means(t, dir, name, j)
  {
    hide Tidy, FileOk, OthersKeep, DirEntries, NameMap;
    OtherEntries(s, own, t, own', i, dir);
  }

  lemma CreateKeepsName(s: FS, own: Owners, t: FS, own': Owners, d: nat, n2: seq<byte>, dir: nat, name: seq<byte>, j: u32)
    requires Sound(s, own) && Dir(s, d) && NameError(s, d, n2) == 0 && Means(s, dir, name, j)
    requires NoNameGiven(s, t, own', d)
             || exists k: u32 :: FreeInode(s, k) && k < |t.inodes| && NameGiven(s, t, own', d, n2, k, t.inodes[k])
    ensures Means(t, dir, name, j)
  {
    hide Sound, RawOf, DirEntries, NameMap, FilesSame, NameError, NameGiven;
    NewNameDiffers(s, own, dir, name, j, d, n2);
    if NoNameGiven(s, t, own', d) {
      if dir != d { OtherDirectory(s, t, d, d, dir, name, j); }
    } else {
      var k: u32 :| FreeInode(s, k) && k < |t.inodes| && NameGiven(s, t, own', d, n2, k, t.inodes[k]);
      FreeInodeIsEmpty(s, own, k);
      GivenKeepsName(s, own, t, own', d, n2, k, t.inodes[k], dir, name, j);
    }
  }

  /** A step keeps every name but the one that it unlinks, as long as it does not start in a state in which it breaks the image. */
  lemma StepKeepsName(op: Op, s: FS, own: Owners, t: FS, own': Owners, r: int, dir: nat, name: seq<byte>, j: u32)
    requires Sound(s, own) && Allowed(op, s) && !Breaks(op, s) && Step(op, s, own, t, own', r) && Means(s, dir, name, j)
    requires !(op.DoUnlink? && op.dir == dir && op.name == name)
    ensures Means(t, dir, name, j)
  {
    hide Sound, NameRefused, NameError, NameGiven, NoNameGiven, RawOf, OthersSame, Wrote, Lengthened, ChangedSize, BreaksDir;
    hide NameMap, DirEntries, HasName, IsNewFile, IsLinkTo, FilesSame, FreeInode, NoFreeInode, BreaksResize, BlocksAfterUnlink;
    match op
    case DoCreate(d, n2, mode) =>
      if r == 0 { CreateKeepsName(s, own, t, own', d, n2, dir, name, j); } else { RefusalKeepsName(s, own, t, own', d, n2, dir, name, j); }
    case DoLink(src, d, n2) =>
      if r == 0 {
        NewNameDiffers(s, own, dir, name, j, d, n2);
        GivenKeepsName(s, own, t, own', d, n2, src, t.inodes[src], dir, name, j);
      } else {
        RefusalKeepsName(s, own, t, own', d, n2, dir, name, j);
      }
    case DoSymlink(d, n2, target) =>
      if |target| <= MAXSYMLINKLEN {
        if r == 0 { CreateKeepsName(s, own, t, own', d, n2, dir, name, j); } else { RefusalKeepsName(s, own, t, own', d, n2, dir, name, j); }
      }
    case DoUnlink(d, gone, ino) =>
      if r == 0 && dir != d { OtherDirectory(s, t, d, ino, dir, name, j); }
    case DoWrite(i, buffer, append, pos) =>
      WriteKeepsOthers(s, own, t, own', i, WriteStart(s, i, append, pos), buffer, r);
      ContentKeepsName(s, own, t, own', i, dir, name, j);
    case DoResize(i, size) =>
      if s.inodes[i].ftype != FTYPE_DIR {
        SizeKeepsOthers(s, own, t, own', i, size, r);
        ContentKeepsName(s, own, t, own', i, dir, name, j);
      }
  }

  // ----- the answers -----

  /** The error numbers of Linux: a name that is too long, a name that is taken, and no room for another. */
  ghost predicate NameAnswer(s: FS, dir: nat, name: seq<byte>, r: int) {
    && dir < |s.inodes| && (r == -36 <==> |name| > 123)
    && (r == -17 <==> |name| <= 123 && name in NameMap(DirEntries(s, dir)))
    && (r == 0 || r == -36 || r == -17 || r == -28)
  }

  lemma NameAnswered(s: FS, own: Owners, dir: nat, name: seq<byte>)
    requires Sound(s, own) && Dir(s, dir)
    ensures NameAnswer(s, dir, name, NameError(s, dir, name))
  {
    hide DirEntries, NameMap, HasRoom;
    NamesAreOk(s, own, dir);
    NameMapIs(DirEntries(s, dir), name);
  }

  /** What each operation on names answers, in terms of the names that the directory has. */
  lemma Answers(op: Op, s: FS, own: Owners, t: FS, own': Owners, r: int)
    requires Sound(s, own) && Allowed(op, s) && Step(op, s, own, t, own', r)
    ensures match op
            case DoCreate(dir, name, mode) => NameAnswer(s, dir, name, r)
            case DoLink(src, dir, name) => NameAnswer(s, dir, name, r)
            case DoSymlink(dir, name, target) => if |target| > 51 then r == -36 else NameAnswer(s, dir, name, r)
            case DoUnlink(dir, name, ino) => dir < |s.inodes| && r == if name in NameMap(DirEntries(s, dir)) then 0 else -2
            case DoWrite(i, buffer, append, pos) =>
              i < |s.inodes| && (WriteStart(s, i, append, pos) + |buffer| <= MAX_SIZE ==> r == |buffer| || r == -1)
            case DoResize(i, size) => r == 0 || r == -28 || Dir(s, i)
  {
    hide Sound, DirEntries, NameMap, NameError, NameAnswer, NameRefused, Created, Linked, Symlinked, NameTaken, BlocksAfterUnlink;
    hide WroteSized, RolledBack, SizeSet, NBlocks, Size2NBlocks;
    match op
    case DoCreate(dir, name, mode) => NameAnswered(s, own, dir, name);
    case DoLink(src, dir, name) => NameAnswered(s, own, dir, name);
    case DoSymlink(dir, name, target) => NameAnswered(s, own, dir, name);
    case DoUnlink(dir, name, ino) =>
      NamesAreOk(s, own, dir);
      NameMapIs(DirEntries(s, dir), name);
    case DoWrite(i, buffer, append, pos) =>
      var start := WriteStart(s, i, append, pos);
      if s.inodes[i].size < start + |buffer| <= MAX_SIZE { LengthenedIsWrote(s, own, t, own', i, start, buffer, r); }
    case DoResize(i, size) =>
  }

  // ----- runs -----

  /** Nothing that is done to other files changes what a file holds. */
  lemma {:induction false} RunKeepsFile(ops: seq<Op>, rs: seq<int>, states: seq<(FS, Owners)>, a: nat, b: nat, j: nat)
    requires Run(ops, rs, states) && Sound(states[0].0, states[0].1) && a <= b <= |ops| && LinkedFile(states[a].0, j)
    requires forall k :: a <= k < b ==> !Touches(ops[k], states[k].0, j)
    ensures KeepsFile(states[a].0, states[b].0, j)
    decreases b
  {
    hide Sound, Allowed, Breaks, Step, Run, RawOf;
    RunHasStates(ops, rs, states);
    if a < b {
      RunKeepsFile(ops, rs, states, a, b - 1, j);
      RunIsSound(ops, rs, states, b - 1);
      StepOfRun(ops, rs, states, b - 1);
      StepKeepsFile(ops[b - 1], states[b - 1].0, states[b - 1].1, states[b].0, states[b].1, rs[b - 1], j);
    }
  }

  /** A name goes on meaning the same file until it is unlinked. */
  lemma {:induction false} RunKeepsName(ops: seq<Op>, rs: seq<int>, states: seq<(FS, Owners)>, a: nat, b: nat, dir: nat, name: seq<byte>, j: u32)
    requires Run(ops, rs, states) && Sound(states[0].0, states[0].1) && a <= b <= |ops| && Means(states[a].0, dir, name, j)
    requires forall k :: a <= k < b ==> !(ops[k].DoUnlink? && ops[k].dir == dir && ops[k].name == name)
    ensures Means(states[b].0, dir, name, j)
    decreases b
  {
    hide Sound, Allowed, Breaks, Step, Run, Means;
    RunHasStates(ops, rs, states);
    if a < b {
      RunKeepsName(ops, rs, states, a, b - 1, dir, name, j);
      RunIsSound(ops, rs, states, b - 1);
      StepOfRun(ops, rs, states, b - 1);
      StepKeepsName(ops[b - 1], states[b - 1].0, states[b - 1].1, states[b].0, states[b].1, rs[b - 1], dir, name, j);
    }
  }

  // ----- what is written is what is read -----

  /** The file holds exactly these bytes. */
  ghost predicate HoldsBytes(s: FS, j: nat, bytes: seq<byte>) {
    LinkedFile(s, j) && s.inodes[j].size <= BLKSIZE * NBlocks(s.inodes[j]) && Content(s, j) == bytes
  }

  lemma KeptIsHeld(s: FS, t: FS, j: nat, bytes: seq<byte>)
    requires HoldsBytes(s, j, bytes) && KeepsFile(s, t, j)
    ensures HoldsBytes(t, j, bytes)
  {
    hide RawOf;
  }

  /** After a successful create the name means an empty regular file with this mode. */
  lemma CreatedIsEmpty(s: FS, own: Owners, t: FS, own': Owners, dir: nat, name: seq<byte>, mode: u32, j: u32)
    requires Sound(s, own) && Allowed(DoCreate(dir, name, mode), s) && Step(DoCreate(dir, name, mode), s, own, t, own', 0)
    requires FreeInode(s, j)
    ensures Means(t, dir, name, j) && HoldsBytes(t, j, [])
    ensures t.inodes[j].ftype == FTYPE_REG && t.inodes[j].nlink == 1 && t.inodes[j].mode == mode && t.inodes[j].size == 0
  {
    hide Sound, RawOf, DirEntries, NameMap, FilesSame, NameError, NBlocks;
    assert !NoFreeInode(s);
    var k: u32 :| FreeInode(s, k) && k < |t.inodes| && NameGiven(s, t, own', dir, name, k, t.inodes[k]) && IsNewFile(s.inodes[k], t.inodes[k], mode);
    assert k == j;
    EmptyContent(t, j);
  }

  lemma EmptyContent(t: FS, j: nat)
    requires j < |t.inodes| && t.inodes[j].size == 0
    ensures Content(t, j) == []
  {
  }

  /** A successful write puts its bytes where it was told to, and in an empty file there is nothing else then. */
  lemma WrittenIsHeld(s: FS, own: Owners, t: FS, own': Owners, j: nat, buffer: seq<byte>, append: bool, pos: nat, r: int)
    requires Sound(s, own) && LinkedFile(s, j) && Step(DoWrite(j, buffer, append, pos), s, own, t, own', r) && r >= 0
    requires WriteStart(s, j, append, pos) + |buffer| <= MAX_SIZE
    ensures r == |buffer| && LinkedFile(t, j) && t.inodes[j] == s.inodes[j].(size := t.inodes[j].size, ptrs := t.inodes[j].ptrs)
    ensures var start := WriteStart(s, j, append, pos);
            && start + |buffer| <= t.inodes[j].size <= BLKSIZE * NBlocks(t.inodes[j])
            && Content(t, j)[start..start + |buffer|] == buffer
            && (s.inodes[j].size <= start + |buffer| ==> t.inodes[j].size == start + |buffer|)
  {
    hide Consistent, OthersKeep, Tidy, Size2NBlocks, Splice, RawOf;
    var start := WriteStart(s, j, append, pos);
    if start + |buffer| > s.inodes[j].size { LengthenedIsWrote(s, own, t, own', j, start, buffer, r); }
    hide NBlocks, Content;
    SizesFit(s, own, t, own', j);
    WroteBytes(s, t, j, start, buffer);
  }

  lemma WroteBytes(s: FS, t: FS, j: nat, start: nat, buffer: seq<byte>)
    requires j < |s.inodes| && j < |t.inodes| && start + |buffer| <= t.inodes[j].size <= BLKSIZE * NBlocks(t.inodes[j])
    requires RawOf(t, j) == Splice(Extended(RawOf(s, j), NBlocks(t.inodes[j])), start, buffer)
    ensures Content(t, j)[start..start + |buffer|] == buffer
  {
    hide RawOf, NBlocks;
    assert Content(t, j)[start..start + |buffer|] == RawOf(t, j)[start..start + |buffer|];
  }

  /** What was written stays readable at its place until the file itself is written, resized, or loses its last name. */
  lemma WrittenStays(ops: seq<Op>, rs: seq<int>, states: seq<(FS, Owners)>, w: nat, m: nat, j: nat, buffer: seq<byte>, append: bool, pos: nat)
    requires Run(ops, rs, states) && Sound(states[0].0, states[0].1) && w < m <= |ops| && LinkedFile(states[w].0, j)
    requires ops[w] == DoWrite(j, buffer, append, pos) && rs[w] >= 0 && WriteStart(states[w].0, j, append, pos) + |buffer| <= MAX_SIZE
    requires forall k :: w < k < m ==> !Touches(ops[k], states[k].0, j)
    ensures LinkedFile(states[m].0, j)
    ensures var start, x := WriteStart(states[w].0, j, append, pos), states[m].0.inodes[j];
            start + |buffer| <= x.size <= BLKSIZE * NBlocks(x) && Content(states[m].0, j)[start..start + |buffer|] == buffer
  {
    hide Sound, Allowed, Breaks, Step, Run, RawOf;
    RunHasStates(ops, rs, states);
    RunIsSound(ops, rs, states, w);
    StepOfRun(ops, rs, states, w);
    WrittenIsHeld(states[w].0, states[w].1, states[w + 1].0, states[w + 1].1, j, buffer, append, pos, rs[w]);
    RunKeepsFile(ops, rs, states, w + 1, m, j);
  }

  /**
   * From create to read: the name that create made means, after any operations on other files and names, a regular file
   * of the given mode that holds exactly the bytes that one write has put there.
   */
  lemma CreateWriteRead(ops: seq<Op>, rs: seq<int>, states: seq<(FS, Owners)>, a: nat, w: nat, m: nat, dir: nat, name: seq<byte>, mode: u32,
                        j: u32, buffer: seq<byte>, append: bool)
    requires Run(ops, rs, states) && Sound(states[0].0, states[0].1) && a < w < m <= |ops|
    requires ops[a] == DoCreate(dir, name, mode) && rs[a] == 0 && FreeInode(states[a].0, j)
    requires ops[w] == DoWrite(j, buffer, append, 0) && rs[w] >= 0 && |buffer| <= MAX_SIZE
    requires forall k :: a < k < m && k != w ==> !Touches(ops[k], states[k].0, j)
    requires forall k :: a < k < m ==> !(ops[k].DoUnlink? && ops[k].dir == dir && ops[k].name == name)
    ensures Means(states[m].0, dir, name, j) && HoldsBytes(states[m].0, j, buffer)
    ensures states[m].0.inodes[j].ftype == FTYPE_REG && states[m].0.inodes[j].mode == mode
  {
    hide Sound, Allowed, Breaks, Step, Run, RawOf, Means, FreeInode;
    RunHasStates(ops, rs, states);
    RunIsSound(ops, rs, states, a);
    StepOfRun(ops, rs, states, a);
    CreatedIsEmpty(states[a].0, states[a].1, states[a + 1].0, states[a + 1].1, dir, name, mode, j);
    RunKeepsName(ops, rs, states, a + 1, m, dir, name, j);
    RunKeepsFile(ops, rs, states, a + 1, w, j);
    RunIsSound(ops, rs, states, w);
    StepOfRun(ops, rs, states, w);
    WrittenIsHeld(states[w].0, states[w].1, states[w + 1].0, states[w + 1].1, j, buffer, append, 0, rs[w]);
    assert Content(states[w + 1].0, j)[0..|buffer|] == Content(states[w + 1].0, j);
    RunKeepsFile(ops, rs, states, w + 1, m, j);
    KeptIsHeld(states[w + 1].0, states[m].0, j, buffer);
  }
}
