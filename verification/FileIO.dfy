/** ospfs_read and ospfs_write: files as plain byte sequences. */
module FileIO {
  import opened Words
  import opened BlockTree
  import opened FileSystem
  import opened Ownership
  import opened Appending
  import opened Image
  import opened SizeChange

  /** All bytes of the first n data blocks of a file, in order. */
  function Raw(d: seq<Cell>, p: Pointers, n: nat): (r: seq<byte>)
    ensures |r| == BLKSIZE * n
  {
    seq(BLKSIZE * n, x requires 0 <= x < BLKSIZE * n => DataBytes(d, p, x / BLKSIZE)[x % BLKSIZE])
  }

  function RawOf(s: FS, i: nat): (r: seq<byte>)
    requires i < |s.inodes|
    ensures |r| == BLKSIZE * NBlocks(s.inodes[i])
  {
    Raw(s.disk, s.inodes[i].ptrs, NBlocks(s.inodes[i]))
  }

  /** The contents of a file. */
  function Content(s: FS, i: nat): seq<byte>
    requires i < |s.inodes| && s.inodes[i].size <= BLKSIZE * NBlocks(s.inodes[i])
  {
    RawOf(s, i)[..s.inodes[i].size]
  }

  function Splice(raw: seq<byte>, pos: nat, s: seq<byte>): seq<byte>
    requires pos + |s| <= |raw|
  {
    raw[..pos] + s + raw[pos + |s|..]
  }

  /** The bytes of a file after its block count went from |raw| / 1024 to n: what both share is kept, the rest is zero. */
  function Extended(raw: seq<byte>, n: nat): (r: seq<byte>)
    ensures |r| == BLKSIZE * n
  {
    seq(BLKSIZE * n, x requires 0 <= x < BLKSIZE * n => if x < |raw| then raw[x] else 0)
  }

  lemma ResizedRaw(d: seq<Cell>, p: Pointers, d': seq<Cell>, p': Pointers, n: nat, m: nat)
    requires TreeResized(d, p, d', p', n, m)
    ensures Raw(d', p', m) == Extended(Raw(d, p, n), m)
  {
    forall x | 0 <= x < BLKSIZE * m
      ensures Raw(d', p', m)[x] == Extended(Raw(d, p, n), m)[x]
    {
      assert x / BLKSIZE < m && (x < BLKSIZE * n <==> x / BLKSIZE < n);
    }
  }

  /** A change to file i leaves the bytes of file j alone. */
  lemma OtherData(d: seq<Cell>, own: Owners, d': seq<Cell>, own': Owners, i: nat, x: Inode, j: nat)
    requires |d'| == |d| && OthersKeep(d, own, d', own', i) && FileOk(d, x, j, own) && j != i && x.ftype != FTYPE_SYMLINK
    ensures forall k: nat :: k < NBlocks(x) ==> DataBytes(d', x.ptrs, k) == DataBytes(d, x.ptrs, k)
  {
    var n, p := NBlocks(x), x.ptrs;
    TreeFrame(d, d', p, j, own, own', n);
    forall k: nat | k < n
      ensures DataBytes(d', p, k) == DataBytes(d, p, k)
    {
      assert Needs(n, Data(k)) && At(d, p, Data(k)) in own;
    }
  }

  /** The contents of every other file are what they were. */
  lemma OthersContent(s: FS, own: Owners, t: FS, own': Owners, i: nat, j: nat)
    requires j < |s.inodes| && j != i && s.inodes[j].ftype != FTYPE_SYMLINK
    requires FileOk(s.disk, s.inodes[j], j, own) && OthersSame(s, own, t, own', i)
    ensures t.inodes[j] == s.inodes[j] && RawOf(t, j) == RawOf(s, j)
  {
    hide FileOk, OthersKeep, DataBytes;
    OtherData(s.disk, own, t.disk, own', i, s.inodes[j], j);
    assert RawOf(t, j) == RawOf(s, j);
  }

  // ----- storing into a data block -----

  /** Block b, the k-th data block of file i, now holds blk. */
  ghost predicate Stored(s: FS, own: Owners, t: FS, i: nat, n: nat, k: nat, b: nat, blk: Block) {
    && Consistent(s, own) && i < |s.inodes| && s.inodes[i].ftype != FTYPE_SYMLINK && n == NBlocks(s.inodes[i])
    && k < n && b == At(s.disk, s.inodes[i].ptrs, Data(k)) && b < |s.disk|
    && t == s.(disk := s.disk[b := CellOf(blk)])
  }

  lemma MakeStored(s: FS, own: Owners, t: FS, i: nat, n: nat, k: nat, b: nat, blk: Block)
    requires Consistent(s, own) && i < |s.inodes| && s.inodes[i].ftype != FTYPE_SYMLINK && n == NBlocks(s.inodes[i])
    requires k < n && b == At(s.disk, s.inodes[i].ptrs, Data(k)) && b < |s.disk|
    requires t == s.(disk := s.disk[b := CellOf(blk)])
    ensures Stored(s, own, t, i, n, k, b, blk)
  {
  }

  lemma StoredTree(d: seq<Cell>, p: Pointers, i: nat, own: Owners, n: nat, k: nat, b: nat, blk: Block, d': seq<Cell>)
    requires TreeOk(d, p, i, own, n) && k < n && b == At(d, p, Data(k)) && b < |d| && d' == d[b := CellOf(blk)]
    ensures TreeOk(d', p, i, own, n) && OthersKeep(d, own, d', own, i)
    ensures forall slot :: Needs(n, slot) ==> At(d', p, slot) == At(d, p, slot)
    ensures forall x: nat :: x < n ==> DataBytes(d', p, x) == if x == k then blk else DataBytes(d, p, x)
  {
    assert Needs(n, Data(k)) && own[b] == Owner(i, Data(k));
    TreeFrame(d, d', p, i, own, own, n);
    forall x: nat | x < n
      ensures DataBytes(d', p, x) == if x == k then blk else DataBytes(d, p, x)
    {
      assert Needs(n, Data(x)) && own[At(d, p, Data(x))] == Owner(i, Data(x));
    }
  }

  lemma StoredKeeps(s: FS, own: Owners, t: FS, i: nat, n: nat, k: nat, b: nat, blk: Block)
    requires Stored(s, own, t, i, n, k, b, blk)
    ensures Consistent(t, own) && OthersSame(s, own, t, own, i) && t.inodes == s.inodes
    ensures forall x: nat :: x < n ==> DataBytes(t.disk, s.inodes[i].ptrs, x) == if x == k then blk else DataBytes(s.disk, s.inodes[i].ptrs, x)
  {
    hide TreeOk, OthersKeep;
    assert FileOk(s.disk, s.inodes[i], i, own);
    StoredTree(s.disk, s.inodes[i].ptrs, i, own, n, k, b, blk, t.disk);
    assert FileOk(t.disk, t.inodes[i], i, own);
    ConsistentFromOneFile(s, own, t, own, i);
  }

  /** Overwriting part of one data block overwrites that part of the file's bytes. */
  lemma StoredRaw(d: seq<Cell>, d': seq<Cell>, p: Pointers, n: nat, k: nat, off: nat, chunk: seq<byte>)
    requires k < n && off + |chunk| <= BLKSIZE
    requires forall x: nat :: x < n ==>
               DataBytes(d', p, x) == if x == k then PutBytes(DataBytes(d, p, k), off, chunk) else DataBytes(d, p, x)
    ensures BLKSIZE * k + off + |chunk| <= BLKSIZE * n
    ensures Raw(d', p, n) == Splice(Raw(d, p, n), BLKSIZE * k + off, chunk)
  {
    hide DataBytes;
    var pos := BLKSIZE * k + off;
    InBlock(BLKSIZE * k, k, n);
    forall x: nat | x < BLKSIZE * n
      ensures Raw(d', p, n)[x] == Splice(Raw(d, p, n), pos, chunk)[x]
    {
      InBlock(x, k, n);
    }
  }

  lemma InBlock(x: nat, k: nat, n: nat)
    requires k < n
    ensures BLKSIZE * k + BLKSIZE <= BLKSIZE * n
    ensures x / BLKSIZE == k <==> BLKSIZE * k <= x < BLKSIZE * k + BLKSIZE
    ensures x / BLKSIZE == k ==> x % BLKSIZE == x - BLKSIZE * k
    ensures x < BLKSIZE * n ==> x / BLKSIZE < n
  {
  }

  lemma SpliceTwice(raw: seq<byte>, pos: nat, a: seq<byte>, b: seq<byte>)
    requires pos + |a| + |b| <= |raw|
    ensures Splice(Splice(raw, pos, a), pos + |a|, b) == Splice(raw, pos, a + b)
  {
  }

  /** Part of one data block, as part of the file's bytes. */
  lemma RawSlice(d: seq<Cell>, p: Pointers, n: nat, k: nat, off: nat, len: nat)
    requires k < n && off + len <= BLKSIZE
    ensures BLKSIZE * k + off + len <= BLKSIZE * n
    ensures Raw(d, p, n)[BLKSIZE * k + off..BLKSIZE * k + off + len] == DataBytes(d, p, k)[off..off + len]
  {
    var pos := BLKSIZE * k + off;
    var a, b := Raw(d, p, n)[pos..pos + len], DataBytes(d, p, k)[off..off + len];
    forall x | 0 <= x < len
      ensures a[x] == b[x]
    {
      assert (pos + x) / BLKSIZE == k && (pos + x) % BLKSIZE == off + x;
    }
  }

  // ----- looking blocks up -----

  /** What a lookup needs to know about file i. */
  lemma LookupIsOwned(s: FS, own: Owners, i: nat, offset: u32)
    requires Consistent(s, own) && i < |s.inodes| && s.inodes[i].ftype != FTYPE_SYMLINK && offset < s.inodes[i].size
    ensures offset / BLKSIZE < NBlocks(s.inodes[i]) <= ALLOC_BITS
    ensures var b := At(s.disk, s.inodes[i].ptrs, Data(offset / BLKSIZE));
            b in own && own[b] == Owner(i, Data(offset / BLKSIZE)) && b > 0 && s.geo.DataStart() <= b < |s.disk|
    ensures offset / BLKSIZE >= NDIRECT ==>
              NFLAT <= offset / BLKSIZE || (s.geo.DataStart() <= s.inodes[i].ptrs.indirect < |s.disk|)
    ensures offset / BLKSIZE >= NFLAT ==>
              var q := W(s.disk, s.inodes[i].ptrs.indirect2, (offset / BLKSIZE - NFLAT) / NINDIRECT);
              s.geo.DataStart() <= s.inodes[i].ptrs.indirect2 < |s.disk| && s.geo.DataStart() <= q < |s.disk|
              && (offset / BLKSIZE - NFLAT) / NINDIRECT < NINDIRECT
  {
    var n, p, k := NBlocks(s.inodes[i]), s.inodes[i].ptrs, offset / BLKSIZE;
    assert FileOk(s.disk, s.inodes[i], i, own);
    FileIsShort(s, own, i);
    assert Needs(n, Data(k));
    OwnedIsUsable(s, own, At(s.disk, p, Data(k)));
    if k >= NDIRECT {
      assert Needs(n, Ind) && At(s.disk, p, Ind) == p.indirect;
      OwnedIsUsable(s, own, p.indirect);
    }
    if k >= NFLAT {
      PointersDistinct(s.disk, p, i, own, n);
      OwnedIsUsable(s, own, p.indirect2);
      var t := (k - NFLAT) / NINDIRECT;
      assert Needs(n, Sub(t)) && At(s.disk, p, Sub(t)) == W(s.disk, p.indirect2, t);
      OwnedIsUsable(s, own, W(s.disk, p.indirect2, t));
    }
  }

  /** ospfs_inode_blockno */
  method InodeBlockNo(fs: Ospfs, i: nat, offset: u32) returns (b: u32)
    requires fs.Valid() && Consistent(fs.View(), fs.own) && i < |fs.View().inodes|
    ensures b == if offset >= fs.View().inodes[i].size || fs.View().inodes[i].ftype == FTYPE_SYMLINK then 0
                 else At(fs.View().disk, fs.View().inodes[i].ptrs, Data(offset / BLKSIZE))
  {
    hide ViewOf, HasGeometry, Consistent;
    ConsistentShape(fs.View(), fs.own);
    var blockno := offset / BLKSIZE;
    var oi := fs.Oi(i);
    if offset >= oi.size || oi.ftype == FTYPE_SYMLINK {
      return 0;
    }
    LookupIsOwned(fs.View(), fs.own, i, offset);
    if blockno >= NDIRECT + NINDIRECT {
      var blockoff := blockno - (NDIRECT + NINDIRECT);
      var q := fs.Peek(oi.ptrs.indirect2, blockoff / NINDIRECT);
      b := fs.Peek(q, blockoff % NINDIRECT);
    } else if blockno >= NDIRECT {
      b := fs.Peek(oi.ptrs.indirect, blockno - NDIRECT);
    } else {
      b := oi.ptrs.direct[blockno];
    }
  }

  lemma ConsistentShape(s: FS, own: Owners)
    requires Consistent(s, own)
    ensures ShapeOk(s)
  {
  }

  // ----- ospfs_read -----

  /** How much of a read is done: block by block, and only the first piece may start inside a block. */
  ghost predicate ReadSoFar(s: FS, i: nat, pos0: nat, count: nat, amount: nat, out: seq<byte>)
    requires i < |s.inodes|
  {
    && amount <= count && pos0 + count <= |RawOf(s, i)|
    && out == RawOf(s, i)[pos0..pos0 + amount]
    && (amount == 0 || amount == count || (pos0 + amount) % BLKSIZE == 0)
  }

  lemma ReadOn(s: FS, i: nat, pos0: nat, count: nat, amount: nat, out: seq<byte>, n: nat, piece: seq<byte>)
    requires i < |s.inodes| && ReadSoFar(s, i, pos0, count, amount, out) && amount < count
    requires n == PieceLength(pos0 + amount, count, amount)
    requires var pos := pos0 + amount;
             piece == DataBytes(s.disk, s.inodes[i].ptrs, pos / BLKSIZE)[pos % BLKSIZE..pos % BLKSIZE + n]
    ensures 0 < n && amount + n <= count && ReadSoFar(s, i, pos0, count, amount + n, out + piece)
  {
    hide RawOf, DataBytes, NBlocks, PieceLength;
    var pos := pos0 + amount;
    PieceFits(pos0, count, amount);
    RawPiece(s, i, pos, n);
    SlicesJoin(RawOf(s, i), pos0, pos, pos + n);
  }

  lemma RawPiece(s: FS, i: nat, pos: nat, n: nat)
    requires i < |s.inodes| && pos < |RawOf(s, i)| && pos % BLKSIZE + n <= BLKSIZE
    ensures pos + n <= |RawOf(s, i)|
    ensures RawOf(s, i)[pos..pos + n] == DataBytes(s.disk, s.inodes[i].ptrs, pos / BLKSIZE)[pos % BLKSIZE..pos % BLKSIZE + n]
  {
    hide DataBytes, NBlocks;
    RawSlice(s.disk, s.inodes[i].ptrs, NBlocks(s.inodes[i]), pos / BLKSIZE, pos % BLKSIZE, n);
  }

  lemma SlicesJoin(raw: seq<byte>, a: nat, b: nat, c: nat)
    requires a <= b <= c <= |raw|
    ensures raw[a..b] + raw[b..c] == raw[a..c]
  {
  }

  /** Bytes to move next, as both loops compute it: the whole of 'count' is looked at when the position is misaligned. */
  function PieceLength(pos: nat, count: nat, amount: nat): (n: nat)
    requires amount <= count
    ensures pos % BLKSIZE + n <= BLKSIZE
  {
    var offset := pos % BLKSIZE;
    if offset != 0 then (if count < BLKSIZE - offset then count else BLKSIZE - offset)
    else if count - amount < BLKSIZE then count - amount else BLKSIZE
  }

  /** A piece is not empty, does not go too far, and ends with the range or at the end of a block. */
  lemma PieceFits(start: nat, count: nat, amount: nat)
    requires amount < count && (amount == 0 || (start + amount) % BLKSIZE == 0)
    ensures var n := PieceLength(start + amount, count, amount);
            0 < n && amount + n <= count && (amount + n == count || (start + amount + n) % BLKSIZE == 0)
  {
    var pos, n := start + amount, PieceLength(start + amount, count, amount);
    assert pos == BLKSIZE * (pos / BLKSIZE) + pos % BLKSIZE;
    if pos % BLKSIZE + n == BLKSIZE {
      assert pos + n == BLKSIZE * (pos / BLKSIZE + 1);
    }
  }

  /** One piece of the file, from a single block, goes to the user. */
  method CopyToUser(fs: Ospfs, i: nat, b: u32, pos0: nat, count: nat, amount: nat, ghost out: seq<byte>) returns (piece: seq<byte>)
    requires fs.Valid() && Consistent(fs.View(), fs.own) && i < |fs.View().inodes| && fs.View().inodes[i].ftype != FTYPE_SYMLINK
    requires pos0 + count <= fs.View().inodes[i].size && amount < count
    requires b == At(fs.View().disk, fs.View().inodes[i].ptrs, Data((pos0 + amount) / BLKSIZE))
    requires ReadSoFar(fs.View(), i, pos0, count, amount, out)
    ensures 0 < |piece| && amount + |piece| <= count
    ensures ReadSoFar(fs.View(), i, pos0, count, amount + |piece|, out + piece)
  {
    hide ViewOf, HasGeometry, Consistent, At, ReadSoFar, RawOf, NBlocks, PieceLength;
    var pos := pos0 + amount;
    var n := PieceLength(pos, count, amount);
    LookupIsOwned(fs.View(), fs.own, i, pos);
    piece := fs.Bytes(b)[pos % BLKSIZE..pos % BLKSIZE + n];
    ReadOn(fs.View(), i, pos0, count, amount, out, n, piece);
  }

  /** Positions have 64 bits, lookups have 32. */
  lemma WrapsTo(pos: nat, n: nat)
    requires pos % TWO32 + n < TWO32
    ensures (pos + n) % TWO32 == pos % TWO32 + n
  {
  }

  /** The bytes to read: cut at the end of the file, in 32 bits. */
  function ToRead(size: u32, count: u32, pos: nat): (n: nat) {
    if pos + count > size then (size - pos) % TWO32 else count
  }

  lemma ToReadIs(size: u32, count: u32, pos: nat)
    ensures var q, n := pos % TWO32, ToRead(size, count, pos);
            && (q <= size ==> q + n == if pos <= size then Min(pos + count, size) else size)
            && (q > size ==> n > 0)
    ensures pos <= size ==> pos % TWO32 == pos
  {
    assert size - pos == size - pos % TWO32 - pos / TWO32 * TWO32;
    ModTimes(size - pos % TWO32, pos / TWO32);
  }

  lemma {:induction false} ModTimes(x: int, k: nat)
    ensures (x - k * TWO32) % TWO32 == x % TWO32
  {
    if k > 0 { ModTimes(x, k - 1); }
  }

  /** Block by block; nothing is there for a position that is, in 32 bits, behind the end. */
  method ReadLoop(fs: Ospfs, i: nat, count: nat, pos0: nat) returns (r: int, out: seq<byte>, pos: int)
    requires fs.Valid() && Consistent(fs.View(), fs.own) && i < |fs.View().inodes| && fs.View().inodes[i].ftype != FTYPE_SYMLINK
    requires if pos0 % TWO32 <= fs.View().inodes[i].size then pos0 % TWO32 + count <= fs.View().inodes[i].size else count > 0
    ensures r == if pos0 % TWO32 <= fs.View().inodes[i].size then count else -EIO
    ensures r != -EIO ==> ReadSoFar(fs.View(), i, pos0 % TWO32, count, count, out) && pos == pos0 + count
    ensures r == -EIO ==> out == [] && pos == pos0
  {
    hide ViewOf, HasGeometry, Consistent, At, ReadSoFar, RawOf, NBlocks, PieceLength;
    ghost var s, q := fs.View(), pos0 % TWO32;
    ghost var inside := q <= s.inodes[i].size;
    SizeFits(s, fs.own, i);
    if inside { NothingRead(s, i, q, count); }
    var amount: nat := 0;
    pos, out := pos0, [];
    while amount < count
      invariant pos == pos0 + amount && 0 <= amount <= count
      invariant if inside then ReadSoFar(s, i, q, count, amount, out) else amount == 0 && out == []
    {
      WrapsTo(pos0, amount);
      var b := InodeBlockNo(fs, i, pos % TWO32);
      if b == 0 {
        if inside { LookupIsOwned(s, fs.own, i, q + amount); }
        return -EIO, out, pos;
      }
      var piece := CopyToUser(fs, i, b, pos % TWO32 - amount, count, amount, out);
      out := out + piece;
      amount := amount + |piece|;
      pos := pos + |piece|;
    }
    r := amount;
  }

  method Read(fs: Ospfs, i: nat, size: u32, pos0: nat) returns (r: int, out: seq<byte>, pos: int)
    requires fs.Valid() && Consistent(fs.View(), fs.own) && i < |fs.View().inodes| && fs.View().inodes[i].ftype != FTYPE_SYMLINK
    ensures fs.View().inodes[i].size <= BLKSIZE * NBlocks(fs.View().inodes[i])
    ensures pos0 <= fs.View().inodes[i].size ==>
              && out == Content(fs.View(), i)[pos0..Min(pos0 + size, fs.View().inodes[i].size)]
              && r == |out| && pos == pos0 + |out|
    ensures pos0 > fs.View().inodes[i].size ==> (r == -EIO <==> pos0 % TWO32 > fs.View().inodes[i].size)
    ensures pos0 > fs.View().inodes[i].size && r == -EIO ==> out == [] && pos == pos0
    ensures pos0 > fs.View().inodes[i].size && r != -EIO ==>
              out == Content(fs.View(), i)[pos0 % TWO32..] && r == |out| && pos == pos0 + |out|
  {
    hide ViewOf, HasGeometry, Consistent, ReadSoFar, RawOf, NBlocks, ToRead;
    ghost var s := fs.View();
    ConsistentShape(s, fs.own);
    SizeFits(s, fs.own, i);
    var oiSize := fs.Oi(i).size;
    var count := ToRead(oiSize, size, pos0);
    ToReadIs(oiSize, size, pos0);
    r, out, pos := ReadLoop(fs, i, count, pos0);
    if r != -EIO {
      AllRead(s, i, pos0 % TWO32, count, out);
    }
  }

  lemma NothingRead(s: FS, i: nat, pos0: nat, count: nat)
    requires i < |s.inodes| && pos0 + count <= |RawOf(s, i)|
    ensures ReadSoFar(s, i, pos0, count, 0, [])
  {
  }

  lemma AllRead(s: FS, i: nat, pos0: nat, count: nat, out: seq<byte>)
    requires i < |s.inodes| && pos0 + count <= s.inodes[i].size <= BLKSIZE * NBlocks(s.inodes[i])
    requires ReadSoFar(s, i, pos0, count, count, out)
    ensures |out| == count && out == Content(s, i)[pos0..pos0 + count]
  {
    var raw := RawOf(s, i);
    assert raw[..s.inodes[i].size][pos0..pos0 + count] == raw[pos0..pos0 + count];
  }

  lemma SizeFits(s: FS, own: Owners, i: nat)
    requires Consistent(s, own) && i < |s.inodes| && s.inodes[i].ftype != FTYPE_SYMLINK
    ensures s.inodes[i].size <= BLKSIZE * NBlocks(s.inodes[i]) == |RawOf(s, i)| <= BLKSIZE * ALLOC_BITS
  {
    assert FileOk(s.disk, s.inodes[i], i, own);
    FileIsShort(s, own, i);
  }

  // ----- ospfs_write -----

  /** File i of s with 'data' written over its bytes from 'start' on; nothing else changed. */
  ghost predicate Overwritten(s: FS, own: Owners, t: FS, i: nat, start: nat, data: seq<byte>) {
    && i < |s.inodes| && start + |data| <= |RawOf(s, i)|
    && Consistent(t, own) && OthersSame(s, own, t, own, i) && t.inodes == s.inodes
    && RawOf(t, i) == Splice(RawOf(s, i), start, data)
  }

  lemma OthersSameTransitive(s: FS, own: Owners, t: FS, own1: Owners, u: FS, own2: Owners, i: nat)
    requires OthersSame(s, own, t, own1, i) && OthersSame(t, own1, u, own2, i)
    ensures OthersSame(s, own, u, own2, i)
  {
  }

  lemma WriteOn(s: FS, own: Owners, t: FS, i: nat, start: nat, data: seq<byte>, t': FS, k: nat, b: nat, off: nat, chunk: seq<byte>)
    requires Overwritten(s, own, t, i, start, data) && k < NBlocks(s.inodes[i]) && off + |chunk| <= BLKSIZE
    requires start + |data| == BLKSIZE * k + off
    requires Stored(t, own, t', i, NBlocks(s.inodes[i]), k, b, PutBytes(DataBytes(t.disk, s.inodes[i].ptrs, k), off, chunk))
    ensures Overwritten(s, own, t', i, start, data + chunk)
  {
    var n, p := NBlocks(s.inodes[i]), s.inodes[i].ptrs;
    StoredKeeps(t, own, t', i, n, k, b, PutBytes(DataBytes(t.disk, p, k), off, chunk));
    OthersSameTransitive(s, own, t, own, t', own, i);
    hide OthersSame, Consistent, Stored, PutBytes, DataBytes;
    StoredRaw(t.disk, t'.disk, p, n, k, off, chunk);
    SpliceTwice(RawOf(s, i), start, data, chunk);
  }

  /** One round of the write loop. */
  method CopyFromUser(fs: Ospfs, i: nat, buffer: seq<byte>, pos0: nat, amount: nat, ghost s: FS) returns (n: nat)
    requires fs.Valid() && amount < |buffer| && i < |s.inodes| && s.inodes[i].ftype != FTYPE_SYMLINK
    requires pos0 + |buffer| <= s.inodes[i].size
    requires Overwritten(s, fs.own, fs.View(), i, pos0, buffer[..amount])
    requires amount == 0 || (pos0 + amount) % BLKSIZE == 0
    modifies fs.data
    ensures fs.Valid() && 0 < n && amount + n <= |buffer|
    ensures Overwritten(s, fs.own, fs.View(), i, pos0, buffer[..amount + n])
    ensures amount + n == |buffer| || (pos0 + amount + n) % BLKSIZE == 0
  {
    hide ViewOf, HasGeometry, Overwritten, At, RawOf, NBlocks, Consistent, Stored, PutBytes;
    ghost var t := fs.View();
    OverwrittenFile(s, fs.own, t, i, pos0, buffer[..amount]);
    var pos := pos0 + amount;
    LookupIsOwned(t, fs.own, i, pos);
    var b := InodeBlockNo(fs, i, pos);
    n := PieceLength(pos, |buffer|, amount);
    var chunk := buffer[amount..amount + n];
    var blk := PutBytes(fs.Bytes(b), pos % BLKSIZE, chunk);
    fs.PokeBlock(b, blk);
    MakeStored(t, fs.own, fs.View(), i, NBlocks(s.inodes[i]), pos / BLKSIZE, b, blk);
    WriteOn(s, fs.own, t, i, pos0, buffer[..amount], fs.View(), pos / BLKSIZE, b, pos % BLKSIZE, chunk);
    assert buffer[..amount] + chunk == buffer[..amount + n];
  }

  lemma OverwrittenFile(s: FS, own: Owners, t: FS, i: nat, start: nat, data: seq<byte>)
    requires Overwritten(s, own, t, i, start, data)
    ensures Consistent(t, own) && ShapeOk(t) && i < |t.inodes| == |s.inodes| && t.inodes[i] == s.inodes[i]
  {
  }

  /** Exactly the range from 'start' on is replaced, after the file was given another size. */
  ghost predicate WroteSized(s: FS, own: Owners, t: FS, own': Owners, i: nat, size: nat, start: nat, data: seq<byte>) {
    && Consistent(t, own') && OthersSame(s, own, t, own', i) && !Stale(t.inodes[i]) && size <= MAX_SIZE
    && t.inodes[i] == s.inodes[i].(size := size, ptrs := t.inodes[i].ptrs)
    && start + |data| <= BLKSIZE * NBlocks(t.inodes[i])
    && RawOf(t, i) == Splice(Extended(RawOf(s, i), NBlocks(t.inodes[i])), start, data)
  }

  /** The outcome of a write: exactly the range is replaced, after the file was extended as far as needed. */
  ghost predicate Wrote(s: FS, own: Owners, t: FS, own': Owners, i: nat, start: nat, data: seq<byte>) {
    i < |s.inodes| && WroteSized(s, own, t, own', i, Max(s.inodes[i].size, start + |data|), start, data)
  }

  /**
   * What becomes of a write that ends behind the end of the file. change_size gets the lower 32 bits of the end, and
   * lookups the lower 32 bits of the position: the file is cut or extended to the one, and written at the other. A range
   * that crosses a multiple of 2^32 starts behind the end that its file got. A size that wraps around leaves a file
   * without blocks, and where the pointers lead that are looked up next is not part of this model.
   */
  ghost predicate Lengthened(s: FS, own: Owners, t: FS, own': Owners, i: nat, start: nat, data: seq<byte>, r: int) {
    && i < |s.inodes|
    && var size := (start + |data|) % TWO32;
    if !Fits(NBlocks(s.inodes[i]), Size2NBlocks(size), |s.free|) then
      r == -1 && RolledBack(s, own, t, own', i, Size2NBlocks(size))
    else if size > MAX_SIZE || start % TWO32 + |data| >= TWO32 then
      SizeSet(s, own, t, own', i, size) && (size <= MAX_SIZE ==> r == -EIO)
    else
      r == |data| && WroteSized(s, own, t, own', i, size, start % TWO32, data)
  }

  /** Whether a write that needs the file to have 'size' bytes can have them. */
  ghost predicate CanHold(s: FS, i: nat, size: u32)
    requires i < |s.inodes|
  {
    size <= s.inodes[i].size || Fits(NBlocks(s.inodes[i]), Size2NBlocks(size), |s.free|)
  }

  lemma ExtendedThenOverwritten(s: FS, own: Owners, s1: FS, own': Owners, t: FS, i: nat, start: nat, data: seq<byte>)
    requires Consistent(s, own) && i < |s.inodes| && start + |data| <= MAX_SIZE
    requires s.inodes[i].ftype != FTYPE_SYMLINK && SizeSet(s, own, s1, own', i, (start + |data|) as u32)
    requires Overwritten(s1, own', t, i, start, data)
    ensures WroteSized(s, own, t, own', i, start + |data|, start, data)
  {
    var n, m := NBlocks(s.inodes[i]), Size2NBlocks(start + |data|);
    hide Consistent, OthersKeep, RawOf, Splice;
    assert TreeResized(s.disk, s.inodes[i].ptrs, s1.disk, s1.inodes[i].ptrs, n, m);
    ResizedRawOf(s, s1, i, n, m);
    assert OthersSame(s, own, s1, own', i);
    OthersSameTransitive(s, own, s1, own', t, own', i);
    Size2NBlocksIsCeiling(start + |data|);
  }

  lemma ResizedRawOf(s: FS, t: FS, i: nat, n: nat, m: nat)
    requires i < |s.inodes| == |t.inodes| && n == NBlocks(s.inodes[i]) && m == NBlocks(t.inodes[i])
    requires TreeResized(s.disk, s.inodes[i].ptrs, t.disk, t.inodes[i].ptrs, n, m)
    ensures RawOf(t, i) == Extended(RawOf(s, i), m)
  {
    ResizedRaw(s.disk, s.inodes[i].ptrs, t.disk, t.inodes[i].ptrs, n, m);
  }

  lemma JustOverwritten(s: FS, own: Owners, t: FS, i: nat, start: nat, data: seq<byte>)
    requires Overwritten(s, own, t, i, start, data) && start + |data| <= s.inodes[i].size <= BLKSIZE * NBlocks(s.inodes[i])
    requires !Stale(s.inodes[i]) && s.inodes[i].size <= MAX_SIZE
    ensures Wrote(s, own, t, own, i, start, data)
  {
    assert RawOf(s, i) == Extended(RawOf(s, i), NBlocks(s.inodes[i]));
  }

  lemma NothingOverwritten(s: FS, own: Owners, i: nat, start: nat)
    requires Consistent(s, own) && i < |s.inodes| && start <= |RawOf(s, i)|
    ensures Overwritten(s, own, s, i, start, [])
  {
  }

  method WriteLoop(fs: Ospfs, i: nat, buffer: seq<byte>, pos0: nat) returns (amount: nat)
    requires fs.Valid() && Consistent(fs.View(), fs.own) && i < |fs.View().inodes| && fs.View().inodes[i].ftype != FTYPE_SYMLINK
    requires pos0 + |buffer| <= fs.View().inodes[i].size
    modifies fs.data
    ensures fs.Valid() && amount == |buffer| && Overwritten(old(fs.View()), fs.own, fs.View(), i, pos0, buffer)
  {
    hide ViewOf, HasGeometry, Overwritten, Consistent, RawOf, NBlocks;
    ghost var s := fs.View();
    SizeFits(s, fs.own, i);
    amount := 0;
    NothingOverwritten(s, fs.own, i, pos0);
    while amount < |buffer|
      invariant fs.Valid() && amount <= |buffer|
      invariant Overwritten(s, fs.own, fs.View(), i, pos0, buffer[..amount])
      invariant amount == 0 || amount == |buffer| || (pos0 + amount) % BLKSIZE == 0
    {
      var n := CopyFromUser(fs, i, buffer, pos0, amount, s);
      amount := amount + n;
    }
    assert buffer[..amount] == buffer;
  }

  /** change_size, and then the loop. */
  method ExtendAndWrite(fs: Ospfs, i: nat, buffer: seq<byte>, pos: nat) returns (r: int)
    requires fs.Valid() && Consistent(fs.View(), fs.own) && i < |fs.View().inodes|
    requires fs.View().inodes[i].ftype != FTYPE_SYMLINK && !Stale(fs.View().inodes[i]) && |buffer| < TWO32
    modifies fs`own, fs.data
    ensures fs.Valid() && Lengthened(old(fs.View()), old(fs.own), fs.View(), fs.own, i, pos, buffer, r)
  {
    hide ViewOf, HasGeometry, Overwritten, Consistent, RawOf, NBlocks, WroteSized, RolledBack, SizeSet, Stale, Size2NBlocks;
    ghost var s, own := fs.View(), fs.own;
    EndWraps(pos, |buffer|);
    var size: u32 := (pos + |buffer|) % TWO32;
    var e := ChangeSize(fs, i, size);
    if e < 0 {
      return -1;
    }
    if size > MAX_SIZE {
      return -EIO;
    }
    ghost var s1 := fs.View();
    SizeSetFile(s, own, s1, fs.own, i, size);
    if pos % TWO32 + |buffer| < TWO32 {
      r := WriteLoop(fs, i, buffer, pos % TWO32);
      ExtendedThenOverwritten(s, own, s1, fs.own, fs.View(), i, pos % TWO32, buffer);
    } else {
      var b := InodeBlockNo(fs, i, pos % TWO32);
      assert b == 0;
      r := -EIO;
    }
  }

  method Write(fs: Ospfs, i: nat, buffer: seq<byte>, append: bool, fpos: nat) returns (r: int, ghost start: nat)
    requires fs.Valid() && Consistent(fs.View(), fs.own) && i < |fs.View().inodes|
    requires fs.View().inodes[i].ftype != FTYPE_SYMLINK && !Stale(fs.View().inodes[i]) && |buffer| < TWO32
    modifies fs`own, fs.data
    ensures fs.Valid() && start == if append then old(fs.View()).inodes[i].size else fpos
    ensures start + |buffer| <= MAX_SIZE ==> r == if CanHold(old(fs.View()), i, start + |buffer|) then |buffer| else -1
    ensures start + |buffer| <= MAX_SIZE && r >= 0 ==> Wrote(old(fs.View()), old(fs.own), fs.View(), fs.own, i, start, buffer)
    ensures start + |buffer| <= MAX_SIZE && r < 0 ==>
              RolledBack(old(fs.View()), old(fs.own), fs.View(), fs.own, i, Size2NBlocks(start + |buffer|))
    ensures start + |buffer| > old(fs.View()).inodes[i].size ==>
              Lengthened(old(fs.View()), old(fs.own), fs.View(), fs.own, i, start, buffer, r)
  {
    hide ViewOf, HasGeometry, Overwritten, Consistent, RawOf, NBlocks, WroteSized, RolledBack, Lengthened, Stale, Size2NBlocks;
    ghost var s, own := fs.View(), fs.own;
    SizeFits(s, own, i);
    var oi := fs.Oi(i);
    var pos := fpos;
    if append {
      pos := oi.size;
    }
    start := pos;
    if pos + |buffer| > oi.size {
      r := ExtendAndWrite(fs, i, buffer, pos);
      if pos + |buffer| <= MAX_SIZE { LengthenedIsWrote(s, own, fs.View(), fs.own, i, start, buffer, r); }
    } else {
      r := WriteLoop(fs, i, buffer, pos);
      JustOverwritten(s, own, fs.View(), i, start, buffer);
    }
  }

  /** Up to MAX_SIZE nothing wraps around. */
  lemma LengthenedIsWrote(s: FS, own: Owners, t: FS, own': Owners, i: nat, start: nat, data: seq<byte>, r: int)
    requires Lengthened(s, own, t, own', i, start, data, r) && s.inodes[i].size < start + |data| <= MAX_SIZE
    ensures r == if CanHold(s, i, start + |data|) then |data| else -1
    ensures if r >= 0 then Wrote(s, own, t, own', i, start, data) else RolledBack(s, own, t, own', i, Size2NBlocks(start + |data|))
  {
    hide NBlocks, WroteSized, RolledBack, SizeSet, Size2NBlocks;
    EndWraps(start, |data|);
  }

  lemma SizeSetFile(s: FS, own: Owners, t: FS, own': Owners, i: nat, size: u32)
    requires SizeSet(s, own, t, own', i, size) && size <= MAX_SIZE && s.inodes[i].ftype != FTYPE_SYMLINK
    ensures Consistent(t, own') && i < |t.inodes| && t.inodes[i].size == size && t.inodes[i].ftype != FTYPE_SYMLINK
  {
  }

  lemma EndWraps(start: nat, len: nat)
    requires len < TWO32
    ensures start < TWO32 ==> start % TWO32 == start
    ensures start + len < TWO32 ==> (start + len) % TWO32 == start + len
    ensures (start + len) % TWO32 == if start % TWO32 + len < TWO32 then start % TWO32 + len else start % TWO32 + len - TWO32
  {
  }

  // ----- files as plain byte sequences -----

  lemma SizesFit(s: FS, own: Owners, t: FS, own': Owners, i: nat)
    requires Consistent(s, own) && Consistent(t, own') && i < |s.inodes| == |t.inodes|
    requires s.inodes[i].ftype == t.inodes[i].ftype != FTYPE_SYMLINK
    ensures s.inodes[i].size <= BLKSIZE * NBlocks(s.inodes[i]) && t.inodes[i].size <= BLKSIZE * NBlocks(t.inodes[i])
    ensures s.inodes[i].size <= t.inodes[i].size ==> NBlocks(s.inodes[i]) <= NBlocks(t.inodes[i])
  {
    SizeFits(s, own, i);
    SizeFits(t, own', i);
    Size2NBlocksIsCeiling(s.inodes[i].size);
    Size2NBlocksIsCeiling(t.inodes[i].size);
  }

  /** A splice inside a clipped sequence. */
  lemma SpliceClipped(raw: seq<byte>, raw': seq<byte>, size: nat, start: nat, data: seq<byte>)
    requires start <= size <= |raw| && start + |data| <= |raw'| && size <= |raw'|
    requires forall x :: 0 <= x < |raw'| ==>
               raw'[x] == if start <= x < start + |data| then data[x - start] else if x < |raw| then raw[x] else 0
    ensures raw'[..Max(size, start + |data|)] == raw[..size][..start] + data + raw[..size][Min(start + |data|, size)..]
  {
    var end := start + |data|;
    var a, b := raw'[..Max(size, end)], raw[..size][..start] + data + raw[..size][Min(end, size)..];
    assert |a| == |b|;
    forall x | 0 <= x < |a|
      ensures a[x] == b[x]
    {
    }
  }

  lemma SpliceAt(raw: seq<byte>, n: nat, start: nat, data: seq<byte>)
    requires start + |data| <= BLKSIZE * n
    ensures var r := Splice(Extended(raw, n), start, data);
            |r| == BLKSIZE * n && forall x :: 0 <= x < |r| ==>
              r[x] == if start <= x < start + |data| then data[x - start] else if x < |raw| then raw[x] else 0
  {
  }

  /** A write that starts inside the file or at its end replaces its range of a plain byte sequence. */
  lemma WriteReplaces(s: FS, own: Owners, t: FS, own': Owners, i: nat, start: nat, data: seq<byte>)
    requires Consistent(s, own) && Wrote(s, own, t, own', i, start, data) && s.inodes[i].ftype != FTYPE_SYMLINK
    requires start <= s.inodes[i].size
    ensures s.inodes[i].size <= BLKSIZE * NBlocks(s.inodes[i]) && t.inodes[i].size <= BLKSIZE * NBlocks(t.inodes[i])
    ensures Content(t, i) == Content(s, i)[..start] + data + Content(s, i)[Min(start + |data|, s.inodes[i].size)..]
  {
    hide Consistent, OthersKeep, RawOf, Splice, Extended, NBlocks;
    SizesFit(s, own, t, own', i);
    SpliceAt(RawOf(s, i), NBlocks(t.inodes[i]), start, data);
    SpliceClipped(RawOf(s, i), RawOf(t, i), s.inodes[i].size, start, data);
  }

  /**
   * A write that starts beyond the end: old bytes stay, and the gap reads as zero from the first new block on. Before
   * that it reads as whatever the last old block held behind the old end.
   */
  lemma WriteBeyondEnd(s: FS, own: Owners, t: FS, own': Owners, i: nat, start: nat, data: seq<byte>)
    requires Consistent(s, own) && Wrote(s, own, t, own', i, start, data) && s.inodes[i].ftype != FTYPE_SYMLINK
    requires start > s.inodes[i].size
    ensures s.inodes[i].size <= BLKSIZE * NBlocks(s.inodes[i]) && t.inodes[i].size <= BLKSIZE * NBlocks(t.inodes[i])
    ensures |Content(t, i)| == start + |data| && Content(t, i)[start..] == data
    ensures Content(t, i)[..s.inodes[i].size] == Content(s, i)
    ensures forall x :: s.inodes[i].size <= x < start ==>
              Content(t, i)[x] == if x < |RawOf(s, i)| then RawOf(s, i)[x] else 0
  {
    hide Consistent, OthersKeep, RawOf, Splice, Extended, NBlocks;
    SizesFit(s, own, t, own', i);
    SpliceAt(RawOf(s, i), NBlocks(t.inodes[i]), start, data);
    assert Content(t, i)[start..] == data;
    assert Content(t, i)[..s.inodes[i].size] == Content(s, i);
  }

  // ----- ospfs_notify_change -----

  const EPERM: int := 1

  /** The file has room for bytes up to 'end', and its size says so. */
  ghost predicate Reaches(t: FS, i: nat, end: nat) {
    i < |t.inodes| && end <= t.inodes[i].size && end <= BLKSIZE * NBlocks(t.inodes[i])
  }

  /**
   * A write whose range ends beyond the file first calls change_size, whose argument has 32 bits: when that succeeds, the
   * file reaches to the end of the range exactly when the end is no larger than MAX_SIZE.
   */
  lemma ExtensionReachesIff(s: FS, own: Owners, t: FS, own': Owners, i: nat, end: nat)
    requires Consistent(s, own) && i < |s.inodes| && s.inodes[i].ftype != FTYPE_SYMLINK
    requires ChangedSize(s, own, t, own', i, end % TWO32, 0)
    ensures Reaches(t, i, end) <==> end <= MAX_SIZE
  {
    hide Consistent;
    var n, m := NBlocks(s.inodes[i]), Size2NBlocks(end % TWO32);
    ResizedKeepsType(s, own, t, own', i, n, m);
    Size2NBlocksIsCeiling(end % TWO32);
  }

  /** The ATTR_SIZE part of ospfs_notify_change: directories cannot be resized. */
  method SetAttrSize(fs: Ospfs, i: nat, size: u32) returns (r: int)
    requires fs.Valid() && Consistent(fs.View(), fs.own) && i < |fs.View().inodes|
    requires fs.View().inodes[i].ftype != FTYPE_SYMLINK && !Stale(fs.View().inodes[i])
    modifies fs`own, fs.data
    ensures fs.Valid()
    ensures old(fs.View()).inodes[i].ftype == FTYPE_DIR ==> r == -EPERM && fs.View() == old(fs.View()) && fs.own == old(fs.own)
    ensures old(fs.View()).inodes[i].ftype != FTYPE_DIR ==> ChangedSize(old(fs.View()), old(fs.own), fs.View(), fs.own, i, size, r)
  {
    if fs.Oi(i).ftype == FTYPE_DIR {
      return -EPERM;
    }
    r := ChangeSize(fs, i, size);
  }
}
