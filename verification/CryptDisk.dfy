/** The encrypted storage of the ramdisk: XOR with a 64-byte key that changes on every read. */
module CryptDisk {

  const KEY_LENGTH: nat := 64

  /** written_sectors has one bit for each 64-byte piece of a 16 KiB disk. */
  const PIECES: nat := 256

  lemma XorTwice(a: bv8, k: bv8)
    ensures (a ^ k) ^ k == a
  {
  }

  lemma XorRekey(a: bv8, k: bv8, n: bv8)
    ensures ((a ^ k) ^ n) ^ n == a ^ k
  {
  }

  /** Data on its way to or from byte position 'off' of the disk. */
  function Crypt(data: seq<bv8>, key: seq<bv8>, off: nat): (r: seq<bv8>)
    requires |key| == KEY_LENGTH
    ensures |r| == |data|
  {
    seq(|data|, i requires 0 <= i < |data| => data[i] ^ key[(off + i) % KEY_LENGTH])
  }

  predicate Nonzero(s: seq<bv8>) { exists i :: 0 <= i < |s| && s[i] != 0 }

  function FirstPiece(len: nat): nat { if len < KEY_LENGTH then len else KEY_LENGTH }

  /** The marks after aligned data was written from piece p on: a whole piece of zeros unmarks its piece. */
  function MarkPieces(marks: seq<bool>, p: nat, data: seq<bv8>): (r: seq<bool>)
    requires |marks| == PIECES && p * KEY_LENGTH + |data| <= PIECES * KEY_LENGTH
    ensures |r| == PIECES
    decreases |data|
  {
    if data == [] then marks
    else
      var n := FirstPiece(|data|);
      MarkPieces(MarkOne(marks, p, data[..n]), p + 1, data[n..])
  }

  function MarkOne(marks: seq<bool>, p: nat, piece: seq<bv8>): (r: seq<bool>)
    requires |marks| == PIECES && p < PIECES
    ensures |r| == PIECES
  {
    if Nonzero(piece) then marks[p := true] else if |piece| == KEY_LENGTH then marks[p := false] else marks
  }

  /** How much of a request lies before the first piece boundary. */
  function Lead(off: nat): nat { if off % KEY_LENGTH == 0 then 0 else KEY_LENGTH - off % KEY_LENGTH }

  /** The marks after a write at any position. A leading part of zeros shifts all later marks down by one piece. */
  function MarksAfter(marks: seq<bool>, off: nat, data: seq<bv8>): (r: seq<bool>)
    requires |marks| == PIECES && Lead(off) <= |data| && off + |data| <= PIECES * KEY_LENGTH
    ensures |r| == PIECES
  {
    var lead, p := Lead(off), off / KEY_LENGTH;
    if lead == 0 then MarkPieces(marks, p, data)
    else if Nonzero(data[..lead]) then MarkPieces(marks[p := true], p + 1, data[lead..])
    else MarkPieces(marks, p, data[lead..])
  }

  /** Every piece of the request, leading and trailing parts included, holds a byte that is not zero. */
  ghost predicate PiecesNonzero(data: seq<bv8>)
    decreases |data|
  {
    data != [] ==> Nonzero(data[..FirstPiece(|data|)]) && PiecesNonzero(data[FirstPiece(|data|)..])
  }

  ghost predicate RequestNonzero(off: nat, data: seq<bv8>)
    requires Lead(off) <= |data|
  {
    (Lead(off) > 0 ==> Nonzero(data[..Lead(off)])) && PiecesNonzero(data[Lead(off)..])
  }

  /** Pieces p, p + 1, ... as far as 'len' bytes reach are marked. */
  ghost predicate AllMarked(marks: seq<bool>, p: nat, len: nat) {
    forall q: nat :: p <= q && q * KEY_LENGTH < p * KEY_LENGTH + len && q < |marks| ==> marks[q]
  }

  /** A write of pieces that are not all zero only adds marks, and marks every piece it touches. */
  lemma {:induction false} NonzeroPiecesMark(marks: seq<bool>, p: nat, data: seq<bv8>)
    requires |marks| == PIECES && p * KEY_LENGTH + |data| <= PIECES * KEY_LENGTH && PiecesNonzero(data)
    ensures AllMarked(MarkPieces(marks, p, data), p, |data|)
    ensures forall q :: 0 <= q < PIECES && marks[q] ==> MarkPieces(marks, p, data)[q]
    decreases |data|
  {
    if data != [] {
      var n := FirstPiece(|data|);
      var m := MarkOne(marks, p, data[..n]);
      NonzeroPiecesMark(m, p + 1, data[n..]);
      assert m[p];
      var r := MarkPieces(marks, p, data);
      forall q: nat | p <= q && q * KEY_LENGTH < p * KEY_LENGTH + |data| && q < PIECES
        ensures r[q]
      {
        if q > p { assert q * KEY_LENGTH < (p + 1) * KEY_LENGTH + |data[n..]|; }
      }
    }
  }

  lemma {:induction false} EarlierMarksStay(marks: seq<bool>, p: nat, data: seq<bv8>, q: nat)
    requires |marks| == PIECES && p * KEY_LENGTH + |data| <= PIECES * KEY_LENGTH && q < PIECES
    requires q < p || q * KEY_LENGTH >= p * KEY_LENGTH + |data|
    ensures MarkPieces(marks, p, data)[q] == marks[q]
    decreases |data|
  {
    if data != [] {
      var n := FirstPiece(|data|);
      EarlierMarksStay(MarkOne(marks, p, data[..n]), p + 1, data[n..], q);
    }
  }

  /** Piece i of aligned data is marked afterwards if it is not all zero, or is a partial piece already marked. */
  ghost predicate Stays(marks: seq<bool>, p: nat, data: seq<bv8>)
    requires |marks| == PIECES && p * KEY_LENGTH + |data| <= PIECES * KEY_LENGTH
    decreases |data|
  {
    data != [] ==>
      var n := FirstPiece(|data|);
      (Nonzero(data[..n]) || (n < KEY_LENGTH && marks[p])) && Stays(marks, p + 1, data[n..])
  }

  /** An aligned write leaves every piece it touches marked exactly when no whole piece of it is zero, and no partial one unmarked. */
  lemma {:induction false} AlignedMarksIff(marks: seq<bool>, p: nat, data: seq<bv8>)
    requires |marks| == PIECES && p * KEY_LENGTH + |data| <= PIECES * KEY_LENGTH
    ensures AllMarked(MarkPieces(marks, p, data), p, |data|) <==> Stays(marks, p, data)
    decreases |data|
  {
    if data != [] {
      var n := FirstPiece(|data|);
      var m, rest := MarkOne(marks, p, data[..n]), data[n..];
      AlignedMarksIff(m, p + 1, rest);
      EarlierMarksStay(m, p + 1, rest, p);
      StaysSame(m, marks, p + 1, rest);
      var r := MarkPieces(marks, p, data);
      assert r == MarkPieces(m, p + 1, rest) && r[p] == m[p];
      assert AllMarked(r, p, |data|) <==> r[p] && AllMarked(r, p + 1, |rest|) by {
        forall q: nat | q < PIECES
          ensures p <= q && q * KEY_LENGTH < p * KEY_LENGTH + |data| <==> q == p || (p + 1 <= q && q * KEY_LENGTH < (p + 1) * KEY_LENGTH + |rest|)
        {
        }
      }
    }
  }

  lemma {:induction false} StaysSame(m: seq<bool>, m': seq<bool>, p: nat, data: seq<bv8>)
    requires |m| == |m'| == PIECES && p * KEY_LENGTH + |data| <= PIECES * KEY_LENGTH
    requires forall q :: p <= q < PIECES ==> m[q] == m'[q]
    ensures Stays(m, p, data) <==> Stays(m', p, data)
    decreases |data|
  {
    if data != [] {
      StaysSame(m, m', p + 1, data[FirstPiece(|data|)..]);
    }
  }

  /** Only marks of pieces that the request touches can change. */
  lemma MarksElsewhereStay(marks: seq<bool>, off: nat, data: seq<bv8>, q: nat)
    requires |marks| == PIECES && Lead(off) <= |data| && off + |data| <= PIECES * KEY_LENGTH && q < PIECES
    requires q < off / KEY_LENGTH || q * KEY_LENGTH >= off + |data|
    ensures MarksAfter(marks, off, data)[q] == marks[q]
  {
    var lead, p := Lead(off), off / KEY_LENGTH;
    if lead == 0 {
      EarlierMarksStay(marks, p, data, q);
    } else {
      assert off + lead == (p + 1) * KEY_LENGTH;
      EarlierMarksStay(marks[p := true], p + 1, data[lead..], q);
      EarlierMarksStay(marks, p, data[lead..], q);
    }
  }

  /** A request without zero pieces leaves all pieces it touches marked, and no piece unmarked. */
  lemma NonzeroRequestMarks(marks: seq<bool>, off: nat, data: seq<bv8>)
    requires |marks| == PIECES && Lead(off) <= |data| && off + |data| <= PIECES * KEY_LENGTH && RequestNonzero(off, data)
    ensures forall q :: 0 <= q < PIECES && marks[q] ==> MarksAfter(marks, off, data)[q]
    ensures forall x :: off <= x < off + |data| ==> MarksAfter(marks, off, data)[x / KEY_LENGTH]
  {
    var lead, p := Lead(off), off / KEY_LENGTH;
    var r := MarksAfter(marks, off, data);
    if lead == 0 {
      NonzeroPiecesMark(marks, p, data);
      assert off == p * KEY_LENGTH && data[0..] == data;
    } else {
      assert off + lead == (p + 1) * KEY_LENGTH;
      NonzeroPiecesMark(marks[p := true], p + 1, data[lead..]);
    }
    forall x | off <= x < off + |data|
      ensures r[x / KEY_LENGTH]
    {
      var q := x / KEY_LENGTH;
      assert q * KEY_LENGTH <= x && p <= q;
    }
  }

  // ----- what the disk holds -----

  /** Each byte written so far decrypts to what was last written there. */
  ghost predicate Decrypts(raw: seq<bv8>, key: seq<bv8>, plain: map<nat, bv8>) {
    |key| == KEY_LENGTH && forall x :: x in plain ==> x < |raw| && raw[x] ^ key[x % KEY_LENGTH] == plain[x]
  }

  /** Each byte written so far lies in a piece that the next change of keys will re-encrypt. */
  ghost predicate Covered(marks: seq<bool>, plain: map<nat, bv8>) {
    forall x :: x in plain ==> x / KEY_LENGTH < |marks| && marks[x / KEY_LENGTH]
  }

  /** The map after 'data' was written at 'off'. */
  function Written(plain: map<nat, bv8>, off: nat, data: seq<bv8>): (r: map<nat, bv8>)
    ensures forall x :: x in r <==> x in plain || off <= x < off + |data|
    ensures forall x :: x in r ==> r[x] == if off <= x < off + |data| then data[x - off] else plain[x]
    decreases |data|
  {
    if data == [] then plain else Written(plain[off := data[0]], off + 1, data[1..])
  }

  function Overlaid(raw: seq<bv8>, off: nat, s: seq<bv8>): (r: seq<bv8>)
    requires off + |s| <= |raw|
    ensures |r| == |raw|
  {
    raw[..off] + s + raw[off + |s|..]
  }

  lemma WrittenDecrypts(raw: seq<bv8>, key: seq<bv8>, plain: map<nat, bv8>, off: nat, data: seq<bv8>)
    requires Decrypts(raw, key, plain) && off + |data| <= |raw|
    ensures Decrypts(Overlaid(raw, off, Crypt(data, key, off)), key, Written(plain, off, data))
  {
    var raw', plain' := Overlaid(raw, off, Crypt(data, key, off)), Written(plain, off, data);
    forall x | x in plain'
      ensures x < |raw'| && raw'[x] ^ key[x % KEY_LENGTH] == plain'[x]
    {
      if off <= x < off + |data| {
        XorTwice(data[x - off], key[x % KEY_LENGTH]);
      }
    }
  }

  /**
   * Which requests leave the next change of keys all written bytes. A nonzero leading part marks its own piece, and each
   * later piece decides for itself. A leading part of zeros lets each later piece decide for the one before it, and the
   * last piece must be marked already.
   */
  ghost predicate KeepsMarks(marks: seq<bool>, off: nat, data: seq<bv8>)
    requires |marks| == PIECES && Lead(off) <= |data| && off + |data| <= PIECES * KEY_LENGTH
  {
    var p, rest := off / KEY_LENGTH, data[Lead(off)..];
    if Lead(off) == 0 then Stays(marks, p, data)
    else if Nonzero(data[..Lead(off)]) then Stays(marks, p + 1, rest)
    else Stays(marks, p, rest) && marks[p + (|rest| + KEY_LENGTH - 1) / KEY_LENGTH]
  }

  /** Exactly then no byte of the request, nor of anything written before, is spared by the next change of keys. */
  lemma CoveredIff(marks: seq<bool>, plain: map<nat, bv8>, off: nat, data: seq<bv8>)
    requires |marks| == PIECES && Lead(off) <= |data| && off + |data| <= PIECES * KEY_LENGTH && Covered(marks, plain)
    ensures Covered(MarksAfter(marks, off, data), Written(plain, off, data)) <==> KeepsMarks(marks, off, data)
  {
    hide Written, MarksAfter, KeepsMarks, Covered, AllMarked;
    TouchedMarkedIff(marks, off, data);
    if AllMarked(MarksAfter(marks, off, data), off / KEY_LENGTH, off % KEY_LENGTH + |data|) {
      MarkedIsCovered(marks, plain, off, data);
    }
    if Covered(MarksAfter(marks, off, data), Written(plain, off, data)) {
      CoveredIsMarked(marks, plain, off, data);
    }
  }

  /** A request leaves every piece it touches marked exactly under that condition. */
  lemma TouchedMarkedIff(marks: seq<bool>, off: nat, data: seq<bv8>)
    requires |marks| == PIECES && Lead(off) <= |data| && off + |data| <= PIECES * KEY_LENGTH
    ensures AllMarked(MarksAfter(marks, off, data), off / KEY_LENGTH, off % KEY_LENGTH + |data|) <==> KeepsMarks(marks, off, data)
  {
    hide Stays, MarkPieces, AllMarked, Nonzero;
    var lead, p := Lead(off), off / KEY_LENGTH;
    if lead == 0 {
      AlignedMarksIff(marks, p, data);
    } else {
      var rest := data[lead..];
      assert off % KEY_LENGTH + |data| == KEY_LENGTH + |rest|;
      if Nonzero(data[..lead]) {
        var m := marks[p := true];
        AlignedMarksIff(m, p + 1, rest);
        EarlierMarksStay(m, p + 1, rest, p);
        StaysSame(m, marks, p + 1, rest);
        FirstMarked(MarkPieces(m, p + 1, rest), p, |rest|);
      } else {
        var last := p + (|rest| + KEY_LENGTH - 1) / KEY_LENGTH;
        AlignedMarksIff(marks, p, rest);
        EarlierMarksStay(marks, p, rest, last);
        LastMarked(MarkPieces(marks, p, rest), p, |rest|);
      }
    }
  }

  /** One piece more at the front, or at the end. */
  lemma FirstMarked(r: seq<bool>, p: nat, len: nat)
    requires p < |r|
    ensures AllMarked(r, p, KEY_LENGTH + len) <==> r[p] && AllMarked(r, p + 1, len)
  {
  }

  lemma LastMarked(r: seq<bool>, p: nat, len: nat)
    requires p + (len + KEY_LENGTH - 1) / KEY_LENGTH < |r|
    ensures AllMarked(r, p, KEY_LENGTH + len) <==> r[p + (len + KEY_LENGTH - 1) / KEY_LENGTH] && AllMarked(r, p, len)
  {
  }

  lemma MarkedIsCovered(marks: seq<bool>, plain: map<nat, bv8>, off: nat, data: seq<bv8>)
    requires |marks| == PIECES && Lead(off) <= |data| && off + |data| <= PIECES * KEY_LENGTH && Covered(marks, plain)
    requires AllMarked(MarksAfter(marks, off, data), off / KEY_LENGTH, off % KEY_LENGTH + |data|)
    ensures Covered(MarksAfter(marks, off, data), Written(plain, off, data))
  {
    hide MarkPieces, Nonzero, MarksAfter, Lead;
    var p, r := off / KEY_LENGTH, MarksAfter(marks, off, data);
    forall x | x in Written(plain, off, data)
      ensures x / KEY_LENGTH < PIECES && r[x / KEY_LENGTH]
    {
      var q := x / KEY_LENGTH;
      if q < p || q * KEY_LENGTH >= off + |data| {
        MarksElsewhereStay(marks, off, data, q);
      }
    }
  }

  lemma CoveredIsMarked(marks: seq<bool>, plain: map<nat, bv8>, off: nat, data: seq<bv8>)
    requires |marks| == PIECES && Lead(off) <= |data| && off + |data| <= PIECES * KEY_LENGTH
    requires Covered(MarksAfter(marks, off, data), Written(plain, off, data))
    ensures AllMarked(MarksAfter(marks, off, data), off / KEY_LENGTH, off % KEY_LENGTH + |data|)
  {
    hide MarksAfter;
    var p, r := off / KEY_LENGTH, MarksAfter(marks, off, data);
    forall q: nat | p <= q && q * KEY_LENGTH < p * KEY_LENGTH + (off % KEY_LENGTH + |data|) && q < |r|
      ensures r[q]
    {
      var x := if q == p then off else q * KEY_LENGTH;
      assert x / KEY_LENGTH == q && x in Written(plain, off, data);
    }
  }

  /** Half a piece of zeros, then a whole piece of ones: the mark goes to the piece before, and the ones are lost. */
  lemma ShiftLosesAPiece()
    ensures var marks: seq<bool>, data: seq<bv8> := seq(PIECES, _ => false), seq(96, i => if i < 32 then 0 else 1);
            Covered(marks, map[]) && !MarksAfter(marks, 32, data)[1] && !Covered(MarksAfter(marks, 32, data), Written(map[], 32, data))
  {
    hide Written;
    var marks: seq<bool>, data: seq<bv8> := seq(PIECES, _ => false), seq(96, i => if i < 32 then 0 else 1);
    var rest := data[32..];
    var m := MarkOne(marks, 0, rest[..64]);
    assert !Nonzero(data[..32]);
    assert rest[64..] == [];
    assert MarksAfter(marks, 32, data) == MarkPieces(marks, 0, rest) == MarkPieces(m, 1, []) == m;
    assert 64 in Written(map[], 32, data);
  }

  /** raw with every marked piece taken from one key to the other. */
  function Rekeyed(raw: seq<bv8>, marks: seq<bool>, key: seq<bv8>, rand: seq<bv8>): (r: seq<bv8>)
    requires |raw| <= PIECES * KEY_LENGTH && |marks| == PIECES && |key| == |rand| == KEY_LENGTH
    ensures |r| == |raw|
  {
    seq(|raw|, x requires 0 <= x < |raw| =>
      if marks[x / KEY_LENGTH] then (raw[x] ^ key[x % KEY_LENGTH]) ^ rand[x % KEY_LENGTH] else raw[x])
  }

  /** Changing keys keeps every covered byte readable. */
  lemma RekeyedDecrypts(raw: seq<bv8>, marks: seq<bool>, key: seq<bv8>, rand: seq<bv8>, plain: map<nat, bv8>)
    requires |raw| <= PIECES * KEY_LENGTH && |marks| == PIECES && |rand| == KEY_LENGTH
    requires Decrypts(raw, key, plain) && Covered(marks, plain)
    ensures Decrypts(Rekeyed(raw, marks, key, rand), rand, plain)
  {
    forall x | x in plain
      ensures Rekeyed(raw, marks, key, rand)[x] ^ rand[x % KEY_LENGTH] == plain[x]
    {
      XorRekey(raw[x], key[x % KEY_LENGTH], rand[x % KEY_LENGTH]);
    }
  }

  /** A byte that is not covered is garbled by some change of keys. */
  lemma UncoveredIsLost(raw: seq<bv8>, marks: seq<bool>, key: seq<bv8>, plain: map<nat, bv8>, x: nat)
    requires |raw| <= PIECES * KEY_LENGTH && |marks| == PIECES && Decrypts(raw, key, plain)
    requires x in plain && !marks[x / KEY_LENGTH]
    ensures exists rand :: |rand| == KEY_LENGTH && !Decrypts(Rekeyed(raw, marks, key, rand), rand, plain)
  {
    var rand := seq(KEY_LENGTH, i requires 0 <= i < KEY_LENGTH => key[i] ^ 1);
    var i := x % KEY_LENGTH;
    assert Rekeyed(raw, marks, key, rand)[x] == raw[x] && rand[i] == key[i] ^ 1;
    OtherKeyOtherByte(raw[x], key[i]);
    assert !Decrypts(Rekeyed(raw, marks, key, rand), rand, plain);
  }

  lemma OtherKeyOtherByte(a: bv8, k: bv8)
    ensures a ^ (k ^ 1) != a ^ k
  {
  }

  /** 'size' bytes of the buffer from 'at' on are combined with the key bytes from 'offset' on. */
  method AxorB(a: array<bv8>, at: nat, b: seq<bv8>, offset: nat, size: nat)
    requires at + size <= a.Length && offset + size <= |b|
    modifies a
    ensures forall x :: 0 <= x < a.Length ==> a[x] == if at <= x < at + size then old(a[x]) ^ b[x - at + offset] else old(a[x])
  {
    var i := 0;
    while i < size
      invariant 0 <= i <= size
      invariant forall x :: 0 <= x < a.Length ==> a[x] == if at <= x < at + i then old(a[x]) ^ b[x - at + offset] else old(a[x])
    {
      a[at + i] := a[at + i] ^ b[i + offset];
      i := i + 1;
    }
  }

  /** The first 'done' bytes of a buffer for position 'off' have met their key bytes. */
  ghost predicate CryptedUpTo(data: seq<bv8>, buf: seq<bv8>, key: seq<bv8>, off: nat, done: nat)
    requires |key| == KEY_LENGTH
  {
    |buf| == |data| && forall i :: 0 <= i < |data| ==> buf[i] == if i < done then data[i] ^ key[(off + i) % KEY_LENGTH] else data[i]
  }

  lemma AllCrypted(data: seq<bv8>, buf: seq<bv8>, key: seq<bv8>, off: nat)
    requires |key| == KEY_LENGTH && CryptedUpTo(data, buf, key, off, |data|)
    ensures buf == Crypt(data, key, off)
  {
  }

  /** One call of AxorB brings the next n bytes, whose key bytes start at k. */
  lemma CryptedFurther(data: seq<bv8>, buf: seq<bv8>, buf': seq<bv8>, key: seq<bv8>, off: nat, done: nat, k: nat, n: nat)
    requires |key| == KEY_LENGTH && CryptedUpTo(data, buf, key, off, done) && done + n <= |data| == |buf'| && k + n <= KEY_LENGTH
    requires (off + done) % KEY_LENGTH == k
    requires forall x :: 0 <= x < |data| ==> buf'[x] == if done <= x < done + n then buf[x] ^ key[x - done + k] else buf[x]
    ensures CryptedUpTo(data, buf', key, off, done + n)
  {
    forall i | 0 <= i < |data|
      ensures buf'[i] == if i < done + n then data[i] ^ key[(off + i) % KEY_LENGTH] else data[i]
    {
      if done <= i < done + n {
        NextKeyByte(off + done, i - done);
      }
    }
  }

  lemma NextKeyByte(pos: nat, j: nat)
    requires pos % KEY_LENGTH + j < KEY_LENGTH
    ensures (pos + j) % KEY_LENGTH == pos % KEY_LENGTH + j
  {
  }

  /** The counter of whole pieces that the loops use tells how much to take next. */
  lemma WholePieces(pos: nat, left: nat, n: nat)
    requires pos % KEY_LENGTH == 0 && left > 0 && n == if left / KEY_LENGTH != 0 then KEY_LENGTH else left
    ensures 0 < n <= left && n <= KEY_LENGTH
    ensures left - n > 0 ==> (pos + n) % KEY_LENGTH == 0 && (left - n) / KEY_LENGTH == left / KEY_LENGTH - 1
  {
  }

  lemma NextPiece(marks: seq<bool>, p: nat, data: seq<bv8>, at: nat, n: nat)
    requires |marks| == PIECES && at < |data| && p * KEY_LENGTH + (|data| - at) <= PIECES * KEY_LENGTH && n == FirstPiece(|data| - at)
    ensures at + n <= |data| && p < PIECES
    ensures (p + 1) * KEY_LENGTH + |data[at + n..]| <= PIECES * KEY_LENGTH
    ensures MarkPieces(marks, p, data[at..]) == MarkPieces(MarkOne(marks, p, data[at..at + n]), p + 1, data[at + n..])
  {
    assert data[at..][..n] == data[at..at + n] && data[at..][n..] == data[at + n..];
  }

  class Disk {
    const raw: array<bv8>
    var written: seq<bool>
    var key: seq<bv8>

    /** What was last written where. */
    ghost var plain: map<nat, bv8>

    ghost predicate Sane()
      reads this, raw
    {
      && raw.Length % KEY_LENGTH == 0 && raw.Length <= PIECES * KEY_LENGTH && |written| == PIECES && |key| == KEY_LENGTH
      && Decrypts(raw[..], key, plain)
      && forall q :: 0 <= q < PIECES && written[q] ==> q * KEY_LENGTH < raw.Length
    }

    ghost predicate Valid()
      reads this, raw
    {
      Sane() && Covered(written, plain)
    }

    constructor (size: nat, rand: seq<bv8>)
      requires size % KEY_LENGTH == 0 && size <= PIECES * KEY_LENGTH && |rand| == KEY_LENGTH
      ensures Valid() && plain == map[] && fresh(raw)
    {
      raw := new bv8[size](_ => 0);
      written := seq(PIECES, _ => false);
      key := rand;
      plain := map[];
    }

    /** The part of a request before the first piece boundary. A part of zeros does not advance the piece number. */
    method LeadingPart(buf: array<bv8>, off: nat) returns (piece: nat, done: nat)
      requires |key| == KEY_LENGTH && |written| == PIECES
      requires Lead(off) <= buf.Length && off + buf.Length <= PIECES * KEY_LENGTH
      modifies `written, buf
      ensures |written| == PIECES && done == Lead(off) && piece * KEY_LENGTH + (buf.Length - done) <= PIECES * KEY_LENGTH
      ensures CryptedUpTo(old(buf[..]), buf[..], key, off, done)
      ensures MarksAfter(old(written), off, old(buf[..])) == MarkPieces(written, piece, old(buf[..])[done..])
    {
      ghost var data, m0 := buf[..], written;
      var secOffset := off % KEY_LENGTH;
      piece, done := off / KEY_LENGTH, 0;
      if secOffset != 0 {
        done := KEY_LENGTH - secOffset;
        if Nonzero(buf[..done]) {
          written := written[piece := true];
          piece := piece + 1;
        }
        AxorB(buf, 0, key, secOffset, done);
        CryptedFurther(data, data, buf[..], key, off, 0, secOffset, done);
      } else {
        assert data[0..] == data;
      }
    }

    /** One piece of a request: marked or unmarked, then encrypted. */
    method OnePiece(buf: array<bv8>, ghost data: seq<bv8>, off: nat, piece: nat, done: nat, toWrite: nat, whole: bool)
      requires |key| == KEY_LENGTH && |written| == PIECES && piece < PIECES && |data| == buf.Length
      requires 0 < toWrite <= KEY_LENGTH && done + toWrite <= buf.Length && (off + done) % KEY_LENGTH == 0
      requires CryptedUpTo(data, buf[..], key, off, done) && (whole ==> toWrite == KEY_LENGTH)
      modifies `written, buf
      ensures CryptedUpTo(data, buf[..], key, off, done + toWrite)
      ensures written == MarkOne(old(written), piece, data[done..done + toWrite])
    {
      assert buf[done..done + toWrite] == data[done..done + toWrite];
      if Nonzero(buf[done..done + toWrite]) {
        written := written[piece := true];
      } else if whole || toWrite == KEY_LENGTH {
        written := written[piece := false];
      }
      ghost var b := buf[..];
      AxorB(buf, done, key, 0, toWrite);
      CryptedFurther(data, b, buf[..], key, off, done, 0, toWrite);
    }

    /** The loop of _osprd_write over a request: marks the pieces and encrypts the buffer. */
    method MarkAndCrypt(buf: array<bv8>, off: nat)
      requires |key| == KEY_LENGTH && |written| == PIECES && Lead(off) <= buf.Length && off + buf.Length <= PIECES * KEY_LENGTH
      modifies `written, buf
      ensures |written| == PIECES && buf[..] == Crypt(old(buf[..]), key, off) && written == MarksAfter(old(written), off, old(buf[..]))
    {
      hide CryptedUpTo, MarkOne, MarksAfter, MarkPieces, Crypt, Lead;
      ghost var data, m0 := buf[..], written;
      var piece: nat, done: nat := LeadingPart(buf, off);
      AlignedAfterLead(off);
      var secSize := buf.Length - done;
      var full: int := secSize / KEY_LENGTH;
      while secSize > 0
        invariant |written| == PIECES && 0 <= secSize <= buf.Length && piece * KEY_LENGTH + secSize <= PIECES * KEY_LENGTH
        invariant secSize > 0 ==> (off + buf.Length - secSize) % KEY_LENGTH == 0 && full == secSize / KEY_LENGTH
        invariant CryptedUpTo(data, buf[..], key, off, buf.Length - secSize)
        invariant MarksAfter(m0, off, data) == MarkPieces(written, piece, data[buf.Length - secSize..])
      {
        var toWrite := if full != 0 then KEY_LENGTH else secSize;
        var at := buf.Length - secSize;
        WholePieces(off + at, secSize, toWrite);
        NextPiece(written, piece, data, at, toWrite);
        OnePiece(buf, data, off, piece, at, toWrite, full != 0);
        secSize := secSize - toWrite;
        full := full - 1;
        piece := piece + 1;
      }
      NoPieces(written, piece, data[buf.Length..]);
      AllCrypted(data, buf[..], key, off);
    }

    /** The raw driver's write. */
    method RawWrite(buf: array<bv8>, off: nat)
      requires off + buf.Length <= raw.Length && buf != raw
      modifies raw
      ensures raw[..] == Overlaid(old(raw[..]), off, buf[..])
    {
      var i := 0;
      while i < buf.Length
        invariant 0 <= i <= buf.Length
        invariant forall x :: 0 <= x < raw.Length ==> raw[x] == if off <= x < off + i then buf[x - off] else old(raw[x])
      {
        raw[off + i] := buf[i];
        i := i + 1;
      }
    }

    /** _osprd_write: a leading part, if there is one, lies within the request. */
    method Write(data: seq<bv8>, off: nat)
      requires Valid() && Lead(off) <= |data| && off + |data| <= raw.Length
      modifies this, raw
      ensures Sane() && key == old(key) && plain == Written(old(plain), off, data)
      ensures raw[..] == Overlaid(old(raw[..]), off, Crypt(data, key, off)) && written == MarksAfter(old(written), off, data)
      ensures Valid() <==> KeepsMarks(old(written), off, data)
    {
      hide Crypt, Overlaid, Written, Decrypts, MarksAfter, Covered, KeepsMarks;
      ghost var w, p := written, plain;
      var buf := new bv8[|data|](i requires 0 <= i < |data| => data[i]);
      assert buf[..] == data;
      MarkAndCrypt(buf, off);
      WrittenDecrypts(raw[..], key, plain, off, data);
      RawWrite(buf, off);
      plain := Written(plain, off, data);
      MarksInRange(w, off, data, raw.Length);
      CoveredIff(w, p, off, data);
    }

    /** The decryption in _osprd_read: the leading part, whole pieces, and the rest. */
    method CryptBuffer(buf: array<bv8>, off: nat)
      requires |key| == KEY_LENGTH && Lead(off) <= buf.Length
      modifies buf
      ensures buf[..] == Crypt(old(buf[..]), key, off)
    {
      hide CryptedUpTo, Crypt;
      ghost var data := buf[..];
      var secOffset := off % KEY_LENGTH;
      var secSize: int := buf.Length;
      var toWrite := KEY_LENGTH - secOffset;
      NothingCrypted(data, key, off);
      if secOffset != 0 {
        AxorB(buf, 0, key, secOffset, toWrite);
        CryptedFurther(data, data, buf[..], key, off, 0, secOffset, toWrite);
        secSize := secSize - toWrite;
      }
      var full: int := secSize / KEY_LENGTH;
      while secSize > 0
        invariant 0 <= secSize <= buf.Length && CryptedUpTo(data, buf[..], key, off, buf.Length - secSize)
        invariant secSize > 0 ==> (off + buf.Length - secSize) % KEY_LENGTH == 0 && full == secSize / KEY_LENGTH
      {
        toWrite := if full != 0 then KEY_LENGTH else secSize;
        var at := buf.Length - secSize;
        WholePieces(off + at, secSize, toWrite);
        ghost var b := buf[..];
        AxorB(buf, at, key, 0, toWrite);
        CryptedFurther(data, b, buf[..], key, off, at, 0, toWrite);
        secSize := secSize - toWrite;
        full := full - 1;
      }
      AllCrypted(data, buf[..], key, off);
    }

    /** _osprd_read: an authorised process gets plaintext, any other what the disk holds after the keys have changed. */
    method Read(authorised: bool, off: nat, size: nat, rand: seq<bv8>) returns (data: seq<bv8>)
      requires Valid() && |rand| == KEY_LENGTH && off + size <= raw.Length && (authorised ==> Lead(off) <= size)
      modifies `key, raw
      ensures Valid() && key == rand && |data| == size
      ensures authorised ==> forall x :: x in plain && off <= x < off + size ==> data[x - off] == plain[x]
      ensures !authorised ==> data == raw[off..off + size]
    {
      hide Crypt, Rekeyed, Covered, Lead;
      if !authorised {
        NewKey(rand);
        return raw[off..off + size];
      }
      var buf := new bv8[size](i requires 0 <= i < size reads this, raw => raw[off + i]);
      assert buf[..] == raw[off..off + size];
      CryptBuffer(buf, off);
      DecryptsSlice(raw[..], key, plain, off, size);
      data := buf[..];
      NewKey(rand);
    }

    /** The loops of new_key over the bits of written_sectors. */
    method RecryptMarked(rand: seq<bv8>)
      requires |written| == PIECES && |key| == |rand| == KEY_LENGTH && raw.Length % KEY_LENGTH == 0 && raw.Length <= PIECES * KEY_LENGTH
      requires forall q :: 0 <= q < PIECES && written[q] ==> q * KEY_LENGTH < raw.Length
      modifies raw
      ensures raw[..] == Rekeyed(old(raw[..]), written, key, rand)
    {
      hide RekeyedUpTo;
      ghost var r0 := raw[..];
      NothingRekeyed(r0, written, key, rand);
      var i := 0;
      while i < 32
        invariant 0 <= i <= 32 && RekeyedUpTo(r0, raw[..], written, key, rand, 8 * i)
      {
        var j := 0;
        while j < 8
          invariant 0 <= j <= 8 && RekeyedUpTo(r0, raw[..], written, key, rand, 8 * i + j)
        {
          if written[8 * i + j] {
            Recrypt(8 * i + j, rand, r0);
          } else {
            UnmarkedSkipped(r0, raw[..], written, key, rand, 8 * i + j);
          }
          j := j + 1;
        }
        i := i + 1;
      }
      AllRekeyed(r0, raw[..], written, key, rand);
    }

    /** new_key: every marked piece is read, decrypted, encrypted with the new key, and written back. */
    method NewKey(rand: seq<bv8>)
      requires Sane() && |rand| == KEY_LENGTH
      modifies `key, raw
      ensures key == rand && raw[..] == Rekeyed(old(raw[..]), written, old(key), rand)
      ensures old(Valid()) ==> Valid()
    {
      hide Rekeyed, Decrypts, Covered;
      if Covered(written, plain) { RekeyedDecrypts(raw[..], written, key, rand, plain); }
      RecryptMarked(rand);
      key := rand;
    }

    /** The body of the loop in new_key, for one marked piece. */
    method Recrypt(q: nat, rand: seq<bv8>, ghost r0: seq<bv8>)
      requires q < PIECES == |written| && written[q] && |key| == |rand| == KEY_LENGTH && (q + 1) * KEY_LENGTH <= raw.Length <= PIECES * KEY_LENGTH
      requires RekeyedUpTo(r0, raw[..], written, key, rand, q)
      modifies raw
      ensures RekeyedUpTo(r0, raw[..], written, key, rand, q + 1)
    {
      var off := q * KEY_LENGTH;
      var stuff := new bv8[KEY_LENGTH](m requires 0 <= m < KEY_LENGTH reads this, raw => raw[off + m]);
      AxorB(stuff, 0, key, 0, KEY_LENGTH);
      AxorB(stuff, 0, rand, 0, KEY_LENGTH);
      ghost var r := raw[..];
      RawWrite(stuff, off);
      forall x | 0 <= x < |r0|
        ensures raw[x] == if x / KEY_LENGTH < q + 1 && written[x / KEY_LENGTH] then (r0[x] ^ key[x % KEY_LENGTH]) ^ rand[x % KEY_LENGTH] else r0[x]
      {
        if off <= x < off + KEY_LENGTH {
          assert x / KEY_LENGTH == q && x % KEY_LENGTH == x - off && r[x] == r0[x];
        }
      }
    }
  }

  /** Pieces below q have been re-encrypted. */
  ghost predicate RekeyedUpTo(r0: seq<bv8>, r: seq<bv8>, marks: seq<bool>, key: seq<bv8>, rand: seq<bv8>, q: nat) {
    && |r| == |r0| <= PIECES * KEY_LENGTH && |marks| == PIECES && |key| == |rand| == KEY_LENGTH
    && forall x :: 0 <= x < |r0| ==>
         r[x] == if x / KEY_LENGTH < q && marks[x / KEY_LENGTH] then (r0[x] ^ key[x % KEY_LENGTH]) ^ rand[x % KEY_LENGTH] else r0[x]
  }

  lemma NothingCrypted(data: seq<bv8>, key: seq<bv8>, off: nat)
    requires |key| == KEY_LENGTH
    ensures CryptedUpTo(data, data, key, off, 0)
  {
  }

  lemma DecryptsSlice(raw: seq<bv8>, key: seq<bv8>, plain: map<nat, bv8>, off: nat, size: nat)
    requires Decrypts(raw, key, plain) && off + size <= |raw|
    ensures forall x :: x in plain && off <= x < off + size ==> Crypt(raw[off..off + size], key, off)[x - off] == plain[x]
  {
  }

  lemma NothingRekeyed(r0: seq<bv8>, marks: seq<bool>, key: seq<bv8>, rand: seq<bv8>)
    requires |r0| <= PIECES * KEY_LENGTH && |marks| == PIECES && |key| == |rand| == KEY_LENGTH
    ensures RekeyedUpTo(r0, r0, marks, key, rand, 0)
  {
  }

  lemma UnmarkedSkipped(r0: seq<bv8>, r: seq<bv8>, marks: seq<bool>, key: seq<bv8>, rand: seq<bv8>, q: nat)
    requires RekeyedUpTo(r0, r, marks, key, rand, q) && q < PIECES && !marks[q]
    ensures RekeyedUpTo(r0, r, marks, key, rand, q + 1)
  {
  }

  lemma AllRekeyed(r0: seq<bv8>, r: seq<bv8>, marks: seq<bool>, key: seq<bv8>, rand: seq<bv8>)
    requires RekeyedUpTo(r0, r, marks, key, rand, PIECES)
    ensures r == Rekeyed(r0, marks, key, rand)
  {
  }

  lemma MarksInRange(marks: seq<bool>, off: nat, data: seq<bv8>, size: nat)
    requires |marks| == PIECES && Lead(off) <= |data| && off + |data| <= size <= PIECES * KEY_LENGTH
    requires forall q :: 0 <= q < PIECES && marks[q] ==> q * KEY_LENGTH < size
    ensures forall q :: 0 <= q < PIECES && MarksAfter(marks, off, data)[q] ==> q * KEY_LENGTH < size
  {
    forall q | 0 <= q < PIECES && MarksAfter(marks, off, data)[q]
      ensures q * KEY_LENGTH < size
    {
      if q * KEY_LENGTH >= off + |data| {
        MarksElsewhereStay(marks, off, data, q);
      }
    }
  }

  lemma NonzeroIsCovered(marks: seq<bool>, plain: map<nat, bv8>, off: nat, data: seq<bv8>)
    requires |marks| == PIECES && Lead(off) <= |data| && off + |data| <= PIECES * KEY_LENGTH && RequestNonzero(off, data)
    requires Covered(marks, plain)
    ensures Covered(MarksAfter(marks, off, data), Written(plain, off, data))
  {
    NonzeroRequestMarks(marks, off, data);
  }

  lemma NoPieces(marks: seq<bool>, p: nat, data: seq<bv8>)
    requires |marks| == PIECES && p * KEY_LENGTH + |data| <= PIECES * KEY_LENGTH && |data| == 0
    ensures MarkPieces(marks, p, data) == marks
  {
  }

  lemma AlignedAfterLead(off: nat)
    ensures (off + Lead(off)) % KEY_LENGTH == 0
  {
  }
}
