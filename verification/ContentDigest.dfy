/** The APK content digest, and what equal digests mean.

    The hash is a parameter: any function with a fixed, non-zero output length. The main result is a
    reduction: two files with the same digest protect the same bytes, or two different inputs that
    were hashed along the way have the same hash.
 */
module ContentDigest {
  import opened Bytes

  type Hash = seq<Byte> -> seq<Byte>

  const CHUNK_SIZE := 0x10_0000
  const TWO32 := 0x1_0000_0000

  /** The parsed signing block: its pairs and the offsets that delimit the protected sections. */
  datatype Block = Block(
    pairs: map<U32, seq<Byte>>, offset: int, cdOffset: int, eocdOffset: int, fileSize: nat, eocd: seq<Byte>)

  /** Consecutive pieces of at most one chunk. */
  function Pieces(s: seq<Byte>): (r: seq<seq<Byte>>)
    ensures Flatten(r) == s
    decreases |s|
  {
    if s == [] then []
    else if |s| <= CHUNK_SIZE then
      assert Flatten([s]) == s + Flatten([]) == s by { assert [s][1..] == []; }
      [s]
    else
      var rest := Pieces(s[CHUNK_SIZE..]);
      assert ([s[..CHUNK_SIZE]] + rest)[1..] == rest;
      [s[..CHUNK_SIZE]] + rest
  }

  function ChunkInput(chunk: seq<Byte>): seq<Byte> {
    [0xa5] + Put32(|chunk| % TWO32) + chunk
  }

  function ChunkDigests(h: Hash, pieces: seq<seq<Byte>>): seq<Byte> {
    if pieces == [] then [] else h(ChunkInput(pieces[0])) + ChunkDigests(h, pieces[1..])
  }

  function TopInput(h: Hash, pieces: seq<seq<Byte>>): seq<Byte> {
    [0x5a] + Put32(|pieces| % TWO32) + ChunkDigests(h, pieces)
  }

  /** The end-of-central-directory record with its directory offset replaced. */
  function Patched(eocd: seq<Byte>, offset: int): (r: seq<Byte>)
    ensures |r| == |eocd|
  {
    if |eocd| < 20 then eocd else eocd[..16] + Put32(offset % TWO32) + eocd[20..]
  }

  /** `length` bytes of the file, unless they reach outside it. */
  function Section(file: seq<Byte>, offset: int, length: int): Option<seq<Byte>> {
    if length <= 0 then Some([])
    else if offset < 0 || offset + length > |file| then None
    else Some(file[offset..offset + length])
  }

  function Contents(file: seq<Byte>, block: Block): Option<seq<Byte>> {
    Section(file, 0, block.offset)
  }

  function CentralDirectory(file: seq<Byte>, block: Block): Option<seq<Byte>> {
    Section(file, block.cdOffset, block.eocdOffset - block.cdOffset)
  }

  function AllPieces(contents: seq<Byte>, directory: seq<Byte>, eocd: seq<Byte>): seq<seq<Byte>> {
    Pieces(contents) + Pieces(directory) + Pieces(eocd)
  }

  /** The pieces that are hashed, when both file sections can be read. */
  function HashedPieces(file: seq<Byte>, block: Block): Option<seq<seq<Byte>>> {
    var contents, directory := Contents(file, block), CentralDirectory(file, block);
    if contents.None? || directory.None? then None
    else Some(AllPieces(contents.value, directory.value, Patched(block.eocd, block.offset)))
  }

  function Digest(h: Hash, file: seq<Byte>, block: Block): Option<seq<Byte>> {
    var pieces := HashedPieces(file, block);
    if pieces.None? then None else Some(h(TopInput(h, pieces.value)))
  }

  // ---- the computation ----

  lemma {:induction false} ChunkDigestsAppend(h: Hash, a: seq<seq<Byte>>, b: seq<seq<Byte>>)
    ensures ChunkDigests(h, a + b) == ChunkDigests(h, a) + ChunkDigests(h, b)
  {
    if a == [] {
      assert a + b == b;
    } else {
      assert (a + b)[1..] == a[1..] + b;
      ChunkDigestsAppend(h, a[1..], b);
    }
  }

  lemma CountStep(n: nat)
    ensures (n % TWO32 + 1) % TWO32 == (n + 1) % TWO32
  {
  }

  /** The running state of the digest: concatenated chunk digests and a 32-bit chunk counter. */
  class Accumulator {
    var chunkDigests: seq<Byte>
    var chunks: U32
    ghost var pieces: seq<seq<Byte>>

    ghost predicate Valid(h: Hash)
      reads this
    {
      chunkDigests == ChunkDigests(h, pieces) && chunks == |pieces| % TWO32
    }

    constructor (h: Hash)
      ensures Valid(h) && pieces == []
    {
      chunkDigests, chunks, pieces := [], 0, [];
    }

    method AddChunk(h: Hash, chunk: seq<Byte>)
      requires Valid(h)
      modifies this
      ensures Valid(h) && pieces == old(pieces) + [chunk]
    {
      hide Put32, Flatten;
      CountStep(|pieces|);
      ChunkDigestsAppend(h, pieces, [chunk]);
      assert ChunkDigests(h, [chunk]) == h(ChunkInput(chunk)) + ChunkDigests(h, []) by { assert [chunk][1..] == []; }
      chunkDigests := chunkDigests + h([0xa5] + Put32(|chunk| % TWO32) + chunk);
      chunks := (chunks + 1) % TWO32;
      pieces := pieces + [chunk];
    }

    method AddSection(h: Hash, file: seq<Byte>, offset: int, length: int) returns (ok: bool)
      requires Valid(h)
      modifies this
      ensures ok == Section(file, offset, length).Some?
      ensures ok ==> Valid(h) && pieces == old(pieces) + Pieces(Section(file, offset, length).value)
    {
      hide Pieces, Valid, Flatten;
      var off, left := offset, length;
      if length <= 0 { PiecesOfNothing(); }
      while left > 0
        invariant Valid(h)
        invariant off + left == offset + length && (length > 0 ==> 0 <= left)
        invariant length <= 0 ==> left == length && pieces == old(pieces)
        invariant left < length ==> 0 <= offset && off <= |file|
        invariant length > 0 && 0 <= offset && offset + length <= |file| ==>
                    pieces + Pieces(file[off..off + left]) == old(pieces) + Pieces(file[offset..offset + length])
        decreases left
      {
        var n := if CHUNK_SIZE > left then left else CHUNK_SIZE;
        if off < 0 || off + n > |file| { return false; }
        if offset + length <= |file| { PiecesStep(file[off..off + left]); }
        ghost var piece := file[off..off + n];
        assert offset + length <= |file| ==>
               file[off..off + left][..n] == piece && file[off..off + left][n..] == file[off + n..off + left];
        AddChunk(h, file[off..off + n]);
        off, left := off + n, left - n;
      }
      PiecesOfNothing();
      ok := true;
    }

    /** The whole of a buffer, chunk by chunk. */
    method AddBuffer(h: Hash, buffer: seq<Byte>)
      requires Valid(h)
      modifies this
      ensures Valid(h) && pieces == old(pieces) + Pieces(buffer)
    {
      hide Pieces, Valid, Flatten;
      var rest := buffer;
      while |rest| > 0
        invariant Valid(h) && pieces + Pieces(rest) == old(pieces) + Pieces(buffer)
        decreases |rest|
      {
        PiecesStep(rest);
        var n := if |rest| > CHUNK_SIZE then CHUNK_SIZE else |rest|;
        AddChunk(h, rest[..n]);
        rest := rest[n..];
      }
      PiecesOfNothing();
    }
  }

  lemma PiecesOfNothing()
    ensures Pieces([]) == []
  {
  }

  lemma PiecesStep(s: seq<Byte>)
    requires s != []
    ensures var n := if |s| > CHUNK_SIZE then CHUNK_SIZE else |s|;
            Pieces(s) == [s[..n]] + Pieces(s[n..])
  {
    if |s| <= CHUNK_SIZE {
      assert s[..|s|] == s && s[|s|..] == [];
    }
  }

  method ApkContentDigest(h: Hash, file: seq<Byte>, block: Block) returns (digest: Option<seq<Byte>>)
    ensures digest == Digest(h, file, block)
  {
    hide Pieces, ChunkDigests, Section, Put32;
    var acc := new Accumulator(h);
    var ok := acc.AddSection(h, file, 0, block.offset);
    if !ok { return None; }
    ok := acc.AddSection(h, file, block.cdOffset, block.eocdOffset - block.cdOffset);
    if !ok { return None; }
    var eocd := block.eocd;
    if |eocd| >= 20 {
      eocd := eocd[..16] + Put32(block.offset % TWO32) + eocd[20..];
    }
    acc.AddBuffer(h, eocd);
    assert [] + Pieces(Contents(file, block).value) == Pieces(Contents(file, block).value);
    assert HashedPieces(file, block) == Some(acc.pieces);
    digest := Some(h([0x5a] + Put32(acc.chunks) + acc.chunkDigests));
  }

  // ---- the reduction ----

  ghost predicate FixedLength(h: Hash, n: nat) {
    n > 0 && forall m: seq<Byte> :: |h(m)| == n
  }

  /** Everything a digest computation hands to the hash. */
  ghost predicate WasHashed(h: Hash, pieces: seq<seq<Byte>>, x: seq<Byte>) {
    x == TopInput(h, pieces) || exists i :: 0 <= i < |pieces| && x == ChunkInput(pieces[i])
  }

  /** Two different inputs, one hashed in each computation, with one hash. */
  ghost predicate Collision(h: Hash, p: seq<seq<Byte>>, q: seq<seq<Byte>>, x: seq<Byte>, y: seq<Byte>) {
    WasHashed(h, p, x) && WasHashed(h, q, y) && x != y && h(x) == h(y)
  }

  lemma {:induction false} EqualChunkDigests(h: Hash, n: nat, p: seq<seq<Byte>>, q: seq<seq<Byte>>)
    requires FixedLength(h, n) && ChunkDigests(h, p) == ChunkDigests(h, q)
    ensures |p| == |q| && forall i :: 0 <= i < |p| ==> h(ChunkInput(p[i])) == h(ChunkInput(q[i]))
    decreases |p|
  {
    hide ChunkInput;
    SomeDigests(h, n, p);
    SomeDigests(h, n, q);
    if p != [] {
      var a, b := h(ChunkInput(p[0])), h(ChunkInput(q[0]));
      assert a == ChunkDigests(h, p)[..n] == b;
      assert ChunkDigests(h, p[1..]) == ChunkDigests(h, p)[n..] == ChunkDigests(h, q[1..]);
      EqualChunkDigests(h, n, p[1..], q[1..]);
      forall i | 0 <= i < |p| ensures h(ChunkInput(p[i])) == h(ChunkInput(q[i])) {
        if i > 0 { assert p[i] == p[1..][i - 1] && q[i] == q[1..][i - 1]; }
      }
    }
  }

  lemma SomeDigests(h: Hash, n: nat, pieces: seq<seq<Byte>>)
    requires FixedLength(h, n)
    ensures ChunkDigests(h, pieces) == [] <==> pieces == []
  {
    if pieces != [] {
      assert |h(ChunkInput(pieces[0]))| == n;
    }
  }

  lemma ChunkInputInjective(a: seq<Byte>, b: seq<Byte>)
    requires ChunkInput(a) == ChunkInput(b)
    ensures a == b
  {
    hide Put32;
    assert ChunkInput(a)[5..] == a && ChunkInput(b)[5..] == b;
  }

  /** Equal top-level hashes: the same pieces, or a collision. */
  lemma EqualDigests(h: Hash, n: nat, p: seq<seq<Byte>>, q: seq<seq<Byte>>) returns (x: seq<Byte>, y: seq<Byte>)
    requires FixedLength(h, n) && h(TopInput(h, p)) == h(TopInput(h, q))
    ensures p == q || Collision(h, p, q, x, y)
  {
    x, y := TopInput(h, p), TopInput(h, q);
    if x == y {
      assert ChunkDigests(h, p) == x[5..] == y[5..] == ChunkDigests(h, q);
      EqualChunkDigests(h, n, p, q);
      if i :| 0 <= i < |p| && p[i] != q[i] {
        x, y := ChunkInput(p[i]), ChunkInput(q[i]);
        if x == y { ChunkInputInjective(p[i], q[i]); }
      }
    }
  }

  lemma {:induction false} PieceCount(a: seq<Byte>, b: seq<Byte>)
    requires |a| == |b|
    ensures |Pieces(a)| == |Pieces(b)|
    decreases |a|
  {
    if |a| > CHUNK_SIZE {
      PieceCount(a[CHUNK_SIZE..], b[CHUNK_SIZE..]);
    }
  }

  lemma OffsetIn(eocd: seq<Byte>, offset: U32)
    requires 20 <= |eocd|
    ensures Patched(eocd, offset)[16..20] == Put32(offset)
  {
    hide Put32;
    assert offset % TWO32 == offset;
  }

  lemma PatchedOffset(e1: seq<Byte>, o1: U32, e2: seq<Byte>, o2: U32)
    requires 20 <= |e1| && 20 <= |e2| && Patched(e1, o1) == Patched(e2, o2)
    ensures o1 == o2
  {
    hide Put32, Patched, Le32;
    OffsetIn(e1, o1);
    OffsetIn(e2, o2);
    assert Le32(Put32(o1), 0) == o1 && Le32(Put32(o2), 0) == o2;
  }

  lemma Unappend<T>(a1: seq<T>, b1: seq<T>, x1: T, a2: seq<T>, b2: seq<T>, x2: T)
    requires a1 + b1 + [x1] == a2 + b2 + [x2]
    ensures x1 == x2
    ensures |a1| == |a2| ==> a1 == a2 && b1 == b2
  {
    var all := a1 + b1 + [x1];
    assert x1 == all[|all| - 1] == x2;
    if |a1| == |a2| {
      assert a1 == all[..|a1|] == a2 && b1 == all[|a1|..|all| - 1] == b2;
    }
  }

  /** The directory offset patched into the last piece tells where the contents end. */
  lemma SectionsRecovered(c1: seq<Byte>, d1: seq<Byte>, e1: seq<Byte>, c2: seq<Byte>, d2: seq<Byte>, e2: seq<Byte>)
    requires |c1| < TWO32 && |c2| < TWO32
    requires 20 <= |e1| <= CHUNK_SIZE && 20 <= |e2| <= CHUNK_SIZE
    requires AllPieces(c1, d1, Patched(e1, |c1|)) == AllPieces(c2, d2, Patched(e2, |c2|))
    ensures c1 == c2 && d1 == d2 && Patched(e1, |c1|) == Patched(e2, |c2|)
  {
    hide Patched, Pieces;
    var t1, t2 := Patched(e1, |c1|), Patched(e2, |c2|);
    OnePiece(t1);
    OnePiece(t2);
    Unappend(Pieces(c1), Pieces(d1), t1, Pieces(c2), Pieces(d2), t2);
    PatchedOffset(e1, |c1|, e2, |c2|);
    PieceCount(c1, c2);
    assert Flatten(Pieces(c1)) == Flatten(Pieces(c2)) && Flatten(Pieces(d1)) == Flatten(Pieces(d2));
  }

  lemma OnePiece(s: seq<Byte>)
    requires 0 < |s| <= CHUNK_SIZE
    ensures Pieces(s) == [s]
  {
  }

  /** What the signing-block reader guarantees about the layout it reports. */
  predicate Placed(block: Block) {
    0 <= block.offset < TWO32 && 20 <= |block.eocd| <= CHUNK_SIZE
  }

  /** Equal content digests mean equal contents, equal central directory and equal patched end record,
      or an exhibited hash collision. */
  lemma DigestSound(h: Hash, n: nat, f1: seq<Byte>, b1: Block, f2: seq<Byte>, b2: Block)
    returns (x: seq<Byte>, y: seq<Byte>)
    requires FixedLength(h, n) && Placed(b1) && Placed(b2)
    requires Digest(h, f1, b1).Some? && Digest(h, f1, b1) == Digest(h, f2, b2)
    ensures
      || (&& Contents(f1, b1) == Contents(f2, b2)
          && CentralDirectory(f1, b1) == CentralDirectory(f2, b2)
          && Patched(b1.eocd, b1.offset) == Patched(b2.eocd, b2.offset))
      || Collision(h, HashedPieces(f1, b1).value, HashedPieces(f2, b2).value, x, y)
  {
    hide Pieces, TopInput, Patched, Collision;
    x, y := EqualDigests(h, n, HashedPieces(f1, b1).value, HashedPieces(f2, b2).value);
    if HashedPieces(f1, b1) == HashedPieces(f2, b2) {
      SectionsRecovered(Contents(f1, b1).value, CentralDirectory(f1, b1).value, b1.eocd,
                        Contents(f2, b2).value, CentralDirectory(f2, b2).value, b2.eocd);
    }
  }
}
