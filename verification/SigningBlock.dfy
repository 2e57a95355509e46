/** Finding the APK Signing Block in a file, and reading its id-value pairs.

    Lengths in the block are 64-bit and Go computes with them in signed 64-bit integers, so the
    arithmetic here wraps where the program's does. A slice with a negative bound is a run-time
    panic, which is an outcome of its own.
 */
module SigningBlock {
  import opened Bytes
  import opened ContentDigest

  const TWO63 := 0x8000_0000_0000_0000
  const TWO64 := 0x1_0000_0000_0000_0000

  const SIGNATURE: seq<Byte> := [0x50, 0x4b, 0x05, 0x06]
  const MAGIC: seq<Byte> := Ascii("APK Sig Block 42")
  const MAX_BLOCK := 0x400_0000
  const MAX_TAIL := 0x1_0016

  /** The signed 64-bit value of an integer that overflows at most once. */
  function Wrap(x: int): (r: int)
    requires -TWO63 <= x < TWO63 + TWO64
    ensures -TWO63 <= r < TWO63
  {
    if x >= TWO63 then x - TWO64 else x
  }

  datatype Located = Found(block: Block) | Panic

  // ---- the last end-of-central-directory signature ----

  predicate MatchAt(haystack: seq<Byte>, needle: seq<Byte>, i: int) {
    0 <= i && i + |needle| <= |haystack| && haystack[i..i + |needle|] == needle
  }

  /** The last match at or before i, or -1. */
  function LastFrom(haystack: seq<Byte>, needle: seq<Byte>, i: int): (r: int)
    requires i + |needle| <= |haystack|
    ensures r == -1 || (0 <= r <= i && MatchAt(haystack, needle, r))
    ensures forall k :: r < k <= i ==> !MatchAt(haystack, needle, k)
    decreases i + 1
  {
    if i < 0 then -1
    else if haystack[i..i + |needle|] == needle then i
    else LastFrom(haystack, needle, i - 1)
  }

  function LastIndex(haystack: seq<Byte>, needle: seq<Byte>): int {
    if |haystack| < |needle| then -1 else LastFrom(haystack, needle, |haystack| - |needle|)
  }

  method LastIndexOf(haystack: seq<Byte>, needle: seq<Byte>) returns (r: int)
    ensures r == LastIndex(haystack, needle)
  {
    var i := |haystack| - |needle|;
    while i >= 0
      invariant i <= |haystack| - |needle|
      invariant |haystack| >= |needle| ==> -1 <= i && LastIndex(haystack, needle) == LastFrom(haystack, needle, i)
    {
      var isMatch, j := true, 0;
      while j < |needle| && isMatch
        invariant 0 <= j <= |needle|
        invariant isMatch ==> forall k :: 0 <= k < j ==> haystack[i + k] == needle[k]
        invariant !isMatch ==> haystack[i..i + |needle|] != needle
        decreases |needle| - j, isMatch
      {
        if haystack[i + j] != needle[j] {
          isMatch := false;
          assert haystack[i..i + |needle|][j] != needle[j];
        } else {
          j := j + 1;
        }
      }
      if isMatch {
        assert haystack[i..i + |needle|] == needle;
        return i;
      }
      i := i - 1;
    }
    r := -1;
  }

  // ---- reading ----

  /** The pairs from pos on; the first value of an id stays. None is a panic. */
  function PairsFrom(block: seq<Byte>, limit: nat, pos: nat, pairs: map<U32, seq<Byte>>): Option<map<U32, seq<Byte>>>
    requires limit <= |block| <= MAX_BLOCK
    decreases |block| - pos
  {
    if pos + 12 > limit then Some(pairs)
    else
      var pairLen := Wrap(Le64(block, pos));
      var end := Wrap(pos + 8 + pairLen);
      if pairLen < 4 || end > limit then Some(pairs)
      else if end < 0 then None
      else
        var id, value := Le32(block, pos + 8), block[pos + 12..end];
        PairsFrom(block, limit, end, if id in pairs then pairs else pairs[id := value])
  }

  /** From the located directory offset and end record to the block in front of the directory. */
  function ReadBlock(file: seq<Byte>, b: Block): Located
    requires 32 <= b.cdOffset <= |file|
  {
    var footer := file[b.cdOffset - 24..b.cdOffset];
    if footer[8..24] != MAGIC then Found(b)
    else
      var blockSize := Wrap(Le64(footer, 0));
      var total := Wrap(blockSize + 8);
      if blockSize < 24 || total > b.cdOffset || total > MAX_BLOCK then Found(b)
      else if total < 0 then Panic
      else
        var offset := b.cdOffset - total;
        match PairsFrom(file[offset..b.cdOffset], total - 24, 8, map[])
        case None => Panic
        case Some(pairs) => Found(b.(offset := offset, pairs := pairs))
  }

  function TailLength(file: seq<Byte>): nat {
    if |file| < MAX_TAIL then |file| else MAX_TAIL
  }

  /** The end record and the directory offset in it, as far as they are found; without a whole end record
      nothing in front of it is read. */
  function EndOf(file: seq<Byte>): (b: Block)
    ensures b.eocd != [] ==> 32 <= b.cdOffset <= |file|
  {
    var nothing := Block(map[], 0, 0, 0, |file|, []);
    var tailStart := |file| - TailLength(file);
    var tail := file[tailStart..];
    var idx := LastIndex(tail, SIGNATURE);
    if TailLength(file) < 22 || idx < 0 || idx + 22 > |tail| then nothing
    else
      var withDirectory := nothing.(cdOffset := Le32(tail, idx + 16));
      if withDirectory.cdOffset < 32 || withDirectory.cdOffset > |file| then withDirectory
      else
        var end := tailStart + idx + 22 + Le16(tail, idx + 20);
        var withEnd := withDirectory.(eocdOffset := tailStart + idx);
        if end > |file| then withEnd else withEnd.(eocd := file[tailStart + idx..end])
  }

  function Locate(file: seq<Byte>): Located {
    var b := EndOf(file);
    if b.eocd == [] then Found(b) else ReadBlock(file, b)
  }

  method ReadPairs(block: seq<Byte>, limit: nat) returns (pairs: Option<map<U32, seq<Byte>>>)
    requires limit <= |block| <= MAX_BLOCK
    ensures pairs == PairsFrom(block, limit, 8, map[])
  {
    var found: map<U32, seq<Byte>> := map[];
    var pos := 8;
    while pos + 12 <= limit
      invariant PairsFrom(block, limit, pos, found) == PairsFrom(block, limit, 8, map[])
      decreases |block| - pos
    {
      var pairLen := Wrap(Le64(block, pos));
      var end := Wrap(pos + 8 + pairLen);
      if pairLen < 4 || end > limit { break; }
      if end < 0 { return None; }
      var id, value := Le32(block, pos + 8), block[pos + 12..end];
      if id !in found {
        found := found[id := value];
      }
      pos := end;
    }
    pairs := Some(found);
  }

  method ReadBlockInfo(file: seq<Byte>, info: Block) returns (r: Located)
    requires 32 <= info.cdOffset <= |file|
    ensures r == ReadBlock(file, info)
  {
    hide PairsFrom;
    var footer := file[info.cdOffset - 24..info.cdOffset];
    if footer[8..24] != MAGIC { return Found(info); }
    var blockSize := Wrap(Le64(footer, 0));
    var total := Wrap(blockSize + 8);
    if blockSize < 24 || total > info.cdOffset || total > MAX_BLOCK { return Found(info); }
    if total < 0 { return Panic; }
    var offset := info.cdOffset - total;
    var pairs := ReadPairs(file[offset..info.cdOffset], total - 24);
    if pairs.None? { return Panic; }
    r := Found(info.(offset := offset, pairs := pairs.value));
  }

  method ReadAPKSigningBlockInfo(file: seq<Byte>) returns (r: Located)
    ensures r == Locate(file)
  {
    hide ReadBlock, LastIndex, Le32, Le16;
    var info := Block(map[], 0, 0, 0, |file|, []);
    var tailLen := MAX_TAIL;
    if tailLen > |file| { tailLen := |file|; }
    if tailLen < 22 { return Found(info); }
    var tail := file[|file| - tailLen..];
    var idx := LastIndexOf(tail, SIGNATURE);
    if idx < 0 || idx + 22 > |tail| { return Found(info); }
    info := info.(cdOffset := Le32(tail, idx + 16));
    if info.cdOffset < 32 || info.cdOffset > |file| { return Found(info); }
    var eocdLen := 22 + Le16(tail, idx + 20);
    info := info.(eocdOffset := |file| - tailLen + idx);
    if info.eocdOffset + eocdLen > |file| { return Found(info); }
    info := info.(eocd := file[info.eocdOffset..info.eocdOffset + eocdLen]);

    r := ReadBlockInfo(file, info);
  }

  // ---- what the reader guarantees ----

  /** A block reported with pairs lies where the content digest needs it. */
  lemma LocatedIsPlaced(file: seq<Byte>)
    requires Locate(file).Found? && Locate(file).block.pairs != map[]
    ensures Placed(Locate(file).block)
  {
    hide PairsFrom, LastIndex;
  }

  /** Where the walk over the pairs stops early, by the unbounded value of the length field there. */
  function Stop(block: seq<Byte>, limit: nat, pos: nat): Option<(nat, U64)>
    requires limit <= |block|
    decreases |block| - pos
  {
    if pos + 12 > limit then None
    else
      var field := Le64(block, pos);
      if field < 4 || pos + 8 + field > limit then Some((pos, field)) else Stop(block, limit, pos + 8 + field)
  }

  /** The walk panics exactly when the field it stops at overflows the sum pos + 8 + length. */
  lemma {:induction false} PairsPanicExactly(block: seq<Byte>, limit: nat, pos: nat, pairs: map<U32, seq<Byte>>)
    requires limit <= |block| <= MAX_BLOCK
    ensures PairsFrom(block, limit, pos, pairs).None?
        <==> var stop := Stop(block, limit, pos);
             stop.Some? && TWO63 - 8 - stop.value.0 <= stop.value.1 < TWO63
    decreases |block| - pos
  {
    if pos + 12 <= limit {
      var field := Le64(block, pos);
      if 4 <= field && pos + 8 + field <= limit {
        var id, value := Le32(block, pos + 8), block[pos + 12..pos + 8 + field];
        PairsPanicExactly(block, limit, pos + 8 + field, if id in pairs then pairs else pairs[id := value]);
      }
    }
  }

  /** The size field in front of the magic overflows size + 8. */
  predicate SizeOverflows(size: U64) { TWO63 - 8 <= size < TWO63 }

  /** The block has a plausible size, and the walk over its pairs stops at a length that overflows. */
  predicate PairOverflows(file: seq<Byte>, cdOffset: nat, size: U64)
    requires cdOffset <= |file|
  {
    && 24 <= size && size + 8 <= cdOffset && size + 8 <= MAX_BLOCK
    && var stop := Stop(file[cdOffset - size - 8..cdOffset], size - 16, 8);
       stop.Some? && TWO63 - 8 - stop.value.0 <= stop.value.1 < TWO63
  }

  /** Reading a block panics exactly when there is one and either its size field or a pair length overflows. */
  lemma ReadBlockPanicsExactly(file: seq<Byte>, b: Block)
    requires 32 <= b.cdOffset <= |file|
    ensures var footer := file[b.cdOffset - 24..b.cdOffset];
            var size := Le64(footer, 0);
            ReadBlock(file, b) == Panic
            <==> footer[8..24] == MAGIC && (SizeOverflows(size) || PairOverflows(file, b.cdOffset, size))
  {
    hide PairsFrom, Stop, Le64;
    var size := Le64(file[b.cdOffset - 24..b.cdOffset], 0);
    if 24 <= size && size + 8 <= b.cdOffset && size + 8 <= MAX_BLOCK {
      PairsPanicExactly(file[b.cdOffset - size - 8..b.cdOffset], size - 16, 8, map[]);
    }
  }

  /** And so for any file: exactly when it has an end record, and in front of the directory that it points to a block
      in which the size field or a pair length overflows. */
  lemma LocatePanicsExactly(file: seq<Byte>)
    ensures Locate(file) == Panic
       <==> && EndOf(file).eocd != []
            && var cd := EndOf(file).cdOffset;
               var footer := file[cd - 24..cd];
               footer[8..24] == MAGIC && (SizeOverflows(Le64(footer, 0)) || PairOverflows(file, cd, Le64(footer, 0)))
  {
    hide ReadBlock, EndOf, SizeOverflows, PairOverflows, Le64;
    if EndOf(file).eocd != [] { ReadBlockPanicsExactly(file, EndOf(file)); }
  }

  // ---- assembling a file ----

  /** An id-value pair. */
  datatype Pair = Pair(id: U32, value: seq<Byte>)

  function PairBytes(p: Pair): (r: seq<Byte>)
    requires 4 + |p.value| < TWO64
    ensures |r| == 12 + |p.value|
  {
    Put64(4 + |p.value|) + Put32(p.id) + p.value
  }

  function PairsBytes(ps: seq<Pair>): seq<Byte>
    requires forall p :: p in ps ==> 4 + |p.value| < TWO64
  {
    if ps == [] then [] else PairBytes(ps[0]) + PairsBytes(ps[1..])
  }

  function Collect(m: map<U32, seq<Byte>>, ps: seq<Pair>): map<U32, seq<Byte>>
    decreases |ps|
  {
    if ps == [] then m else Collect(if ps[0].id in m then m else m[ps[0].id := ps[0].value], ps[1..])
  }

  predicate Distinct(ps: seq<Pair>) { forall i, j :: 0 <= i < j < |ps| ==> ps[i].id != ps[j].id }

  /** What is known of an id stays. */
  lemma {:induction false} CollectKeeps(m: map<U32, seq<Byte>>, ps: seq<Pair>, id: U32)
    requires id in m
    ensures id in Collect(m, ps) && Collect(m, ps)[id] == m[id]
    decreases |ps|
  {
    if ps != [] { CollectKeeps(if ps[0].id in m then m else m[ps[0].id := ps[0].value], ps[1..], id); }
  }

  /** Nothing else comes in. */
  lemma {:induction false} CollectAdds(m: map<U32, seq<Byte>>, ps: seq<Pair>, id: U32)
    ensures id in Collect(m, ps) <==> id in m || exists i :: 0 <= i < |ps| && ps[i].id == id
    decreases |ps|
  {
    if ps != [] {
      CollectAdds(if ps[0].id in m then m else m[ps[0].id := ps[0].value], ps[1..], id);
      assert forall i :: 0 <= i < |ps| - 1 ==> ps[1..][i] == ps[i + 1];
      if i :| 0 <= i < |ps| && ps[i].id == id {
        if i > 0 { assert ps[1..][i - 1].id == id; }
      }
    }
  }

  /** With distinct ids each id gets its own value. */
  lemma {:induction false} CollectDistinct(m: map<U32, seq<Byte>>, ps: seq<Pair>, i: nat)
    requires i < |ps| && Distinct(ps) && ps[i].id !in m
    ensures ps[i].id in Collect(m, ps) && Collect(m, ps)[ps[i].id] == ps[i].value
    decreases |ps|
  {
    var m' := if ps[0].id in m then m else m[ps[0].id := ps[0].value];
    if i == 0 {
      CollectKeeps(m', ps[1..], ps[0].id);
    } else {
      assert Distinct(ps[1..]) && ps[1..][i - 1] == ps[i];
      CollectDistinct(m', ps[1..], i - 1);
    }
  }

  predicate BlockFits(ps: seq<Pair>) {
    && (forall p :: p in ps ==> 4 + |p.value| < TWO64)
    && |PairsBytes(ps)| + 32 <= MAX_BLOCK
  }

  function EncodeBlock(ps: seq<Pair>): (r: seq<Byte>)
    requires BlockFits(ps)
    ensures |r| == |PairsBytes(ps)| + 32
  {
    var size := Put64(|PairsBytes(ps)| + 24);
    size + PairsBytes(ps) + (size + MAGIC)
  }

  /** One pair of the walk. */
  lemma PairStep(block: seq<Byte>, limit: nat, pos: nat, p: Pair, m: map<U32, seq<Byte>>)
    requires limit <= |block| <= MAX_BLOCK && 4 + |p.value| < TWO64 && pos + 12 + |p.value| <= limit
    requires block[pos..pos + 12 + |p.value|] == PairBytes(p)
    ensures PairsFrom(block, limit, pos, m)
         == PairsFrom(block, limit, pos + 12 + |p.value|, if p.id in m then m else m[p.id := p.value])
  {
    hide PairBytes, Le64, Le32;
    PairFound(block, pos, p);
  }

  lemma PairsEnd(block: seq<Byte>, limit: nat, pos: nat, m: map<U32, seq<Byte>>)
    requires pos + 12 > limit && limit <= |block| <= MAX_BLOCK
    ensures PairsFrom(block, limit, pos, m) == Some(m)
  {
  }

  /** A slice that is a concatenation, cut at the seam. */
  lemma CutSlice(s: seq<Byte>, lo: nat, hi: nat, a: seq<Byte>, b: seq<Byte>)
    requires lo <= hi <= |s| && s[lo..hi] == a + b
    ensures lo + |a| <= hi && s[lo..lo + |a|] == a && s[lo + |a|..hi] == b
  {
    assert a == (a + b)[..|a|] && b == (a + b)[|a|..];
    assert s[lo..lo + |a|] == s[lo..hi][..|a|] && s[lo + |a|..hi] == s[lo..hi][|a|..];
  }

  /** Walking encoded pairs collects them and ends at the limit. */
  lemma {:induction false} PairsReadBack(block: seq<Byte>, limit: nat, pos: nat, ps: seq<Pair>, m: map<U32, seq<Byte>>)
    requires pos <= limit <= |block| <= MAX_BLOCK
    requires forall p :: p in ps ==> 4 + |p.value| < TWO64
    requires block[pos..limit] == PairsBytes(ps)
    ensures PairsFrom(block, limit, pos, m) == Some(Collect(m, ps))
    decreases |ps|
  {
    hide PairBytes, PairsFrom, Le64, Le32;
    if ps == [] {
      assert pos == limit;
      PairsEnd(block, limit, pos, m);
    } else {
      var p := ps[0];
      var m' := if p.id in m then m else m[p.id := p.value];
      CutSlice(block, pos, limit, PairBytes(p), PairsBytes(ps[1..]));
      PairStep(block, limit, pos, p, m);
      PairsReadBack(block, limit, pos + 12 + |p.value|, ps[1..], m');
      assert Collect(m, ps) == Collect(m', ps[1..]);
    }
  }

  lemma PairFound(block: seq<Byte>, pos: nat, p: Pair)
    requires 4 + |p.value| < TWO64 && pos + 12 + |p.value| <= |block|
    requires block[pos..pos + 12 + |p.value|] == PairBytes(p)
    ensures Le64(block, pos) == 4 + |p.value| && Le32(block, pos + 8) == p.id
    ensures block[pos + 12..pos + 12 + |p.value|] == p.value
  {
    hide Put64, Put32;
    var bytes, end := PairBytes(p), pos + 12 + |p.value|;
    Split3(Put64(4 + |p.value|), Put32(p.id), p.value);
    Le32Slice(block, pos, end, 0);
    Le32Slice(block, pos, end, 4);
    Le32Slice(block, pos, end, 8);
    Le32Slice(bytes, 0, 8, 0);
    Le32Slice(bytes, 0, 8, 4);
    Le32Slice(bytes, 8, 12, 0);
    assert block[pos + 12..end] == bytes[12..];
  }

  /** The end record: signature, twelve bytes the reader ignores, directory offset, comment. */
  function EndRecord(ignored: seq<Byte>, cdOffset: U32, comment: seq<Byte>): (r: seq<Byte>)
    requires |ignored| == 12 && |comment| < 0x1_0000
    ensures |r| == 22 + |comment| && r[0..4] == SIGNATURE
    ensures Le32(r, 16) == cdOffset && Le16(r, 20) == |comment|
  {
    hide Put32, Put16;
    var r := SIGNATURE + ignored + Put32(cdOffset) + Put16(|comment|) + comment;
    assert r[16..20] == Put32(cdOffset) && r[20..22] == Put16(|comment|);
    Le32Slice(r, 16, 20, 0);
    Le16Slice(r, 20, 22, 0);
    r
  }

  predicate NoLaterSignature(eocd: seq<Byte>) {
    forall k :: 0 < k < |eocd| ==> !MatchAt(eocd, SIGNATURE, k)
  }

  lemma LastSignature(tail: seq<Byte>, at: nat, eocd: seq<Byte>)
    requires at + |eocd| == |tail| && tail[at..] == eocd && |eocd| >= 4 && eocd[0..4] == SIGNATURE
    requires NoLaterSignature(eocd)
    ensures LastIndex(tail, SIGNATURE) == at
  {
    assert MatchAt(tail, SIGNATURE, at) by { assert tail[at..at + 4] == eocd[0..4]; }
    forall k | at < k <= |tail| - 4 ensures !MatchAt(tail, SIGNATURE, k) {
      assert tail[k..k + 4] == eocd[k - at..k - at + 4];
      assert !MatchAt(eocd, SIGNATURE, k - at);
    }
  }

  /** The reader finds the end record of any file that ends with one, and goes on to the block in front of the
      directory. */
  lemma LocateReaches(front: seq<Byte>, directory: seq<Byte>, ignored: seq<Byte>, comment: seq<Byte>)
    requires 32 <= |front| < TWO32 && |ignored| == 12 && |comment| < 0x1_0000
    requires NoLaterSignature(EndRecord(ignored, |front|, comment))
    ensures var eocd := EndRecord(ignored, |front|, comment);
            var file := front + directory + eocd;
            Locate(file) == ReadBlock(file, Block(map[], 0, |front|, |front| + |directory|, |file|, eocd))
  {
    hide ReadBlock, EndRecord, LastIndex, NoLaterSignature, Le32, Le16;
    var eocd := EndRecord(ignored, |front|, comment);
    var file := front + directory + eocd;
    var start := |file| - TailLength(file);
    var tail, at := file[start..], |front| + |directory| - start;
    assert tail[at..] == tail[at..|tail|] == eocd == file[start + at..|file|];
    LastSignature(tail, at, eocd);
    Le32Slice(tail, at, |tail|, 16);
    Le16Slice(tail, at, |tail|, 20);
  }

  /** Locating and parsing undo assembly: the three offsets, the end record and the exact pairs come back. */
  lemma LocateUndoesAssembly(contents: seq<Byte>, ps: seq<Pair>, directory: seq<Byte>, ignored: seq<Byte>,
      comment: seq<Byte>)
    requires BlockFits(ps) && |contents| + |EncodeBlock(ps)| < TWO32
    requires |ignored| == 12 && |comment| < 0x1_0000
    requires NoLaterSignature(EndRecord(ignored, |contents| + |EncodeBlock(ps)|, comment))
    ensures var cd := |contents| + |EncodeBlock(ps)|;
            var eocd := EndRecord(ignored, cd, comment);
            var file := contents + EncodeBlock(ps) + directory + eocd;
            Locate(file) == Found(Block(Collect(map[], ps), |contents|, cd, cd + |directory|, |file|, eocd))
  {
    hide EncodeBlock, EndRecord, BlockFits, ReadBlock, NoLaterSignature;
    var front := contents + EncodeBlock(ps);
    LocateReaches(front, directory, ignored, comment);
    var eocd := EndRecord(ignored, |front|, comment);
    var file := front + directory + eocd;
    assert file[|contents|..|front|] == EncodeBlock(ps);
    BlockReadBack(file, contents, ps, Block(map[], 0, |front|, |front| + |directory|, |file|, eocd));
  }

  lemma BlockReadBack(file: seq<Byte>, contents: seq<Byte>, ps: seq<Pair>, b: Block)
    requires BlockFits(ps) && b.cdOffset == |contents| + |EncodeBlock(ps)| <= |file|
    requires file[|contents|..b.cdOffset] == EncodeBlock(ps)
    ensures ReadBlock(file, b) == Found(b.(offset := |contents|, pairs := Collect(map[], ps)))
  {
    hide Put64, PairsBytes, PairsFrom, Collect, Le64;
    var block, pairs := EncodeBlock(ps), PairsBytes(ps);
    var size, total := Put64(|pairs| + 24), |pairs| + 32;
    var footer := file[b.cdOffset - 24..b.cdOffset];
    Split3(size, pairs, size + MAGIC);
    assert footer == block[total - 24..] == size + MAGIC;
    FooterFound(footer, |pairs| + 24);
    PairsReadBack(block, total - 24, 8, ps, map[]);
  }

  lemma FooterFound(footer: seq<Byte>, size: U64)
    requires footer == Put64(size) + MAGIC
    ensures |footer| == 24 && Le64(footer, 0) == size && footer[8..24] == MAGIC
  {
    hide Put64;
    assert footer[0..8] == Put64(size);
    Le32Slice(footer, 0, 8, 0);
    Le32Slice(footer, 0, 8, 4);
  }

  const ZEROS: seq<Byte> := [0, 0, 0, 0, 0, 0, 0, 0]
  const IGNORED: seq<Byte> := ZEROS + [0, 0, 0, 0]

  /** An end record without a comment for a small directory offset has one signature. */
  lemma PlainEnd(cdOffset: Byte)
    requires cdOffset != 0x50
    ensures NoLaterSignature(EndRecord(IGNORED, cdOffset, []))
  {
    var eocd := EndRecord(IGNORED, cdOffset, []);
    assert Put32(cdOffset) == [cdOffset, 0, 0, 0] && Put16(0) == [0, 0];
    forall k | 0 < k < |eocd| ensures !MatchAt(eocd, SIGNATURE, k) {
      assert eocd[k] != 0x50;
      if k + 4 <= |eocd| { assert eocd[k..k + 4][0] == eocd[k]; }
    }
  }

  /** A 54-byte file whose only flaw is the size field of its block. */
  lemma SizeOverflowIsReachable() returns (file: seq<Byte>)
    ensures |file| == 54 && Locate(file) == Panic
  {
    hide ReadBlock, Locate, EndRecord, NoLaterSignature, Put64, Put32;
    var front := ZEROS + (Put64(TWO63 - 1) + MAGIC);
    var eocd := EndRecord(IGNORED, 32, []);
    PlainEnd(32);
    file := front + [] + eocd;
    LocateReaches(front, [], IGNORED, []);
    assert file[8..32] == Put64(TWO63 - 1) + MAGIC;
    FooterFound(file[8..32], TWO63 - 1);
    ReadBlockPanicsExactly(file, Block(map[], 0, 32, 32, 54, eocd));
  }

  /** A 66-byte file with a block of the right size whose only flaw is the length of its one pair. */
  lemma PairOverflowIsReachable() returns (file: seq<Byte>)
    ensures |file| == 66 && Locate(file) == Panic
  {
    hide ReadBlock, Locate, EndRecord, NoLaterSignature, Put64, Put32, Le64;
    var pair := Put64(TWO63 - 1) + Put32(0);
    var front := ZEROS + pair + (Put64(36) + MAGIC);
    var eocd := EndRecord(IGNORED, 44, []);
    PlainEnd(44);
    file := front + [] + eocd;
    LocateReaches(front, [], IGNORED, []);
    assert file[20..44] == Put64(36) + MAGIC;
    FooterFound(file[20..44], 36);
    assert file[44 - 36 - 8..44] == front;
    PairLengthFound(front, pair);
    ReadBlockPanicsExactly(file, Block(map[], 0, 44, 44, 66, eocd));
  }

  lemma PairLengthFound(front: seq<Byte>, pair: seq<Byte>)
    requires pair == Put64(TWO63 - 1) + Put32(0) && |front| == 44 && front[8..20] == pair
    ensures Stop(front, 20, 8) == Some((8, TWO63 - 1))
  {
    hide Put64, Put32;
    assert front[8..16] == pair[..8] == Put64(TWO63 - 1);
    Le32Slice(front, 8, 16, 0);
    Le32Slice(front, 8, 16, 4);
    Le32Slice(Put64(TWO63 - 1), 0, 8, 0);
    Le32Slice(Put64(TWO63 - 1), 0, 8, 4);
  }
}
