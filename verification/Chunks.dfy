/** The chunk framing shared by binary XML and resource tables: kind, header size, total size. */
module Chunks {
  import opened Bytes

  /** A chunk header whose two sizes fit each other and the remaining bytes. */
  predicate Fits(rest: seq<Byte>)
    requires |rest| >= 8
  {
    8 <= Le16(rest, 2) <= Le32(rest, 4) <= |rest|
  }

  /** A chunk whose size field is its length. */
  predicate WellFormed(chunk: seq<Byte>) {
    |chunk| >= 8 && 8 <= Le16(chunk, 2) <= Le32(chunk, 4) == |chunk|
  }

  function Chunk(kind: U16, headerSize: U16, body: seq<Byte>): (r: seq<Byte>)
    requires 8 <= headerSize <= 8 + |body| < 0x1_0000_0000
    ensures |r| == 8 + |body| && r[8..] == body && WellFormed(r)
    ensures Le16(r, 0) == kind && Le16(r, 2) == headerSize && Le32(r, 4) == |r|
  {
    var a, b, c := Put16(kind), Put16(headerSize), Put32(8 + |body|);
    var r := a + b + c + body;
    assert r[0..2] == a && r[2..4] == b && r[4..8] == c;
    Le16Slice(r, 0, 2, 0);
    Le16Slice(r, 2, 4, 0);
    Le32Slice(r, 4, 8, 0);
    r
  }

  /** A well-formed chunk is found in front of whatever follows it. */
  lemma ChunkThenRest(chunk: seq<Byte>, rest: seq<Byte>)
    requires WellFormed(chunk)
    ensures var s := chunk + rest;
            Fits(s) && Le32(s, 4) == |chunk| && s[..|chunk|] == chunk && s[|chunk|..] == rest
  {
    var s := chunk + rest;
    assert Le16(s, 2) == Le16(chunk, 2) && Le32(s, 4) == Le32(chunk, 4);
  }

  /** The chunk header at a position of a larger buffer. */
  lemma HeaderAt(data: seq<Byte>, pos: nat, end: nat)
    requires pos + 8 <= end <= |data|
    ensures var rest := data[pos..end];
            && Le16(rest, 0) == Le16(data, pos) && Le16(rest, 2) == Le16(data, pos + 2)
            && Le32(rest, 4) == Le32(data, pos + 4)
            && (Fits(rest) <==> Le16(data, pos + 2) >= 8 && Le32(data, pos + 4) >= Le16(data, pos + 2)
                                && pos + Le32(data, pos + 4) <= end)
  {
  }
}
