/** Byte sequences, fixed-width integers in both byte orders, and tables of them.

    Every decoder of this project reads unsigned integers out of a byte slice, and every
    encoder writes them back; this module holds the two directions and their laws.
    A Go string is a byte sequence, so `Str` is one too.
 */
module Bytes {

  type Byte = x: int | 0 <= x < 0x100
  type U16 = x: int | 0 <= x < 0x1_0000
  type U32 = x: int | 0 <= x < 0x1_0000_0000
  type U64 = x: int | 0 <= x < 0x1_0000_0000_0000_0000
  type Str = seq<Byte>

  datatype Option<+T> = None | Some(value: T)
  datatype Result<+T, +E> = Ok(value: T) | Err(error: E)

  /** The bytes of an ASCII literal. */
  function Ascii(s: string): (r: Str)
    ensures |r| == |s|
  {
    seq(|s|, i requires 0 <= i < |s| => s[i] as int % 0x100)
  }

  // ---- little endian ----

  function Le16(s: seq<Byte>, i: nat): U16
    requires i + 2 <= |s|
  {
    var b0: int, b1: int := s[i], s[i + 1];
    b0 + 0x100 * b1
  }

  function Le32(s: seq<Byte>, i: nat): U32
    requires i + 4 <= |s|
  {
    var b0: int, b1: int, b2: int, b3: int := s[i], s[i + 1], s[i + 2], s[i + 3];
    b0 + 0x100 * b1 + 0x1_0000 * b2 + 0x100_0000 * b3
  }

  function Le64(s: seq<Byte>, i: nat): U64
    requires i + 8 <= |s|
  {
    Le32(s, i) + 0x1_0000_0000 * Le32(s, i + 4)
  }

  function Put16(v: U16): (r: seq<Byte>)
    ensures |r| == 2 && Le16(r, 0) == v
  {
    [v % 0x100, v / 0x100]
  }

  function Put32(v: U32): (r: seq<Byte>)
    ensures |r| == 4 && Le32(r, 0) == v
  {
    var q1 := v / 0x100;
    var q2 := q1 / 0x100;
    var q3 := q2 / 0x100;
    [v % 0x100, q1 % 0x100, q2 % 0x100, q3]
  }

  function Put64(v: U64): (r: seq<Byte>)
    ensures |r| == 8 && Le64(r, 0) == v
  {
    Put32(v % 0x1_0000_0000) + Put32(v / 0x1_0000_0000)
  }

  lemma LowByte(b: int, q: int)
    requires 0 <= b < 0x100
    ensures (b + 0x100 * q) % 0x100 == b && (b + 0x100 * q) / 0x100 == q
  {
  }

  lemma Put32Of(a: seq<Byte>)
    requires |a| == 4
    ensures a == Put32(Le32(a, 0))
  {
    var b0: int, b1: int, b2: int, b3: int := a[0], a[1], a[2], a[3];
    LowByte(b0, b1 + 0x100 * (b2 + 0x100 * b3));
    LowByte(b1, b2 + 0x100 * b3);
    LowByte(b2, b3);
    assert Le32(a, 0) == b0 + 0x100 * (b1 + 0x100 * (b2 + 0x100 * b3));
  }

  /** Reading inside a slice is reading the whole sequence further on. */
  lemma Le32Slice(s: seq<Byte>, lo: nat, hi: nat, i: nat)
    requires lo <= hi <= |s| && i + 4 <= hi - lo
    ensures Le32(s[lo..hi], i) == Le32(s, lo + i)
  {
  }

  lemma Le16Slice(s: seq<Byte>, lo: nat, hi: nat, i: nat)
    requires lo <= hi <= |s| && i + 2 <= hi - lo
    ensures Le16(s[lo..hi], i) == Le16(s, lo + i)
  {
  }

  // ---- either byte order ----

  function Get32(big: bool, s: seq<Byte>, i: nat): U32
    requires i + 4 <= |s|
  {
    if big then Le32([s[i + 3], s[i + 2], s[i + 1], s[i]], 0) else Le32(s, i)
  }

  function Get64(s: seq<Byte>, i: nat): U64
    requires i + 8 <= |s|
  {
    0x1_0000_0000 * Get32(true, s, i) + Get32(true, s, i + 4)
  }

  function Set32(big: bool, v: U32): (r: seq<Byte>)
    ensures |r| == 4 && Get32(big, r, 0) == v
  {
    var p := Put32(v);
    if big then [p[3], p[2], p[1], p[0]] else p
  }

  lemma Get32Slice(big: bool, s: seq<Byte>, lo: nat, hi: nat, i: nat)
    requires lo <= hi <= |s| && i + 4 <= hi - lo
    ensures Get32(big, s[lo..hi], i) == Get32(big, s, lo + i)
  {
  }

  /** A piece sits at a position of a buffer. */
  predicate At(data: seq<Byte>, off: nat, piece: seq<Byte>) {
    off + |piece| <= |data| && data[off..off + |piece|] == piece
  }

  lemma AtParts(data: seq<Byte>, off: nat, a: seq<Byte>, b: seq<Byte>)
    requires At(data, off, a + b)
    ensures At(data, off, a) && At(data, off + |a|, b)
  {
    var here := data[off..off + |a + b|];
    assert data[off..off + |a|] == here[..|a|];
    assert data[off + |a|..off + |a| + |b|] == here[|a|..];
  }

  // ---- concatenation ----

  /** The parts of a concatenation, by position. */
  lemma Split3<T>(a: seq<T>, b: seq<T>, c: seq<T>)
    ensures var s := a + b + c;
            && s[0..|a|] == a
            && s[|a|..|a| + |b|] == b
            && s[|a|..] == b + c
            && s[|a| + |b|..] == c
  {
  }


  function Flatten<T>(pieces: seq<seq<T>>): seq<T> {
    if pieces == [] then [] else pieces[0] + Flatten(pieces[1..])
  }

  /** Where piece number i of a flattened list begins. */
  function Offset<T>(pieces: seq<seq<T>>, i: nat): nat
    requires i <= |pieces|
  {
    if i == 0 then 0 else |pieces[0]| + Offset(pieces[1..], i - 1)
  }

  /** Piece i of a flattened list sits at Offset(i). */
  lemma {:induction false} FlattenAt<T>(pieces: seq<seq<T>>, i: nat)
    requires i < |pieces|
    ensures Offset(pieces, i) + |pieces[i]| <= |Flatten(pieces)|
    ensures Flatten(pieces)[Offset(pieces, i)..][..|pieces[i]|] == pieces[i]
  {
    if i == 0 {
    } else {
      FlattenAt(pieces[1..], i - 1);
      assert Flatten(pieces)[Offset(pieces, i)..] == Flatten(pieces[1..])[Offset(pieces[1..], i - 1)..];
    }
  }

  /** From Offset(i) on, piece i is followed by the rest. */
  lemma FlattenTail<T>(pieces: seq<seq<T>>, rest: seq<T>, i: nat) returns (tail: seq<T>)
    requires i < |pieces|
    ensures Offset(pieces, i) + |pieces[i]| <= |Flatten(pieces)|
    ensures (Flatten(pieces) + rest)[Offset(pieces, i)..] == pieces[i] + tail
  {
    FlattenAt(pieces, i);
    var at, whole := Offset(pieces, i), Flatten(pieces) + rest;
    tail := whole[at + |pieces[i]|..];
    assert whole[at..at + |pieces[i]|] == Flatten(pieces)[at..][..|pieces[i]|];
  }

  // ---- tables of little-endian integers ----

  function Words32(ws: seq<U32>): (r: seq<Byte>)
    ensures |r| == 4 * |ws|
  {
    if ws == [] then [] else Put32(ws[0]) + Words32(ws[1..])
  }

  function Words16(ws: seq<U16>): (r: seq<Byte>)
    ensures |r| == 2 * |ws|
  {
    if ws == [] then [] else Put16(ws[0]) + Words16(ws[1..])
  }

  lemma {:induction false} Words32At(ws: seq<U32>, i: nat)
    requires i < |ws|
    ensures Le32(Words32(ws), 4 * i) == ws[i]
  {
    var r := Words32(ws);
    if i == 0 {
      assert forall k :: 0 <= k < 4 ==> r[k] == Put32(ws[0])[k];
    } else {
      Words32At(ws[1..], i - 1);
      assert r[4..] == Words32(ws[1..]);
    }
  }

  lemma {:induction false} Words16At(ws: seq<U16>, i: nat)
    requires i < |ws|
    ensures Le16(Words16(ws), 2 * i) == ws[i]
  {
    var r := Words16(ws);
    if i == 0 {
      assert forall k :: 0 <= k < 2 ==> r[k] == Put16(ws[0])[k];
    } else {
      Words16At(ws[1..], i - 1);
      assert r[2..] == Words16(ws[1..]);
    }
  }

  /** A table found inside a buffer. */
  lemma Word32In(data: seq<Byte>, lo: nat, ws: seq<U32>, i: nat)
    requires i < |ws| && lo + 4 * |ws| <= |data| && data[lo..lo + 4 * |ws|] == Words32(ws)
    ensures Le32(data, lo + 4 * i) == ws[i]
  {
    hide Words32;
    Words32At(ws, i);
    Le32Slice(data, lo, lo + 4 * |ws|, 4 * i);
  }

  lemma Word16In(data: seq<Byte>, lo: nat, ws: seq<U16>, i: nat)
    requires i < |ws| && lo + 2 * |ws| <= |data| && data[lo..lo + 2 * |ws|] == Words16(ws)
    ensures Le16(data, lo + 2 * i) == ws[i]
  {
    hide Words16;
    Words16At(ws, i);
    Le16Slice(data, lo, lo + 2 * |ws|, 2 * i);
  }
}
