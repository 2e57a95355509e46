/** ResStringPool chunks: the string table shared by binary XML documents and resource tables.

    `Parse` says what a chunk means, `ParseStringPool` is the loop that computes it, and
    `Encode` writes a chunk in either character width and either length form.
 */
module StringPool {
  import opened Bytes

  type Pool = seq<Str>

  datatype PoolError = ChunkTooSmall | BadHeaderSize | ImplausibleCount | DataOutOfRange

  /** Decoding of UTF-16 code units belongs to a library; it is a parameter here. */
  type Utf16Decoder = seq<U16> -> Str

  const UTF8_FLAG := 0x100
  const POOL_CHUNK := 0x0001

  /** The string at index i, or the empty string when there is no pool or no such index. */
  function At(pool: Option<Pool>, i: U32): (s: Str)
    ensures s != [] ==> pool.Some? && i < |pool.value| && s == pool.value[i]
  {
    if pool.Some? && i < |pool.value| then pool.value[i] else []
  }

  /** The n bytes from pos on, or nothing when the buffer ends earlier. */
  function Span(data: seq<Byte>, pos: nat, n: nat): Str {
    if pos + n > |data| then [] else data[pos..pos + n]
  }

  function DecodeUtf8(data: seq<Byte>): Str {
    if data == [] then []
    else if data[0] < 0x80 then Span(data, 1, data[0])
    else if |data| < 2 then []
    else
      var hi: int, lo: int := data[0], data[1];
      Span(data, 2, hi % 0x80 * 0x100 + lo)
  }

  /** The n code units stored from pos on. */
  function Units(data: seq<Byte>, pos: nat, n: nat): (u: seq<U16>)
    requires pos + 2 * n <= |data|
    ensures |u| == n
  {
    seq(n, i requires 0 <= i < n => Le16(data, pos + 2 * i))
  }

  function Utf16Span(decode: Utf16Decoder, data: seq<Byte>, pos: nat, n: nat): Str {
    if pos + 2 * n > |data| then [] else decode(Units(data, pos, n))
  }

  function DecodeUtf16(decode: Utf16Decoder, data: seq<Byte>): Str {
    if |data| < 2 then []
    else
      var n: int := Le16(data, 0);
      if n < 0x8000 then Utf16Span(decode, data, 2, n)
      else if |data| < 4 then []
      else Utf16Span(decode, data, 4, n % 0x8000 * 0x1_0000 + Le16(data, 2))
  }

  /** String number i of a chunk whose header has been checked. */
  function Item(decode: Utf16Decoder, chunk: seq<Byte>, headerSize: nat, start: nat, utf8: bool, i: nat): Str
    requires headerSize + 4 * i + 4 <= |chunk|
  {
    var pos := start + Le32(chunk, headerSize + 4 * i);
    if pos >= |chunk| then []
    else if utf8 then DecodeUtf8(chunk[pos..])
    else DecodeUtf16(decode, chunk[pos..])
  }

  function Parse(decode: Utf16Decoder, chunk: seq<Byte>): Result<Pool, PoolError> {
    if |chunk| < 28 then Err(ChunkTooSmall)
    else
      var headerSize := Le16(chunk, 2);
      var count := Le32(chunk, 8);
      var utf8 := Le32(chunk, 16) / UTF8_FLAG % 2 == 1;
      var start := Le32(chunk, 20);
      if headerSize < 28 || headerSize > |chunk| then Err(BadHeaderSize)
      else if count > (|chunk| - headerSize) / 4 then Err(ImplausibleCount)
      else if start < headerSize || start > |chunk| then Err(DataOutOfRange)
      else Ok(seq(count, i requires 0 <= i < count => Item(decode, chunk, headerSize, start, utf8, i)))
  }

  method DecodeUtf16String(decode: Utf16Decoder, data: seq<Byte>) returns (s: Str)
    ensures s == DecodeUtf16(decode, data)
  {
    if |data| < 2 { return []; }
    var length: int := Le16(data, 0);
    var pos := 2;
    if length >= 0x8000 {
      if |data| < 4 { return []; }
      length := length % 0x8000 * 0x1_0000 + Le16(data, 2);
      pos := 4;
    }
    if pos + length * 2 > |data| { return []; }
    var units: seq<U16> := [];
    for i := 0 to length
      invariant units == Units(data, pos, length)[..i]
    {
      units := units + [Le16(data, pos + 2 * i)];
    }
    assert units == Units(data, pos, length);
    s := decode(units);
  }

  method ReadItem(decode: Utf16Decoder, chunk: seq<Byte>, headerSize: nat, stringsStart: nat, utf8Encoded: bool, i: nat)
    returns (s: Str)
    requires headerSize + 4 * i + 4 <= |chunk|
    ensures s == Item(decode, chunk, headerSize, stringsStart, utf8Encoded, i)
  {
    hide DecodeUtf8, DecodeUtf16;
    var off := Le32(chunk, headerSize + i * 4);
    var pos := stringsStart + off;
    if pos >= |chunk| { return []; }
    if utf8Encoded { return DecodeUtf8(chunk[pos..]); }
    s := DecodeUtf16String(decode, chunk[pos..]);
  }

  method ParseStringPool(decode: Utf16Decoder, chunk: seq<Byte>) returns (r: Result<Pool, PoolError>)
    ensures r == Parse(decode, chunk)
  {
    hide Item;
    if |chunk| < 28 { return Err(ChunkTooSmall); }
    var headerSize := Le16(chunk, 2);
    if headerSize < 28 || headerSize > |chunk| { return Err(BadHeaderSize); }
    var count := Le32(chunk, 8);
    var flags := Le32(chunk, 16);
    var stringsStart := Le32(chunk, 20);
    var utf8Encoded := flags / UTF8_FLAG % 2 == 1;
    if count > (|chunk| - headerSize) / 4 { return Err(ImplausibleCount); }
    if stringsStart < headerSize || stringsStart > |chunk| { return Err(DataOutOfRange); }

    ghost var spec := Parse(decode, chunk);
    assert spec.Ok? && |spec.value| == count;
    var values: Pool := [];
    for i := 0 to count
      invariant values == spec.value[..i]
    {
      assert spec.value[i] == Item(decode, chunk, headerSize, stringsStart, utf8Encoded, i);
      var s := ReadItem(decode, chunk, headerSize, stringsStart, utf8Encoded, i);
      values := values + [s];
      assert spec.value[..i + 1] == spec.value[..i] + [spec.value[i]];
    }
    assert values == spec.value;
    r := Ok(values);
  }

  // ---- the encoder ----

  /** How a pool is written: the character width, which strings take the long length form,
      how a string becomes UTF-16 code units, and the alignment bytes at the end. */
  datatype Layout = Layout(utf8: bool, long: Str -> bool, encode16: Str -> seq<U16>, padding: seq<Byte>)

  predicate Representable(layout: Layout, decode: Utf16Decoder, s: Str) {
    if layout.utf8 then |s| < if layout.long(s) then 0x8000 else 0x80
    else
      && decode(layout.encode16(s)) == s
      && |layout.encode16(s)| < if layout.long(s) then 0x8000_0000 else 0x8000
  }

  function Encode8(s: Str, long: bool): seq<Byte>
    requires |s| < if long then 0x8000 else 0x80
  {
    (if long then [0x80 + |s| / 0x100, |s| % 0x100] else [|s|]) + s + [0]
  }

  function Encode16(units: seq<U16>, long: bool): seq<Byte>
    requires |units| < if long then 0x8000_0000 else 0x8000
  {
    (if long then Put16(0x8000 + |units| / 0x1_0000) + Put16(|units| % 0x1_0000) else Put16(|units|))
    + Words16(units) + [0, 0]
  }

  function EncodeItem(layout: Layout, decode: Utf16Decoder, s: Str): (r: seq<Byte>)
    requires Representable(layout, decode, s)
    ensures r != []
  {
    if layout.utf8 then Encode8(s, layout.long(s)) else Encode16(layout.encode16(s), layout.long(s))
  }

  function Items(layout: Layout, decode: Utf16Decoder, strings: Pool): (r: seq<seq<Byte>>)
    requires forall s :: s in strings ==> Representable(layout, decode, s)
    ensures |r| == |strings|
  {
    seq(|strings|, i requires 0 <= i < |strings| => EncodeItem(layout, decode, strings[i]))
  }

  function PoolSize(layout: Layout, decode: Utf16Decoder, strings: Pool): nat
    requires forall s :: s in strings ==> Representable(layout, decode, s)
  {
    28 + 4 * |strings| + |Flatten(Items(layout, decode, strings))| + |layout.padding|
  }

  predicate Encodable(layout: Layout, decode: Utf16Decoder, strings: Pool) {
    && (forall s :: s in strings ==> Representable(layout, decode, s))
    && PoolSize(layout, decode, strings) < 0x1_0000_0000
  }

  function Header(size: U32, count: U32, flags: U32, start: U32): (r: seq<Byte>)
    ensures |r| == 28
    ensures Le16(r, 0) == POOL_CHUNK && Le16(r, 2) == 28 && Le32(r, 4) == size
    ensures Le32(r, 8) == count && Le32(r, 16) == flags && Le32(r, 20) == start
  {
    var a := Put16(POOL_CHUNK) + Put16(28) + Put32(size);
    var b := Put32(count) + Put32(0);
    var c := Put32(flags) + Put32(start) + Put32(0);
    assert Le16(a, 0) == POOL_CHUNK && Le16(a, 2) == 28 && Le32(a, 4) == size;
    assert Le32(b, 0) == count;
    assert Le32(c, 0) == flags && Le32(c, 4) == start;
    a + b + c
  }

  /** Where each string begins, counted from the start of the string data. */
  function Offsets(items: seq<seq<Byte>>): (r: seq<U32>)
    requires |Flatten(items)| < 0x1_0000_0000
    ensures |r| == |items|
    ensures forall i :: 0 <= i < |items| ==> r[i] == Offset(items, i)
  {
    assert forall i :: 0 <= i < |items| ==> Offset(items, i) <= |Flatten(items)| by {
      forall i | 0 <= i < |items| ensures Offset(items, i) <= |Flatten(items)| { FlattenAt(items, i); }
    }
    seq(|items|, i requires 0 <= i < |items| => Offset(items, i))
  }

  function Encode(layout: Layout, decode: Utf16Decoder, strings: Pool): (r: seq<Byte>)
    requires Encodable(layout, decode, strings)
    ensures |r| == PoolSize(layout, decode, strings) >= 28
    ensures Le16(r, 0) == POOL_CHUNK && Le16(r, 2) == 28 && Le32(r, 4) == |r|
  {
    var items := Items(layout, decode, strings);
    Header(PoolSize(layout, decode, strings), |strings|, if layout.utf8 then UTF8_FLAG else 0, 28 + 4 * |strings|)
    + Words32(Offsets(items)) + (Flatten(items) + layout.padding)
  }

  lemma DecodeEncode8(s: Str, long: bool, tail: seq<Byte>)
    requires |s| < if long then 0x8000 else 0x80
    ensures DecodeUtf8(Encode8(s, long) + tail) == s
  {
    var data := Encode8(s, long) + tail;
    if long {
      assert data[2..2 + |s|] == s;
    } else {
      assert data[1..1 + |s|] == s;
    }
  }

  lemma LongLength(decode: Utf16Decoder, data: seq<Byte>, n: nat)
    requires |data| >= 4 && n < 0x8000_0000
    requires Le16(data, 0) == 0x8000 + n / 0x1_0000 && Le16(data, 2) == n % 0x1_0000
    ensures DecodeUtf16(decode, data) == Utf16Span(decode, data, 4, n)
  {
    hide Le16, Utf16Span;
    assert (0x8000 + n / 0x1_0000) % 0x8000 == n / 0x1_0000;
  }

  lemma ShortLength(decode: Utf16Decoder, data: seq<Byte>, n: nat)
    requires |data| >= 2 && n < 0x8000 && Le16(data, 0) == n
    ensures DecodeUtf16(decode, data) == Utf16Span(decode, data, 2, n)
  {
    hide Le16, Utf16Span;
  }

  lemma DecodeEncode16(decode: Utf16Decoder, units: seq<U16>, long: bool, tail: seq<Byte>)
    requires |units| < if long then 0x8000_0000 else 0x8000
    ensures DecodeUtf16(decode, Encode16(units, long) + tail) == decode(units)
  {
    hide Words16, Put16, DecodeUtf16, Le16;
    var n := |units|;
    var head := if long then Put16(0x8000 + n / 0x1_0000) + Put16(n % 0x1_0000) else Put16(n);
    var data := Encode16(units, long) + tail;
    assert data == head + Words16(units) + ([0, 0] + tail);
    Split3(head, Words16(units), [0, 0] + tail);
    UnitsFound(data, |head|, units);
    Le16Slice(data, 0, |head|, 0);
    if long {
      Le16Slice(data, 0, |head|, 2);
      assert head[0..2] == Put16(0x8000 + n / 0x1_0000) && head[2..4] == Put16(n % 0x1_0000);
      Le16Slice(head, 0, 2, 0);
      Le16Slice(head, 2, 4, 0);
      LongLength(decode, data, n);
    } else {
      ShortLength(decode, data, n);
    }
  }

  lemma UnitsFound(data: seq<Byte>, pos: nat, units: seq<U16>)
    requires pos + 2 * |units| <= |data| && data[pos..pos + 2 * |units|] == Words16(units)
    ensures Units(data, pos, |units|) == units
  {
    hide Words16, Put16;
    forall i | 0 <= i < |units| ensures Le16(data, pos + 2 * i) == units[i] {
      Words16At(units, i);
      Le16Slice(data, pos, pos + 2 * |units|, 2 * i);
    }
  }

  lemma DecodeEncodeItem(layout: Layout, decode: Utf16Decoder, s: Str, tail: seq<Byte>)
    requires Representable(layout, decode, s)
    ensures var data := EncodeItem(layout, decode, s) + tail;
            s == if layout.utf8 then DecodeUtf8(data) else DecodeUtf16(decode, data)
  {
    if layout.utf8 {
      DecodeEncode8(s, layout.long(s), tail);
    } else {
      DecodeEncode16(decode, layout.encode16(s), layout.long(s), tail);
    }
  }

  /** The three parts of an encoded chunk. */
  lemma EncodeParts(layout: Layout, decode: Utf16Decoder, strings: Pool)
    requires Encodable(layout, decode, strings)
    ensures var chunk := Encode(layout, decode, strings);
            var items := Items(layout, decode, strings);
            && chunk[0..28] == Header(|chunk|, |strings|, if layout.utf8 then UTF8_FLAG else 0, 28 + 4 * |strings|)
            && chunk[28..28 + 4 * |strings|] == Words32(Offsets(items))
            && chunk[28 + 4 * |strings|..] == Flatten(items) + layout.padding
  {
    hide Put16, Put32, Words32, Flatten, Header, Offsets, Offset;
    var items := Items(layout, decode, strings);
    Split3(Header(PoolSize(layout, decode, strings), |strings|, if layout.utf8 then UTF8_FLAG else 0,
                  28 + 4 * |strings|),
           Words32(Offsets(items)), Flatten(items) + layout.padding);
  }

  lemma ItemFound(layout: Layout, decode: Utf16Decoder, strings: Pool, chunk: seq<Byte>, i: nat)
    requires Encodable(layout, decode, strings) && i < |strings| && 28 + 4 * |strings| <= |chunk|
    requires chunk[28..28 + 4 * |strings|] == Words32(Offsets(Items(layout, decode, strings)))
    requires chunk[28 + 4 * |strings|..] == Flatten(Items(layout, decode, strings)) + layout.padding
    ensures Item(decode, chunk, 28, 28 + 4 * |strings|, layout.utf8, i) == strings[i]
  {
    hide Encode8, Encode16, Put32, Words32, DecodeUtf8, DecodeUtf16, Flatten;
    var items := Items(layout, decode, strings);
    var start := 28 + 4 * |strings|;
    Words32At(Offsets(items), i);
    Le32Slice(chunk, 28, start, 4 * i);
    var tail := FlattenTail(items, layout.padding, i);
    assert chunk[start + Offset(items, i)..] == chunk[start..][Offset(items, i)..];
    assert items[i] == EncodeItem(layout, decode, strings[i]);
    DecodeEncodeItem(layout, decode, strings[i], tail);
  }

  lemma ParseIsItems(decode: Utf16Decoder, chunk: seq<Byte>, count: nat, utf8: bool)
    requires 28 + 4 * count <= |chunk| && Le16(chunk, 2) == 28 && Le32(chunk, 8) == count
    requires Le32(chunk, 16) == (if utf8 then UTF8_FLAG else 0) && Le32(chunk, 20) == 28 + 4 * count
    ensures Parse(decode, chunk).Ok? && |Parse(decode, chunk).value| == count
    ensures forall i :: 0 <= i < count ==>
            Parse(decode, chunk).value[i] == Item(decode, chunk, 28, 28 + 4 * count, utf8, i)
  {
    hide Item;
  }

  lemma HeaderFound(chunk: seq<Byte>, count: U32, flags: U32, start: U32)
    requires 28 <= |chunk| < 0x1_0000_0000 && chunk[0..28] == Header(|chunk|, count, flags, start)
    ensures Le16(chunk, 2) == 28 && Le32(chunk, 8) == count && Le32(chunk, 16) == flags && Le32(chunk, 20) == start
  {
    hide Header;
    Le16Slice(chunk, 0, 28, 2);
    Le32Slice(chunk, 0, 28, 8);
    Le32Slice(chunk, 0, 28, 16);
    Le32Slice(chunk, 0, 28, 20);
  }

  /** Every pool that fits its length fields is read back exactly, in both widths and both length forms. */
  lemma ParseUndoesEncode(layout: Layout, decode: Utf16Decoder, strings: Pool)
    requires Encodable(layout, decode, strings)
    ensures Parse(decode, Encode(layout, decode, strings)) == Ok(strings)
  {
    hide Parse, Item, Encode, Header, Words32, Flatten, Items, Representable;
    var chunk := Encode(layout, decode, strings);
    EncodeParts(layout, decode, strings);
    HeaderFound(chunk, |strings|, if layout.utf8 then UTF8_FLAG else 0, 28 + 4 * |strings|);
    ParseIsItems(decode, chunk, |strings|, layout.utf8);
    forall i | 0 <= i < |strings|
      ensures Item(decode, chunk, 28, 28 + 4 * |strings|, layout.utf8, i) == strings[i]
    {
      ItemFound(layout, decode, strings, chunk, i);
    }
    assert Parse(decode, chunk).value == strings;
  }
}
