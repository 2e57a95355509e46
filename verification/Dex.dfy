/** Strings and class names of a DEX file.

    Offsets are unsigned 32-bit integers and their sums wrap. Callers read at most 64 MiB of a file, so a
    buffer is always shorter than 2^32 bytes; `Buffer` says so.
 */
module Dex {
  import opened Bytes

  const WORD := 0x1_0000_0000
  const MAX_CLASSES := 200_000
  const MAX_STRINGS := 500_000
  const MAGIC: seq<Byte> := [0x64, 0x65, 0x78, 0x0a]

  predicate Buffer(data: seq<Byte>) { |data| < WORD }

  datatype DexError = NotDex | ImplausibleCount(count: U32) | TableOutOfRange

  /** Unsigned 32-bit arithmetic. */
  function Wrap(x: nat): U32 { x % WORD }

  lemma NoWrap(x: nat)
    requires x < WORD
    ensures Wrap(x) == x
  {
  }

  /** Inside a table that fits a buffer, the offset of an entry and the end of its first word do not wrap. */
  lemma EntryInTable(length: nat, off: nat, size: nat, width: nat, i: nat)
    requires (width == 4 || width == 32) && off + width * size <= length < WORD && i < size
    ensures Wrap(off + Wrap(i * width)) == off + width * i && off + width * i + 4 <= length
    ensures Wrap(off + width * i + 4) <= Wrap(length)
  {
    hide Wrap;
    NoWrap(i * width);
    NoWrap(off + width * i);
    NoWrap(off + width * i + 4);
    NoWrap(length);
  }

  /** Sizes and offsets of the three tables. */
  datatype Tables = Tables(stringsSize: U32, stringsOff: U32, typesSize: U32, typesOff: U32, classesSize: U32,
      classesOff: U32)

  predicate IsDex(data: seq<Byte>) { |data| >= 0x70 && data[..4] == MAGIC }

  function Header(data: seq<Byte>): Tables
    requires IsDex(data)
  {
    Tables(Le32(data, 0x38), Le32(data, 0x3c), Le32(data, 0x40), Le32(data, 0x44), Le32(data, 0x60), Le32(data, 0x64))
  }

  /** off + size fits in a buffer of this length; the sum is taken in 64 bits. */
  function InRange(length: nat, off: U32, size: nat): (r: bool)
    requires size <= 32 * WORD
    ensures r <==> off + size <= length
  {
    off <= length && (off + size) % 0x1_0000_0000_0000_0000 <= length
  }

  // ---- one string ----

  /** Behind a ULEB128 number of at most five bytes. */
  function SkipLength(data: seq<Byte>, pos: nat, left: nat): (r: Option<nat>)
    ensures r.Some? ==> r.value <= |data| || r.value == pos
    decreases left
  {
    if left == 0 then Some(pos)
    else if pos >= |data| then None
    else if data[pos] < 0x80 then Some(pos + 1)
    else SkipLength(data, pos + 1, left - 1)
  }

  /** The first NUL from a position on, or the end. */
  function NulFrom(data: seq<Byte>, pos: nat): (r: nat)
    ensures pos <= |data| ==> pos <= r <= |data|
    decreases |data| - pos
  {
    if pos < |data| && data[pos] != 0 then NulFrom(data, pos + 1) else pos
  }

  function StringAt(data: seq<Byte>, off: U32): Option<Str> {
    match SkipLength(data, off, 5)
    case None => None
    case Some(start) =>
      var end := NulFrom(data, start);
      if start >= |data| || end >= |data| then None else Some(data[start..end])
  }

  method ReadString(data: seq<Byte>, off: U32) returns (r: Option<Str>)
    ensures r == StringAt(data, off)
  {
    var pos: nat := off;
    var i := 0;
    while i < 5
      invariant 0 <= i <= 5 && SkipLength(data, pos, 5 - i) == SkipLength(data, off, 5)
      decreases 5 - i
    {
      if pos >= |data| { return None; }
      var b := data[pos];
      pos := pos + 1;
      if b < 0x80 { break; }
      i := i + 1;
    }
    assert SkipLength(data, off, 5) == Some(pos);
    var start := pos;
    while pos < |data| && data[pos] != 0
      invariant start <= pos && NulFrom(data, pos) == NulFrom(data, start)
      decreases |data| - pos
    {
      pos := pos + 1;
    }
    if pos >= |data| { return None; }
    r := Some(data[start..pos]);
  }

  // ---- the string pool ----

  /** The readable strings from entry i on. */
  function StringsFrom(data: seq<Byte>, size: U32, off: U32, i: nat): seq<Str>
    requires Buffer(data) && off + 4 * size <= |data| && i <= size
    decreases size - i
  {
    if i == size then []
    else
      var s := StringAt(data, Le32(data, off + 4 * i));
      (if s.Some? then [s.value] else []) + StringsFrom(data, size, off, i + 1)
  }

  function Strings(data: seq<Byte>): Result<seq<Str>, DexError>
    requires Buffer(data)
  {
    if !IsDex(data) then Err(NotDex)
    else
      var h := Header(data);
      if h.stringsSize == 0 then Ok([])
      else if h.stringsSize > MAX_STRINGS then Err(ImplausibleCount(h.stringsSize))
      else if h.stringsOff + 4 * h.stringsSize > |data| then Err(TableOutOfRange)
      else Ok(StringsFrom(data, h.stringsSize, h.stringsOff, 0))
  }

  method DexStrings(data: seq<Byte>) returns (r: Result<seq<Str>, DexError>)
    requires Buffer(data)
    ensures r == Strings(data)
  {
    hide StringsFrom;
    if !IsDex(data) { return Err(NotDex); }
    var size, off := Le32(data, 0x38), Le32(data, 0x3c);
    if size == 0 { return Ok([]); }
    if size > MAX_STRINGS { return Err(ImplausibleCount(size)); }
    if !InRange(|data|, off, 4 * size) { return Err(TableOutOfRange); }
    var out := CollectStrings(data, size, off);
    r := Ok(out);
  }

  /** The 32-bit offset of every entry is exact. */
  method CollectStrings(data: seq<Byte>, size: U32, off: U32) returns (out: seq<Str>)
    requires Buffer(data) && off + 4 * size <= |data|
    ensures out == StringsFrom(data, size, off, 0)
  {
    hide StringAt, Wrap, Le32;
    out := [];
    for i := 0 to size
      invariant out + StringsFrom(data, size, off, i) == StringsFrom(data, size, off, 0)
    {
      EntryInTable(|data|, off, size, 4, i);
      var s := ReadString(data, Le32(data, Wrap(off + Wrap(i * 4))));
      if s.Some? { out := out + [s.value]; }
    }
  }

  // ---- class names ----

  /** A type index resolved to its descriptor, in plain arithmetic and without the guards against short tables. */
  function TypeName(data: seq<Byte>, h: Tables, typeIdx: U32): Option<Str>
    requires TablesFit(data, h)
  {
    if typeIdx >= h.typesSize then None
    else
      var descIdx := Le32(data, h.typesOff + 4 * typeIdx);
      if descIdx >= h.stringsSize then None
      else
        var dataOff := Le32(data, h.stringsOff + 4 * descIdx);
        if dataOff >= |data| then None else StringAt(data, dataOff)
  }

  predicate TablesFit(data: seq<Byte>, h: Tables) {
    && h.stringsOff + 4 * h.stringsSize <= |data|
    && h.typesOff + 4 * h.typesSize <= |data|
    && h.classesOff + 32 * h.classesSize <= |data|
  }

  function NamesFrom(data: seq<Byte>, h: Tables, i: nat): seq<Str>
    requires Buffer(data) && TablesFit(data, h) && i <= h.classesSize
    decreases h.classesSize - i
  {
    if i == h.classesSize then []
    else
      var name := TypeName(data, h, Le32(data, h.classesOff + 32 * i));
      (if name.Some? then [name.value] else []) + NamesFrom(data, h, i + 1)
  }

  function ClassNames(data: seq<Byte>): Result<seq<Str>, DexError>
    requires Buffer(data)
  {
    if !IsDex(data) then Err(NotDex)
    else
      var h := Header(data);
      if h.classesSize == 0 || h.classesSize > MAX_CLASSES then Err(ImplausibleCount(h.classesSize))
      else if !TablesFit(data, h) then Err(TableOutOfRange)
      else Ok(NamesFrom(data, h, 0))
  }

  /** The program's form, with wrapping sums and guards: once the tables fit, no sum wraps and no guard fires. */
  method DexTypeName(data: seq<Byte>, h: Tables, typeIdx: U32) returns (r: Option<Str>)
    requires Buffer(data) && TablesFit(data, h)
    ensures r == TypeName(data, h, typeIdx)
  {
    hide StringAt, Wrap;
    NoWrap(|data|);
    if typeIdx >= h.typesSize { return None; }
    EntryInTable(|data|, h.typesOff, h.typesSize, 4, typeIdx);
    var descIdxOff := Wrap(h.typesOff + Wrap(typeIdx * 4));
    if Wrap(descIdxOff + 4) > Wrap(|data|) { return None; }
    var descIdx := Le32(data, descIdxOff);
    if descIdx >= h.stringsSize { return None; }
    EntryInTable(|data|, h.stringsOff, h.stringsSize, 4, descIdx);
    var strOffOff := Wrap(h.stringsOff + Wrap(descIdx * 4));
    if Wrap(strOffOff + 4) > Wrap(|data|) { return None; }
    var dataOff := Le32(data, strOffOff);
    if dataOff >= Wrap(|data|) { return None; }
    r := ReadString(data, dataOff);
  }

  method DexClassNames(data: seq<Byte>) returns (r: Result<seq<Str>, DexError>)
    requires Buffer(data)
    ensures r == ClassNames(data)
  {
    hide NamesFrom;
    if !IsDex(data) { return Err(NotDex); }
    var h := Header(data);
    if h.classesSize == 0 || h.classesSize > MAX_CLASSES { return Err(ImplausibleCount(h.classesSize)); }
    if !InRange(|data|, h.stringsOff, 4 * h.stringsSize) || !InRange(|data|, h.typesOff, 4 * h.typesSize)
       || !InRange(|data|, h.classesOff, 32 * h.classesSize) {
      return Err(TableOutOfRange);
    }
    var names := CollectNames(data, h);
    r := Ok(names);
  }

  method CollectNames(data: seq<Byte>, h: Tables) returns (names: seq<Str>)
    requires Buffer(data) && TablesFit(data, h)
    ensures names == NamesFrom(data, h, 0)
  {
    hide TypeName, Wrap, Le32;
    names := [];
    for i := 0 to h.classesSize
      invariant names + NamesFrom(data, h, i) == NamesFrom(data, h, 0)
    {
      EntryInTable(|data|, h.classesOff, h.classesSize, 32, i);
      var off := Wrap(h.classesOff + Wrap(i * 32));
      if Wrap(off + 4) > Wrap(|data|) { break; }
      var name := DexTypeName(data, h, Le32(data, off));
      if name.Some? { names := names + [name.value]; }
    }
  }
}
