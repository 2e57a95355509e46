/** Resource tables (resources.arsc): which resource id maps to which string.

    A table file is read as the list of records it contains, in file order; the first record of an
    id wins. `ParseResourceTable` is the nest of loops that fills the map in place.
 */
module Arsc {
  import opened Bytes
  import opened Chunks
  import opened Text
  import Axml
  import StringPool

  const CHUNK_TABLE := 0x0002
  const CHUNK_PACKAGE := 0x0200
  const CHUNK_TYPE := 0x0201
  const MAX_ENTRIES := 0x10_0000

  datatype Error = NotATable | BadHeaderSize | InvalidChunk

  datatype Record = Record(id: U32, value: Str)

  /** Bitwise or. */
  function Or(a: nat, b: nat): nat {
    if a == 0 && b == 0 then 0
    else (if a % 2 == 1 || b % 2 == 1 then 1 else 0) + 2 * Or(a / 2, b / 2)
  }

  lemma {:induction false} OrBounded(a: nat, b: nat, bits: nat, bound: nat)
    requires a < bound && b < bound && bound == Pow2(bits)
    ensures Or(a, b) < bound
  {
    if bits > 0 && (a > 0 || b > 0) {
      OrBounded(a / 2, b / 2, bits - 1, bound / 2);
    }
  }

  function Pow2(n: nat): nat { if n == 0 then 1 else 2 * Pow2(n - 1) }

  /** packageID<<24 | typeID<<16 | entryIndex; an index of 65536 or more runs into the type bits. */
  function ResourceId(packageID: Byte, typeID: Byte, index: nat): U32
    requires index < MAX_ENTRIES
  {
    assert Pow2(8) == 0x100 by { assert Pow2(4) == 16; }
    OrBounded(typeID, index / 0x1_0000, 8, 0x100);
    packageID * 0x100_0000 + Or(typeID, index / 0x1_0000) * 0x1_0000 + index % 0x1_0000
  }

  // ---- what a file says ----

  function Typed(global: Option<StringPool.Pool>, dataType: Byte, data: U32): Str {
    if dataType == Axml.TYPE_STRING then StringPool.At(global, data)
    else if dataType == Axml.TYPE_INT_BOOL then (if data != 0 then TRUE else FALSE)
    else if dataType == Axml.TYPE_INT_DEC || dataType == Axml.TYPE_INT_HEX then Decimal(data)
    else []
  }

  /** The value of the entry at pos; empty for bags, other types and anything out of bounds. */
  function EntryValue(chunk: seq<Byte>, pos: nat, global: Option<StringPool.Pool>): Str {
    if pos + 8 > |chunk| || Le16(chunk, pos + 2) % 2 == 1 then []
    else
      var valuePos := pos + Le16(chunk, pos);
      if valuePos + 8 > |chunk| then []
      else Typed(global, chunk[valuePos + 3], Le32(chunk, valuePos + 4))
  }

  /** A type chunk whose header has been read. */
  datatype TypeView = TypeView(
    chunk: seq<Byte>, headerSize: nat, entriesStart: nat, count: nat,
    packageID: Byte, typeID: Byte, global: Option<StringPool.Pool>)

  function RecordAt(v: TypeView, offset: nat, index: nat): seq<Record>
    requires index < MAX_ENTRIES
  {
    var value := EntryValue(v.chunk, v.entriesStart + offset, v.global);
    if value == [] then [] else [Record(ResourceId(v.packageID, v.typeID, index), value)]
  }

  function SparseFrom(v: TypeView, i: nat): seq<Record>
    requires i <= v.count
    decreases v.count - i
  {
    var off := v.headerSize + 4 * i;
    if i == v.count || off + 4 > |v.chunk| then []
    else RecordAt(v, Le16(v.chunk, off + 2) * 4, Le16(v.chunk, off)) + SparseFrom(v, i + 1)
  }

  function Offset16From(v: TypeView, i: nat): seq<Record>
    requires i <= v.count <= MAX_ENTRIES
    decreases v.count - i
  {
    var off := v.headerSize + 2 * i;
    if i == v.count || off + 2 > |v.chunk| then []
    else
      var entry := Le16(v.chunk, off);
      (if entry == 0xffff then [] else RecordAt(v, entry * 4, i)) + Offset16From(v, i + 1)
  }

  function DenseFrom(v: TypeView, i: nat): seq<Record>
    requires i <= v.count <= MAX_ENTRIES
    decreases v.count - i
  {
    var off := v.headerSize + 4 * i;
    if i == v.count || off + 4 > |v.chunk| then []
    else RecordAt(v, Le32(v.chunk, off), i) + DenseFrom(v, i + 1)
  }

  function TypeRecords(chunk: seq<Byte>, packageID: Byte, global: Option<StringPool.Pool>): seq<Record> {
    if |chunk| < 20 then []
    else
      var v := TypeView(chunk, Le16(chunk, 2), Le32(chunk, 16), Le32(chunk, 12), packageID, chunk[8], global);
      var flags := chunk[9];
      if v.headerSize < 20 || v.headerSize > |chunk| || v.typeID == 0 || v.count > MAX_ENTRIES then []
      else if flags % 2 == 1 then SparseFrom(v, 0)
      else if flags / 2 % 2 == 1 then Offset16From(v, 0)
      else DenseFrom(v, 0)
  }

  /** The records of the type chunks in the rest of a package. */
  function PackageRest(rest: seq<Byte>, packageID: Byte, global: Option<StringPool.Pool>): seq<Record>
    decreases |rest|
  {
    if |rest| < 8 || !Fits(rest) then []
    else
      var size := Le32(rest, 4);
      (if Le16(rest, 0) == CHUNK_TYPE then TypeRecords(rest[..size], packageID, global) else [])
      + PackageRest(rest[size..], packageID, global)
  }

  function PackageRecords(chunk: seq<Byte>, global: Option<StringPool.Pool>): seq<Record> {
    if |chunk| < 12 || Le16(chunk, 2) < 12 || Le16(chunk, 2) > |chunk| then []
    else PackageRest(chunk[Le16(chunk, 2)..], chunk[8], global)
  }

  datatype Reading = Reading(records: seq<Record>, error: Option<Error>)

  function TableRest(utf16: StringPool.Utf16Decoder, rest: seq<Byte>, global: Option<StringPool.Pool>): Reading
    decreases |rest|
  {
    if |rest| < 8 then Reading([], None)
    else if !Fits(rest) then Reading([], Some(InvalidChunk))
    else
      var kind, size := Le16(rest, 0), Le32(rest, 4);
      var chunk := rest[..size];
      var pool := if kind == StringPool.POOL_CHUNK then StringPool.Parse(utf16, chunk)
                  else Err(StringPool.ChunkTooSmall);
      var tail := TableRest(utf16, rest[size..], if pool.Ok? then Some(pool.value) else global);
      tail.(records := (if kind == CHUNK_PACKAGE then PackageRecords(chunk, global) else []) + tail.records)
  }

  function TableEnd(data: seq<Byte>): nat
    requires |data| >= 12
  {
    if Le32(data, 4) > |data| then |data| else Le32(data, 4)
  }

  function Read(utf16: StringPool.Utf16Decoder, data: seq<Byte>): Reading {
    if |data| < 12 || Le16(data, 0) != CHUNK_TABLE then Reading([], Some(NotATable))
    else
      var headerSize, end := Le16(data, 2), TableEnd(data);
      if headerSize < 12 || headerSize > |data| then Reading([], Some(BadHeaderSize))
      else if headerSize > end then Reading([], None)
      else TableRest(utf16, data[headerSize..end], None)
  }

  // ---- first record wins ----

  function InsertOne(m: map<U32, Str>, r: Record): map<U32, Str> {
    if r.id in m then m else m[r.id := r.value]
  }

  function Insert(m: map<U32, Str>, records: seq<Record>): map<U32, Str>
    decreases |records|
  {
    if records == [] then m else Insert(InsertOne(m, records[0]), records[1..])
  }

  lemma {:induction false} InsertAppend(m: map<U32, Str>, a: seq<Record>, b: seq<Record>)
    ensures Insert(m, a + b) == Insert(Insert(m, a), b)
    decreases |a|
  {
    if a == [] {
      assert a + b == b;
    } else {
      assert (a + b)[1..] == a[1..] + b;
      InsertAppend(InsertOne(m, a[0]), a[1..], b);
    }
  }

  /** Values already recorded stay; a new id gets the value of its first record; nothing else appears. */
  lemma {:induction false} FirstRecordWins(m: map<U32, Str>, records: seq<Record>)
    ensures forall id :: id in m ==> id in Insert(m, records) && Insert(m, records)[id] == m[id]
    ensures forall k ::
              0 <= k < |records| && records[k].id !in m && (forall j :: 0 <= j < k ==> records[j].id != records[k].id)
              ==> records[k].id in Insert(m, records) && Insert(m, records)[records[k].id] == records[k].value
    ensures forall id :: id in Insert(m, records) ==> id in m || exists k :: 0 <= k < |records| && records[k].id == id
    decreases |records|
  {
    if records != [] {
      var m1, tail := InsertOne(m, records[0]), records[1..];
      FirstRecordWins(m1, tail);
      forall k | 0 <= k < |records| && records[k].id !in m && forall j :: 0 <= j < k ==> records[j].id != records[k].id
        ensures records[k].id in Insert(m, records) && Insert(m, records)[records[k].id] == records[k].value
      {
        if k > 0 {
          assert records[0].id != records[k].id;
          assert tail[k - 1] == records[k];
          assert forall j :: 0 <= j < k - 1 ==> tail[j] == records[j + 1];
        }
      }
      forall id | id in Insert(m, records)
        ensures id in m || exists k :: 0 <= k < |records| && records[k].id == id
      {
        if id !in m && id != records[0].id {
          var k :| 0 <= k < |tail| && tail[k].id == id;
          assert records[k + 1].id == id;
        }
      }
    }
  }

  // ---- the parser ----

  class ResourceTable {
    var values: map<U32, Str>

    constructor ()
      ensures values == map[]
    {
      values := map[];
    }

    method RecordResourceValue(v: TypeView, offset: nat, index: nat)
      requires index < MAX_ENTRIES
      modifies this
      ensures values == Insert(old(values), RecordAt(v, offset, index))
    {
      hide ResourceId, Typed;
      var chunk, pos := v.chunk, v.entriesStart + offset;
      if pos + 8 > |chunk| { return; }
      var entrySize, entryFlags := Le16(chunk, pos), Le16(chunk, pos + 2);
      if entryFlags % 2 == 1 { return; }
      var valuePos := pos + entrySize;
      if valuePos + 8 > |chunk| { return; }
      var value := Typed(v.global, chunk[valuePos + 3], Le32(chunk, valuePos + 4));
      if value == [] { return; }
      var id := ResourceId(v.packageID, v.typeID, index);
      if id !in values {
        values := values[id := value];
      }
    }

    method ReadSparse(v: TypeView)
      modifies this
      ensures values == Insert(old(values), SparseFrom(v, 0))
    {
      hide RecordAt, Insert;
      var i := 0;
      while i < v.count
        invariant i <= v.count && Insert(values, SparseFrom(v, i)) == Insert(old(values), SparseFrom(v, 0))
      {
        var off := v.headerSize + 4 * i;
        if off + 4 > |v.chunk| { break; }
        var idx, entryOff := Le16(v.chunk, off), Le16(v.chunk, off + 2) * 4;
        InsertAppend(values, RecordAt(v, entryOff, idx), SparseFrom(v, i + 1));
        RecordResourceValue(v, entryOff, idx);
        i := i + 1;
      }
      InsertNothing(values);
    }

    method ReadOffset16(v: TypeView)
      requires v.count <= MAX_ENTRIES
      modifies this
      ensures values == Insert(old(values), Offset16From(v, 0))
    {
      hide RecordAt, Insert;
      var i := 0;
      while i < v.count
        invariant i <= v.count && Insert(values, Offset16From(v, i)) == Insert(old(values), Offset16From(v, 0))
      {
        var off := v.headerSize + 2 * i;
        if off + 2 > |v.chunk| { break; }
        var entry: int := Le16(v.chunk, off);
        if entry == 0xffff {
          assert [] + Offset16From(v, i + 1) == Offset16From(v, i + 1);
        } else {
          InsertAppend(values, RecordAt(v, entry * 4, i), Offset16From(v, i + 1));
          RecordResourceValue(v, entry * 4, i);
        }
        i := i + 1;
      }
      InsertNothing(values);
    }

    method ReadDense(v: TypeView)
      requires v.count <= MAX_ENTRIES
      modifies this
      ensures values == Insert(old(values), DenseFrom(v, 0))
    {
      hide RecordAt, Insert;
      var i := 0;
      while i < v.count
        invariant i <= v.count && Insert(values, DenseFrom(v, i)) == Insert(old(values), DenseFrom(v, 0))
      {
        var off := v.headerSize + 4 * i;
        if off + 4 > |v.chunk| { break; }
        var entryOff := Le32(v.chunk, off);
        InsertAppend(values, RecordAt(v, entryOff, i), DenseFrom(v, i + 1));
        RecordResourceValue(v, entryOff, i);
        i := i + 1;
      }
      InsertNothing(values);
    }

    method ParseTypeChunk(chunk: seq<Byte>, packageID: Byte, global: Option<StringPool.Pool>)
      modifies this
      ensures values == Insert(old(values), TypeRecords(chunk, packageID, global))
    {
      hide SparseFrom, Offset16From, DenseFrom;
      if |chunk| < 20 { return; }
      var v := TypeView(chunk, Le16(chunk, 2), Le32(chunk, 16), Le32(chunk, 12), packageID, chunk[8], global);
      var flags := chunk[9];
      if v.headerSize < 20 || v.headerSize > |chunk| || v.typeID == 0 { return; }
      if v.count > MAX_ENTRIES { return; }
      if flags % 2 == 1 {
        ReadSparse(v);
      } else if flags / 2 % 2 == 1 {
        ReadOffset16(v);
      } else {
        ReadDense(v);
      }
    }

    method ParsePackageChunk(chunk: seq<Byte>, global: Option<StringPool.Pool>)
      modifies this
      ensures values == Insert(old(values), PackageRecords(chunk, global))
    {
      hide TypeRecords, PackageRest, Insert;
      InsertNothing(values);
      if |chunk| < 12 { return; }
      var headerSize, packageID := Le16(chunk, 2), chunk[8];
      if headerSize < 12 || headerSize > |chunk| { return; }
      var pos := headerSize;
      while pos + 8 <= |chunk|
        invariant headerSize <= pos <= |chunk|
        invariant Insert(values, PackageRest(chunk[pos..], packageID, global))
               == Insert(old(values), PackageRest(chunk[headerSize..], packageID, global))
      {
        PackageStep(chunk, pos, packageID, global);
        var chunkHeader, chunkSize := Le16(chunk, pos + 2), Le32(chunk, pos + 4);
        if chunkHeader < 8 || chunkSize < chunkHeader || pos + chunkSize > |chunk| { break; }
        if Le16(chunk, pos) == CHUNK_TYPE {
          InsertAppend(values, TypeRecords(chunk[pos..pos + chunkSize], packageID, global),
                       PackageRest(chunk[pos + chunkSize..], packageID, global));
          ParseTypeChunk(chunk[pos..pos + chunkSize], packageID, global);
        }
        pos := pos + chunkSize;
      }
      if pos + 8 > |chunk| { PackageShort(chunk[pos..], packageID, global); }
      InsertNothing(values);
    }
  }

  lemma InsertNothing(m: map<U32, Str>)
    ensures Insert(m, []) == m
  {
  }

  lemma PackageShort(rest: seq<Byte>, packageID: Byte, global: Option<StringPool.Pool>)
    requires |rest| < 8
    ensures PackageRest(rest, packageID, global) == []
  {
  }

  lemma PackageNext(rest: seq<Byte>, packageID: Byte, global: Option<StringPool.Pool>)
    requires |rest| >= 8
    ensures PackageRest(rest, packageID, global)
         == if !Fits(rest) then []
            else if Le16(rest, 0) == CHUNK_TYPE then
              TypeRecords(rest[..Le32(rest, 4)], packageID, global) +
                  PackageRest(rest[Le32(rest, 4)..], packageID, global)
            else PackageRest(rest[Le32(rest, 4)..], packageID, global)
  {
    hide TypeRecords;
  }

  lemma PackageStep(chunk: seq<Byte>, pos: nat, packageID: Byte, global: Option<StringPool.Pool>)
    requires pos + 8 <= |chunk|
    ensures var kind, header, size := Le16(chunk, pos), Le16(chunk, pos + 2), Le32(chunk, pos + 4);
            PackageRest(chunk[pos..], packageID, global)
            == if header < 8 || size < header || pos + size > |chunk| then []
               else if kind == CHUNK_TYPE then
                 TypeRecords(chunk[pos..pos + size], packageID, global) +
                     PackageRest(chunk[pos + size..], packageID, global)
               else PackageRest(chunk[pos + size..], packageID, global)
  {
    hide TypeRecords, PackageRest, Le16, Le32;
    var rest := chunk[pos..|chunk|];
    assert rest == chunk[pos..];
    HeaderAt(chunk, pos, |chunk|);
    PackageNext(rest, packageID, global);
    if Fits(rest) { RestSlices(chunk, pos, Le32(chunk, pos + 4)); }
  }

  lemma RestSlices(chunk: seq<Byte>, pos: nat, size: nat)
    requires pos + size <= |chunk|
    ensures chunk[pos..][..size] == chunk[pos..pos + size] && chunk[pos..][size..] == chunk[pos + size..]
  {
  }

  lemma TableStep(utf16: StringPool.Utf16Decoder, data: seq<Byte>, pos: nat, end: nat, global: Option<StringPool.Pool>)
    requires pos + 8 <= end <= |data|
    ensures var kind, header, size := Le16(data, pos), Le16(data, pos + 2), Le32(data, pos + 4);
            var reading := TableRest(utf16, data[pos..end], global);
            if header < 8 || size < header || pos + size > end then reading == Reading([], Some(InvalidChunk))
            else
              var chunk := data[pos..pos + size];
              var pool := if kind == StringPool.POOL_CHUNK then StringPool.Parse(utf16, chunk)
                          else Err(StringPool.ChunkTooSmall);
              var tail := TableRest(utf16, data[pos + size..end], if pool.Ok? then Some(pool.value) else global);
              && reading.error == tail.error
              && reading.records == if kind == CHUNK_PACKAGE then PackageRecords(chunk, global) + tail.records
                                    else tail.records
  {
    hide PackageRecords, StringPool.Parse;
    HeaderAt(data, pos, end);
    var rest, size := data[pos..end], Le32(data, pos + 4);
    if Fits(rest) {
      assert rest[..size] == data[pos..pos + size] && rest[size..] == data[pos + size..end];
    }
  }

  lemma TableShort(utf16: StringPool.Utf16Decoder, rest: seq<Byte>, global: Option<StringPool.Pool>)
    requires |rest| < 8
    ensures TableRest(utf16, rest, global) == Reading([], None)
  {
  }

  /** For every byte string, the map holds the first record of each id the file contains. */
  method ParseResourceTable(utf16: StringPool.Utf16Decoder, data: seq<Byte>)
    returns (table: ResourceTable?, error: Option<Error>)
    ensures error == Read(utf16, data).error
    ensures table == null <==> error == Some(NotATable) || error == Some(BadHeaderSize)
    ensures table != null ==> fresh(table) && table.values == Insert(map[], Read(utf16, data).records)
  {
    hide TableRest, PackageRecords, Insert;
    if |data| < 12 || Le16(data, 0) != CHUNK_TABLE { return null, Some(NotATable); }
    var headerSize, tableSize := Le16(data, 2), Le32(data, 4);
    if headerSize < 12 || headerSize > |data| { return null, Some(BadHeaderSize); }
    if tableSize > |data| { tableSize := |data|; }

    table := new ResourceTable();
    error := None;
    var global: Option<StringPool.Pool> := None;
    ghost var whole := Read(utf16, data);
    if headerSize > tableSize { InsertNothing(table.values); return; }
    var pos := headerSize;
    while pos + 8 <= tableSize
      invariant headerSize <= pos <= tableSize <= |data| && fresh(table) && error == None
      invariant TableRest(utf16, data[pos..tableSize], global).error == whole.error
      invariant Insert(table.values, TableRest(utf16, data[pos..tableSize], global).records) ==
                Insert(map[], whole.records)
    {
      TableStep(utf16, data, pos, tableSize, global);
      var chunkType, chunkHeader, chunkSize := Le16(data, pos), Le16(data, pos + 2), Le32(data, pos + 4);
      if chunkHeader < 8 || chunkSize < chunkHeader || pos + chunkSize > tableSize {
        InsertNothing(table.values);
        error := Some(InvalidChunk);
        return;
      }
      var chunk := data[pos..pos + chunkSize];
      if chunkType == StringPool.POOL_CHUNK {
        var pool := StringPool.ParseStringPool(utf16, chunk);
        if pool.Ok? { global := Some(pool.value); }
      } else if chunkType == CHUNK_PACKAGE {
        InsertAppend(table.values, PackageRecords(chunk, global),
            TableRest(utf16, data[pos + chunkSize..tableSize], global).records);
        table.ParsePackageChunk(chunk, global);
      }
      pos := pos + chunkSize;
    }
    TableShort(utf16, data[pos..tableSize], global);
    InsertNothing(table.values);
  }
}
