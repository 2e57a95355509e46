/** The three encodings of a type's entry table, and whole resource tables written with any mix of them. */
module ArscEncoder {
  import opened Arsc
  import opened Bytes
  import opened Chunks
  import StringPool

  // ---- abstract tables ----

  /** Where an entry sits in the entry data, if the resource has one. */
  datatype Slot = Absent | At(offset: nat)

  datatype TypeTable = TypeTable(id: Byte, slots: seq<Slot>, body: seq<Byte>)

  /** What every encoding can express: 16-bit indices, and offsets that are multiples of 4 below 0xffff * 4. */
  predicate Valid(t: TypeTable) {
    && t.id != 0 && |t.slots| <= 0x1_0000
    && forall i :: 0 <= i < |t.slots| && t.slots[i].At? ==> t.slots[i].offset % 4 == 0 && t.slots[i].offset < 0xffff * 4
  }

  function SlotRecord(t: TypeTable, packageID: Byte, global: Option<StringPool.Pool>, i: nat): seq<Record>
    requires Valid(t) && i < |t.slots|
  {
    if t.slots[i].Absent? then []
    else
      var value := EntryValue(t.body, t.slots[i].offset, global);
      if value == [] then [] else [Record(ResourceId(packageID, t.id, i), value)]
  }

  /** The records of a table, read off the slots and the entry data. */
  function SlotRecords(t: TypeTable, packageID: Byte, global: Option<StringPool.Pool>, i: nat): seq<Record>
    requires Valid(t) && i <= |t.slots|
    decreases |t.slots| - i
  {
    if i == |t.slots| then []
    else SlotRecord(t, packageID, global, i) + SlotRecords(t, packageID, global, i + 1)
  }

  // ---- the encodings ----

  datatype Form = Dense | Offset16 | Sparse

  /** The form, the configuration bytes of the header, and padding before the entry data. */
  datatype Layout = Layout(form: Form, config: seq<Byte>, gap: seq<Byte>)

  function DenseWords(t: TypeTable): (ws: seq<U32>)
    requires Valid(t)
    ensures |ws| == |t.slots|
  {
    seq(|t.slots|, i requires 0 <= i < |t.slots| => if t.slots[i].Absent? then 0xffff_ffff else t.slots[i].offset)
  }

  function OffsetWords(t: TypeTable): (ws: seq<U16>)
    requires Valid(t)
    ensures |ws| == |t.slots|
  {
    seq(|t.slots|, i requires 0 <= i < |t.slots| => if t.slots[i].Absent? then 0xffff else t.slots[i].offset / 4)
  }

  /** Index and offset of each present slot from i on. */
  function SparseWords(t: TypeTable, i: nat): (ws: seq<U16>)
    requires Valid(t) && i <= |t.slots|
    ensures |ws| % 2 == 0 && |ws| / 2 <= |t.slots| - i
    decreases |t.slots| - i
  {
    if i == |t.slots| then []
    else if t.slots[i].Absent? then SparseWords(t, i + 1)
    else [i, t.slots[i].offset / 4] + SparseWords(t, i + 1)
  }

  function TableBytes(form: Form, t: TypeTable): seq<Byte>
    requires Valid(t)
  {
    match form
    case Dense => Words32(DenseWords(t))
    case Offset16 => Words16(OffsetWords(t))
    case Sparse => Words16(SparseWords(t, 0))
  }

  function Flags(form: Form): Byte {
    match form
    case Dense => 0
    case Offset16 => 2
    case Sparse => 1
  }

  function Count(form: Form, t: TypeTable): (n: U32)
    requires Valid(t)
    ensures n <= MAX_ENTRIES
  {
    if form.Sparse? then |SparseWords(t, 0)| / 2 else |t.slots|
  }

  function EntriesStart(layout: Layout, t: TypeTable): nat
    requires Valid(t)
  {
    20 + |layout.config| + |TableBytes(layout.form, t)| + |layout.gap|
  }

  predicate TypeFits(layout: Layout, t: TypeTable) {
    Valid(t) && 20 + |layout.config| < 0x1_0000 && EntriesStart(layout, t) + |t.body| < 0x1_0000_0000
  }

  function TypeHeader(id: Byte, flags: Byte, count: U32, start: U32): (r: seq<Byte>)
    ensures |r| == 12 && r[0] == id && r[1] == flags && Le32(r, 4) == count && Le32(r, 8) == start
  {
    var a, b, c := [id, flags, 0, 0], Put32(count), Put32(start);
    var r := a + b + c;
    assert r[4..8] == b && r[8..12] == c;
    Le32Slice(r, 4, 8, 0);
    Le32Slice(r, 8, 12, 0);
    r
  }

  function EncodeType(layout: Layout, t: TypeTable): (r: seq<Byte>)
    requires TypeFits(layout, t)
    ensures WellFormed(r) && Le16(r, 0) == CHUNK_TYPE
  {
    Chunk(CHUNK_TYPE, 20 + |layout.config|,
          TypeHeader(t.id, Flags(layout.form), Count(layout.form, t), EntriesStart(layout, t))
          + layout.config + (TableBytes(layout.form, t) + (layout.gap + t.body)))
  }

  function View(layout: Layout, t: TypeTable, packageID: Byte, global: Option<StringPool.Pool>): TypeView
    requires TypeFits(layout, t)
  {
    TypeView(EncodeType(layout, t), 20 + |layout.config|, EntriesStart(layout, t), Count(layout.form, t),
             packageID, t.id, global)
  }

  /** What the decoder sees in an encoded type chunk. */
  predicate Shows(v: TypeView, form: Form, t: TypeTable)
    requires Valid(t)
  {
    var table := TableBytes(form, t);
    && |v.chunk| < 0x1_0000_0000
    && v.typeID == t.id && v.count == Count(form, t)
    && v.headerSize + |table| <= v.entriesStart <= |v.chunk|
    && v.chunk[v.headerSize..v.headerSize + |table|] == table
    && v.chunk[v.entriesStart..] == t.body
  }

  lemma EncodeShows(layout: Layout, t: TypeTable, packageID: Byte, global: Option<StringPool.Pool>)
    requires TypeFits(layout, t)
    ensures Shows(View(layout, t, packageID, global), layout.form, t)
  {
    hide TableBytes, TypeHeader, Put16, Put32, Count, Flags, Valid;
    var chunk := EncodeType(layout, t);
    var table, start, h := TableBytes(layout.form, t), EntriesStart(layout, t), 20 + |layout.config|;
    var header := TypeHeader(t.id, Flags(layout.form), Count(layout.form, t), start);
    var rest := layout.gap + t.body;
    Split3(header + layout.config, table, rest);
    assert chunk[8..] == header + layout.config + (table + rest) == header + layout.config + table + rest;
    assert chunk[h..h + |table|] == chunk[8..][h - 8..h - 8 + |table|];
    assert chunk[start..] == chunk[8..][start - 8..] == rest[|layout.gap|..];
  }

  lemma EncodeHeader(layout: Layout, t: TypeTable)
    requires TypeFits(layout, t)
    ensures var chunk := EncodeType(layout, t);
            && |chunk| >= 20 && Le16(chunk, 2) == 20 + |layout.config| && chunk[8] == t.id &&
                chunk[9] == Flags(layout.form)
            && Le32(chunk, 12) == Count(layout.form, t) && Le32(chunk, 16) == EntriesStart(layout, t)
  {
    hide TableBytes, TypeHeader, Put16, Put32, Count, Flags, Valid, EntriesStart;
    var chunk := EncodeType(layout, t);
    var header := TypeHeader(t.id, Flags(layout.form), Count(layout.form, t), EntriesStart(layout, t));
    assert chunk[8..20] == chunk[8..][..12] == header;
    assert chunk[8] == header[0] && chunk[9] == header[1];
    Le32Slice(chunk, 8, 20, 4);
    Le32Slice(chunk, 8, 20, 8);
  }

  lemma EntryShift(chunk: seq<Byte>, start: nat, body: seq<Byte>, off: nat, global: Option<StringPool.Pool>)
    requires start <= |chunk| && chunk[start..] == body
    ensures EntryValue(chunk, start + off, global) == EntryValue(body, off, global)
  {
    hide Typed;
    if off + 8 <= |body| {
      Le16Slice(chunk, start, |chunk|, off);
      Le16Slice(chunk, start, |chunk|, off + 2);
      assert chunk[start..|chunk|] == body;
      var valuePos := off + Le16(body, off);
      if valuePos + 8 <= |body| {
        Le32Slice(chunk, start, |chunk|, valuePos + 4);
      }
    }
  }

  lemma PresentRecord(v: TypeView, form: Form, t: TypeTable, i: nat)
    requires Valid(t) && Shows(v, form, t) && i < |t.slots| && t.slots[i].At?
    ensures RecordAt(v, t.slots[i].offset, i) == SlotRecord(t, v.packageID, v.global, i)
  {
    hide EntryValue, ResourceId, TableBytes;
    EntryShift(v.chunk, v.entriesStart, t.body, t.slots[i].offset, v.global);
  }

  lemma DenseEntry(v: TypeView, t: TypeTable, i: nat)
    requires Valid(t) && Shows(v, Dense, t) && i < |t.slots|
    ensures var off := v.headerSize + 4 * i;
            off + 4 <= |v.chunk| && RecordAt(v, Le32(v.chunk, off), i) == SlotRecord(t, v.packageID, v.global, i)
  {
    hide Words32, RecordAt, SlotRecord;
    Word32In(v.chunk, v.headerSize, DenseWords(t), i);
    if t.slots[i].At? {
      PresentRecord(v, Dense, t, i);
    } else {
      AbsentRecord(v, t, i);
    }
  }

  lemma {:induction false} DenseReads(v: TypeView, t: TypeTable, i: nat)
    requires Valid(t) && Shows(v, Dense, t) && i <= |t.slots| == v.count
    ensures DenseFrom(v, i) == SlotRecords(t, v.packageID, v.global, i)
    decreases |t.slots| - i
  {
    hide Shows, Valid, RecordAt, SlotRecord;
    if i < |t.slots| {
      DenseEntry(v, t, i);
      DenseReads(v, t, i + 1);
    }
  }

  /** An absent dense entry points 0xffffffff bytes past the entries, which no chunk reaches. */
  lemma AbsentRecord(v: TypeView, t: TypeTable, i: nat)
    requires Valid(t) && |v.chunk| < 0x1_0000_0000 && i < |t.slots| && t.slots[i].Absent?
    ensures RecordAt(v, 0xffff_ffff, i) == SlotRecord(t, v.packageID, v.global, i) == []
  {
  }

  lemma Offset16Entry(v: TypeView, t: TypeTable, i: nat)
    requires Valid(t) && Shows(v, Offset16, t) && i < |t.slots|
    ensures var off := v.headerSize + 2 * i;
            && off + 2 <= |v.chunk|
            && (Le16(v.chunk, off) == 0xffff <==> t.slots[i].Absent?)
            && (t.slots[i].At? ==> RecordAt(v, Le16(v.chunk, off) * 4, i) == SlotRecord(t, v.packageID, v.global, i))
  {
    hide Words16, RecordAt, SlotRecord;
    Word16In(v.chunk, v.headerSize, OffsetWords(t), i);
    if t.slots[i].At? {
      PresentRecord(v, Offset16, t, i);
      assert t.slots[i].offset / 4 * 4 == t.slots[i].offset;
    }
  }

  lemma {:induction false} Offset16Reads(v: TypeView, t: TypeTable, i: nat)
    requires Valid(t) && Shows(v, Offset16, t) && i <= |t.slots| == v.count
    ensures Offset16From(v, i) == SlotRecords(t, v.packageID, v.global, i)
    decreases |t.slots| - i
  {
    hide Shows, Valid, RecordAt;
    if i < |t.slots| {
      Offset16Entry(v, t, i);
      Offset16Reads(v, t, i + 1);
    }
  }

  /** Pair number k of a sparse table. */
  lemma SparsePair(v: TypeView, t: TypeTable, i: nat, k: nat)
    requires Valid(t) && Shows(v, Sparse, t) && i < |t.slots| && t.slots[i].At? && 2 * k <= |SparseWords(t, 0)|
    requires SparseWords(t, 0)[2 * k..] == SparseWords(t, i)
    ensures var off := v.headerSize + 4 * k;
            && k < v.count && off + 4 <= |v.chunk|
            && Le16(v.chunk, off) == i && Le16(v.chunk, off + 2) * 4 == t.slots[i].offset
            && SparseWords(t, 0)[2 * (k + 1)..] == SparseWords(t, i + 1)
  {
    hide Words16;
    var ws := SparseWords(t, 0);
    assert ws[2 * k] == ws[2 * k..][0] == i && ws[2 * k + 1] == ws[2 * k..][1] == t.slots[i].offset / 4;
    Word16In(v.chunk, v.headerSize, ws, 2 * k);
    Word16In(v.chunk, v.headerSize, ws, 2 * k + 1);
    assert ws[2 * (k + 1)..] == ws[2 * k..][2..];
  }

  lemma {:induction false} SparseReads(v: TypeView, t: TypeTable, i: nat, k: nat)
    requires Valid(t) && Shows(v, Sparse, t) && i <= |t.slots| && 2 * k <= |SparseWords(t, 0)|
    requires SparseWords(t, 0)[2 * k..] == SparseWords(t, i)
    ensures k <= v.count && SparseFrom(v, k) == SlotRecords(t, v.packageID, v.global, i)
    decreases |t.slots| - i
  {
    hide TableBytes, RecordAt, SlotRecord;
    if i == |t.slots| {
      assert k == v.count;
    } else if t.slots[i].Absent? {
      SparseReads(v, t, i + 1, k);
      assert SlotRecord(t, v.packageID, v.global, i) == [] by { AbsentRecord(v, t, i); }
    } else {
      SparsePair(v, t, i, k);
      PresentRecord(v, Sparse, t, i);
      SparseReads(v, t, i + 1, k + 1);
    }
  }

  /** All three encodings of a type table yield the records of its slots. */
  lemma TypeReadBack(layout: Layout, t: TypeTable, packageID: Byte, global: Option<StringPool.Pool>)
    requires TypeFits(layout, t)
    ensures TypeRecords(EncodeType(layout, t), packageID, global) == SlotRecords(t, packageID, global, 0)
  {
    hide Shows, EncodeType, SparseFrom, Offset16From, DenseFrom, SlotRecords, EntriesStart;
    var v := View(layout, t, packageID, global);
    EncodeHeader(layout, t);
    EncodeShows(layout, t, packageID, global);
    match layout.form
    case Dense => DenseReads(v, t, 0);
    case Offset16 => Offset16Reads(v, t, 0);
    case Sparse => SparseReads(v, t, 0, 0);
  }

  /** A simple entry: entry header and key, then its typed value. */
  function Entry(key: U32, dataType: Byte, data: U32): (r: seq<Byte>)
    ensures |r| == 16
  {
    Put16(8) + Put16(0) + Put32(key) + (Put16(8) + [0, dataType] + Put32(data))
  }

  /** A simple entry anywhere in the entry data is read as its typed value. */
  lemma EntryReadBack(pre: seq<Byte>, key: U32, dataType: Byte, data: U32, post: seq<Byte>,
      global: Option<StringPool.Pool>)
    ensures EntryValue(pre + Entry(key, dataType, data) + post, |pre|, global) == Typed(global, dataType, data)
  {
    hide Typed, Put16, Put32;
    var e, s, at := Entry(key, dataType, data), pre + Entry(key, dataType, data) + post, |pre|;
    Split3(pre, e, post);
    assert e[0..2] == Put16(8) && e[2..4] == Put16(0) && e[12..16] == Put32(data) && e[11] == dataType;
    Le16Slice(e, 0, 2, 0);
    Le16Slice(e, 2, 4, 0);
    Le32Slice(e, 12, 16, 0);
    Le16Slice(s, at, at + 16, 0);
    Le16Slice(s, at, at + 16, 2);
    Le32Slice(s, at, at + 16, 12);
    assert s[at + 11] == s[at..at + 16][11];
  }

  // ---- whole files ----

  datatype Package = Package(id: Byte, tables: seq<TypeTable>)

  /** How a package is written: one layout per type table, and extra header bytes. */
  datatype PackageForm = PackageForm(layouts: seq<Layout>, extra: seq<Byte>)

  predicate TablesFit(layouts: seq<Layout>, tables: seq<TypeTable>) {
    |layouts| == |tables| && forall i :: 0 <= i < |tables| ==> TypeFits(layouts[i], tables[i])
  }

  function TypeChunks(layouts: seq<Layout>, tables: seq<TypeTable>): seq<Byte>
    requires TablesFit(layouts, tables)
  {
    if tables == [] then [] else EncodeType(layouts[0], tables[0]) + TypeChunks(layouts[1..], tables[1..])
  }

  predicate PackageFits(form: PackageForm, p: Package) {
    && TablesFit(form.layouts, p.tables)
    && 12 + |form.extra| < 0x1_0000
    && 12 + |form.extra| + |TypeChunks(form.layouts, p.tables)| < 0x1_0000_0000
  }

  function EncodePackage(form: PackageForm, p: Package): (r: seq<Byte>)
    requires PackageFits(form, p)
    ensures WellFormed(r) && Le16(r, 0) == CHUNK_PACKAGE
  {
    Chunk(CHUNK_PACKAGE, 12 + |form.extra|, [p.id, 0, 0, 0] + form.extra + TypeChunks(form.layouts, p.tables))
  }

  function TablesRecords(tables: seq<TypeTable>, id: Byte, global: Option<StringPool.Pool>): seq<Record>
    requires forall t :: t in tables ==> Valid(t)
  {
    if tables == [] then [] else SlotRecords(tables[0], id, global, 0) + TablesRecords(tables[1..], id, global)
  }

  lemma {:induction false} TypesReadBack(layouts: seq<Layout>, tables: seq<TypeTable>, id: Byte,
      global: Option<StringPool.Pool>)
    requires TablesFit(layouts, tables)
    ensures PackageRest(TypeChunks(layouts, tables), id, global) == TablesRecords(tables, id, global)
    decreases |tables|
  {
    hide Valid, EntriesStart, EncodeType, TypeRecords, SlotRecords;
    if tables != [] {
      assert TypeFits(layouts[0], tables[0]);
      var rest := TypeChunks(layouts[1..], tables[1..]);
      ChunkThenRest(EncodeType(layouts[0], tables[0]), rest);
      assert Le16(EncodeType(layouts[0], tables[0]) + rest, 0) == CHUNK_TYPE;
      TypeReadBack(layouts[0], tables[0], id, global);
      TypesReadBack(layouts[1..], tables[1..], id, global);
    }
  }

  lemma PackageReadBack(form: PackageForm, p: Package, global: Option<StringPool.Pool>)
    requires PackageFits(form, p)
    ensures PackageRecords(EncodePackage(form, p), global) == TablesRecords(p.tables, p.id, global)
  {
    hide PackageRest, TypeChunks, TypeFits;
    var chunk, types := EncodePackage(form, p), TypeChunks(form.layouts, p.tables);
    assert chunk[8..] == [p.id, 0, 0, 0] + form.extra + types;
    assert chunk[8] == chunk[8..][0] == p.id;
    assert chunk[12 + |form.extra|..] == chunk[8..][4 + |form.extra|..] == types;
    TypesReadBack(form.layouts, p.tables, p.id, global);
  }

  predicate PackagesFit(forms: seq<PackageForm>, packages: seq<Package>) {
    |forms| == |packages| && forall i :: 0 <= i < |packages| ==> PackageFits(forms[i], packages[i])
  }

  function PackageChunks(forms: seq<PackageForm>, packages: seq<Package>): seq<Byte>
    requires PackagesFit(forms, packages)
  {
    if packages == [] then [] else EncodePackage(forms[0], packages[0]) + PackageChunks(forms[1..], packages[1..])
  }

  /** The records of the packages: nothing here depends on how they are written. */
  function AllRecords(packages: seq<Package>, global: Option<StringPool.Pool>): seq<Record>
    requires forall p, t :: p in packages && t in p.tables ==> Valid(t)
  {
    if packages == [] then []
    else TablesRecords(packages[0].tables, packages[0].id, global) + AllRecords(packages[1..], global)
  }

  lemma FittingTablesAreValid(forms: seq<PackageForm>, packages: seq<Package>)
    requires PackagesFit(forms, packages)
    ensures forall p, t :: p in packages && t in p.tables ==> Valid(t)
  {
  }

  lemma {:induction false} PackagesReadBack(utf16: StringPool.Utf16Decoder, forms: seq<PackageForm>,
      packages: seq<Package>, global: Option<StringPool.Pool>)
    requires PackagesFit(forms, packages)
    requires forall p, t :: p in packages && t in p.tables ==> Valid(t)
    ensures TableRest(utf16, PackageChunks(forms, packages), global) == Reading(AllRecords(packages, global), None)
    decreases |packages|
  {
    hide PackageFits, EncodePackage, PackageRecords, TablesRecords, Valid;
    if packages != [] {
      var chunk, rest := EncodePackage(forms[0], packages[0]), PackageChunks(forms[1..], packages[1..]);
      ChunkThenRest(chunk, rest);
      assert Le16(chunk + rest, 0) == CHUNK_PACKAGE;
      PackageReadBack(forms[0], packages[0], global);
      PackagesReadBack(utf16, forms[1..], packages[1..], global);
    }
  }

  /** A resource table file. */
  datatype FileForm = FileForm(pool: StringPool.Layout, packages: seq<PackageForm>)

  function FileSize(utf16: StringPool.Utf16Decoder, form: FileForm, strings: StringPool.Pool,
      packages: seq<Package>): nat
    requires StringPool.Encodable(form.pool, utf16, strings) && PackagesFit(form.packages, packages)
  {
    12 + |StringPool.Encode(form.pool, utf16, strings)| + |PackageChunks(form.packages, packages)|
  }

  predicate FileFits(utf16: StringPool.Utf16Decoder, form: FileForm, strings: StringPool.Pool, packages: seq<Package>) {
    && StringPool.Encodable(form.pool, utf16, strings) && PackagesFit(form.packages, packages)
    && FileSize(utf16, form, strings, packages) < 0x1_0000_0000
  }

  function FileHeader(size: U32, count: nat): (r: seq<Byte>)
    ensures |r| == 12 && Le16(r, 0) == CHUNK_TABLE && Le16(r, 2) == 12 && Le32(r, 4) == size
  {
    var r := Put16(CHUNK_TABLE) + Put16(12) + Put32(size) + Put32(count % 0x1_0000_0000);
    assert r[0..2] == Put16(CHUNK_TABLE) && r[2..4] == Put16(12) && r[4..8] == Put32(size);
    Le16Slice(r, 0, 2, 0);
    Le16Slice(r, 2, 4, 0);
    Le32Slice(r, 4, 8, 0);
    r
  }

  function EncodeFile(utf16: StringPool.Utf16Decoder, form: FileForm, strings: StringPool.Pool,
      packages: seq<Package>): seq<Byte>
    requires FileFits(utf16, form, strings, packages)
  {
    FileHeader(FileSize(utf16, form, strings, packages), |packages|)
    + (StringPool.Encode(form.pool, utf16, strings) + PackageChunks(form.packages, packages))
  }

  /** Reading a written file yields the records of its packages under its pool. */
  lemma FileReadBack(utf16: StringPool.Utf16Decoder, form: FileForm, strings: StringPool.Pool, packages: seq<Package>)
    requires FileFits(utf16, form, strings, packages)
    ensures forall p, t :: p in packages && t in p.tables ==> Valid(t)
    ensures Read(utf16, EncodeFile(utf16, form, strings, packages)) ==
            Reading(AllRecords(packages, Some(strings)), None)
  {
    FittingTablesAreValid(form.packages, packages);
    FileSteps(utf16, form, strings, packages);
    PackagesReadBack(utf16, form.packages, packages, Some(strings));
  }

  lemma FileSteps(utf16: StringPool.Utf16Decoder, form: FileForm, strings: StringPool.Pool, packages: seq<Package>)
    requires FileFits(utf16, form, strings, packages)
    ensures Read(utf16, EncodeFile(utf16, form, strings, packages))
         == TableRest(utf16, PackageChunks(form.packages, packages), Some(strings))
  {
    hide StringPool.Encode, StringPool.Encodable, StringPool.Parse, FileHeader, PackagesFit, PackageChunks, TableRest;
    var data := EncodeFile(utf16, form, strings, packages);
    var pool, chunks := StringPool.Encode(form.pool, utf16, strings), PackageChunks(form.packages, packages);
    assert data[0..12] == FileHeader(|data|, |packages|) && data[12..] == pool + chunks;
    Le16Slice(data, 0, 12, 0);
    Le16Slice(data, 0, 12, 2);
    Le32Slice(data, 0, 12, 4);
    assert data[12..|data|] == pool + chunks;
    StringPool.ParseUndoesEncode(form.pool, utf16, strings);
    TablePool(utf16, pool, chunks);
  }

  lemma TablePool(utf16: StringPool.Utf16Decoder, pool: seq<Byte>, rest: seq<Byte>)
    requires WellFormed(pool) && Le16(pool, 0) == StringPool.POOL_CHUNK && StringPool.Parse(utf16, pool).Ok?
    ensures TableRest(utf16, pool + rest, None) == TableRest(utf16, rest, Some(StringPool.Parse(utf16, pool).value))
  {
    hide StringPool.Parse;
    ChunkThenRest(pool, rest);
    assert Le16(pool + rest, 0) == StringPool.POOL_CHUNK;
    var tail := TableRest(utf16, rest, Some(StringPool.Parse(utf16, pool).value));
    assert [] + tail.records == tail.records;
  }

  /** The same packages written in any two mixes of dense, 16-bit and sparse tables give the same map. */
  lemma EncodingsAgree(utf16: StringPool.Utf16Decoder, a: FileForm, b: FileForm, strings: StringPool.Pool,
      packages: seq<Package>)
    requires FileFits(utf16, a, strings, packages) && FileFits(utf16, b, strings, packages)
    ensures Insert(map[], Read(utf16, EncodeFile(utf16, a, strings, packages)).records)
         == Insert(map[], Read(utf16, EncodeFile(utf16, b, strings, packages)).records)
  {
    FileReadBack(utf16, a, strings, packages);
    FileReadBack(utf16, b, strings, packages);
  }
}
