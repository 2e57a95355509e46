/** Layouts of DEX files, and proofs that the readers of module Dex recover what was laid out. */
module DexEncoder {
  import opened Bytes
  import opened Dex

  /** A string with its declared length in UTF-16 units, which the readers skip. */
  datatype Item = Item(units: nat, text: Str)

  /** Strings, the string index of each type, and the type index of each class. */
  datatype File = File(items: seq<Item>, types: seq<U32>, classes: seq<U32>)

  /** ULEB128. */
  function Leb(n: nat): (r: seq<Byte>)
    ensures r != []
  {
    if n < 0x80 then [n] else [0x80 + n % 0x80] + Leb(n / 0x80)
  }

  lemma LebFits(n: nat)
    requires n < 0x8_0000_0000
    ensures |Leb(n)| <= 5
  {
    var n1 := n / 0x80;
    var n2 := n1 / 0x80;
    var n3 := n2 / 0x80;
    var n4 := n3 / 0x80;
    assert n4 < 0x80 && |Leb(n4)| == 1;
    assert |Leb(n3)| <= 2;
    assert |Leb(n2)| <= 3;
    assert |Leb(n1)| <= 4;
  }

  function ItemBytes(it: Item): seq<Byte> { Leb(it.units) + it.text + [0] }

  predicate NulFree(s: Str) { forall k :: 0 <= k < |s| ==> s[k] != 0 }

  predicate GoodItem(it: Item) { it.units < WORD && NulFree(it.text) }

  lemma {:induction false} LebSkipped(data: seq<Byte>, pos: nat, n: nat, left: nat)
    requires At(data, pos, Leb(n)) && |Leb(n)| <= left
    ensures SkipLength(data, pos, left) == Some(pos + |Leb(n)|)
    decreases n
  {
    var here := data[pos..pos + |Leb(n)|];
    assert data[pos] == here[0];
    if n >= 0x80 {
      assert data[pos + 1..pos + |Leb(n)|] == here[1..] == Leb(n / 0x80);
      LebSkipped(data, pos + 1, n / 0x80, left - 1);
    }
  }

  lemma {:induction false} NulFound(data: seq<Byte>, pos: nat, text: Str)
    requires NulFree(text) && At(data, pos, text + [0])
    ensures NulFrom(data, pos) == pos + |text|
    decreases |text|
  {
    var here := data[pos..pos + |text| + 1];
    assert data[pos] == here[0];
    if text != [] {
      assert data[pos + 1..pos + |text| + 1] == here[1..] == text[1..] + [0];
      NulFound(data, pos + 1, text[1..]);
    }
  }

  lemma StringReadBack(data: seq<Byte>, off: U32, it: Item)
    requires GoodItem(it) && At(data, off, ItemBytes(it))
    ensures StringAt(data, off) == Some(it.text)
  {
    hide SkipLength, NulFrom, Leb, NulFree;
    LebFits(it.units);
    var n := |Leb(it.units)|;
    ItemParts(data, off, Leb(it.units), it.text);
    LebSkipped(data, off, it.units, 5);
    NulFound(data, off + n, it.text);
  }

  lemma ItemParts(data: seq<Byte>, off: nat, length: seq<Byte>, text: Str)
    requires At(data, off, length + text + [0])
    ensures At(data, off, length) && At(data, off + |length|, text + [0]) && At(data, off + |length|, text)
  {
    assert length + text + [0] == length + (text + [0]);
    AtParts(data, off, length, text + [0]);
    AtParts(data, off + |length|, text, [0]);
  }

  // ---- layouts ----

  /** The buffer holds the file: tables wherever the header says, every string where its table entry says. */
  ghost predicate Lays(data: seq<Byte>, f: File) {
    && Buffer(data) && IsDex(data)
    && var h := Header(data);
       && TablesFit(data, h)
       && h.stringsSize == |f.items| && h.typesSize == |f.types| && h.classesSize == |f.classes|
       && (forall i :: 0 <= i < |f.items| ==> At(data, Le32(data, h.stringsOff + 4 * i), ItemBytes(f.items[i])))
       && (forall i :: 0 <= i < |f.types| ==> Le32(data, h.typesOff + 4 * i) == f.types[i])
       && (forall i :: 0 <= i < |f.classes| ==> Le32(data, h.classesOff + 32 * i) == f.classes[i])
  }

  predicate GoodItems(items: seq<Item>) { forall i :: 0 <= i < |items| ==> GoodItem(items[i]) }

  function Texts(items: seq<Item>): (r: seq<Str>)
    ensures |r| == |items|
  {
    seq(|items|, i requires 0 <= i < |items| => items[i].text)
  }

  /** The string pool read back: every string, in order. */
  lemma StringsReadBack(data: seq<Byte>, f: File)
    requires Lays(data, f) && GoodItems(f.items) && |f.items| <= MAX_STRINGS
    ensures Strings(data) == Ok(Texts(f.items))
  {
    hide StringAt, ItemBytes, GoodItem;
    var h := Header(data);
    if f.items != [] { StringsReadFrom(data, f, h, 0); }
  }

  lemma {:induction false} StringsReadFrom(data: seq<Byte>, f: File, h: Tables, i: nat)
    requires Lays(data, f) && GoodItems(f.items) && h == Header(data) && i <= |f.items|
    ensures StringsFrom(data, h.stringsSize, h.stringsOff, i) == Texts(f.items)[i..]
    decreases |f.items| - i
  {
    hide StringAt, ItemBytes, GoodItem, Le32, Header;
    if i < |f.items| {
      StringReadBack(data, Le32(data, h.stringsOff + 4 * i), f.items[i]);
      StringsReadFrom(data, f, h, i + 1);
    }
  }

  /** The descriptor a class leads to through the type and string tables; none if an index dangles. */
  function Descriptor(f: File, class_: U32): Option<Str> {
    if class_ < |f.types| && f.types[class_] < |f.items| then Some(f.items[f.types[class_]].text) else None
  }

  function Descriptors(f: File, i: nat): seq<Str>
    requires i <= |f.classes|
    decreases |f.classes| - i
  {
    if i == |f.classes| then []
    else
      var d := Descriptor(f, f.classes[i]);
      (if d.Some? then [d.value] else []) + Descriptors(f, i + 1)
  }

  /** The class names read back, dangling indices left out. */
  lemma ClassNamesReadBack(data: seq<Byte>, f: File)
    requires Lays(data, f) && GoodItems(f.items) && 0 < |f.classes| <= MAX_CLASSES
    ensures ClassNames(data) == Ok(Descriptors(f, 0))
  {
    hide NamesFrom, ItemBytes, GoodItem;
    NamesReadFrom(data, f, Header(data), 0);
  }

  lemma {:induction false} NamesReadFrom(data: seq<Byte>, f: File, h: Tables, i: nat)
    requires Lays(data, f) && GoodItems(f.items) && h == Header(data) && i <= |f.classes|
    ensures NamesFrom(data, h, i) == Descriptors(f, i)
    decreases |f.classes| - i
  {
    hide TypeName, ItemBytes, GoodItem, Le32, Header, Descriptor;
    if i < |f.classes| {
      NameReadBack(data, f, h, f.classes[i]);
      NamesReadFrom(data, f, h, i + 1);
    }
  }

  lemma NameReadBack(data: seq<Byte>, f: File, h: Tables, class_: U32)
    requires Lays(data, f) && GoodItems(f.items) && h == Header(data)
    ensures TypeName(data, h, class_) == Descriptor(f, class_)
  {
    hide StringAt, GoodItem, Le32, Header, Leb;
    if Descriptor(f, class_).Some? {
      var d := f.types[class_];
      var off := Le32(data, h.stringsOff + 4 * d);
      assert At(data, off, ItemBytes(f.items[d]));
      StringReadBack(data, off, f.items[d]);
    }
  }

  /** With no dangling index there is one name per class, each its own descriptor. */
  lemma {:induction false} EveryClassNamed(f: File, i: nat)
    requires i <= |f.classes| && forall k :: 0 <= k < |f.classes| ==> Descriptor(f, f.classes[k]).Some?
    ensures |Descriptors(f, i)| == |f.classes| - i
    ensures forall k :: i <= k < |f.classes| ==> Descriptors(f, i)[k - i] == Descriptor(f, f.classes[k]).value
    decreases |f.classes| - i
  {
    if i < |f.classes| { EveryClassNamed(f, i + 1); }
  }

  // ---- one encoder ----

  function Pieces(items: seq<Item>): (r: seq<seq<Byte>>)
    ensures |r| == |items|
  {
    seq(|items|, i requires 0 <= i < |items| => ItemBytes(items[i]))
  }

  /** A class definition: the type index and seven words the readers ignore. */
  function ClassDefs(classes: seq<U32>): (r: seq<Byte>)
    ensures |r| == 32 * |classes|
  {
    if classes == [] then [] else Words32([classes[0], 0, 0, 0, 0, 0, 0, 0]) + ClassDefs(classes[1..])
  }

  lemma {:induction false} ClassDefAt(classes: seq<U32>, i: nat)
    requires i < |classes|
    ensures Le32(ClassDefs(classes), 32 * i) == classes[i]
  {
    var def := [classes[0], 0, 0, 0, 0, 0, 0, 0];
    var r, tail := ClassDefs(classes), ClassDefs(classes[1..]);
    assert r == Words32(def) + tail && |Words32(def)| == 32;
    hide *;
    if i == 0 {
      Words32At(def, 0);
      assert r[0..32] == Words32(def);
      Le32Slice(r, 0, 32, 0);
    } else {
      ClassDefAt(classes[1..], i - 1);
      assert r[32..|r|] == tail;
      Le32Slice(r, 32, |r|, 32 * (i - 1));
    }
  }

  function StringBase(f: File): nat { 0x70 + 4 * |f.items| }

  function TypesOff(f: File): nat { StringBase(f) + |Flatten(Pieces(f.items))| }

  function Length(f: File): nat { TypesOff(f) + 4 * |f.types| + 32 * |f.classes| }

  /** Offset of string i. */
  function OffsetOf(f: File, i: nat): U32
    requires Length(f) < WORD && i < |f.items|
  {
    FlattenAt(Pieces(f.items), i);
    StringBase(f) + Offset(Pieces(f.items), i)
  }

  function Offsets(f: File): (r: seq<U32>)
    requires Length(f) < WORD
    ensures |r| == |f.items|
  {
    seq(|f.items|, i requires 0 <= i < |f.items| => OffsetOf(f, i))
  }

  /** The header behind its magic: 27 words, six of which matter. */
  function HeaderWords(f: File): (r: seq<U32>)
    requires Length(f) < WORD
    ensures |r| == 27
  {
    seq(27, i => if i == 13 then |f.items| else if i == 14 then 0x70
                 else if i == 15 then |f.types| else if i == 16 then TypesOff(f)
                 else if i == 23 then |f.classes| else if i == 24 then TypesOff(f) + 4 * |f.types| else 0)
  }

  function Encode(f: File): (r: seq<Byte>)
    requires Length(f) < WORD
    ensures |r| == Length(f)
  {
    hide Words32;
    MAGIC + Words32(HeaderWords(f)) + Words32(Offsets(f)) + Flatten(Pieces(f.items)) + Words32(f.types) +
        ClassDefs(f.classes)
  }

  /** Six parts in a row, by position. */
  lemma Split6<T>(a: seq<T>, b: seq<T>, c: seq<T>, d: seq<T>, e: seq<T>, g: seq<T>)
    ensures var s := a + b + c + d + e + g;
            var n1 := |a| + |b|;
            var n2 := n1 + |c|;
            var n3 := n2 + |d|;
            var n4 := n3 + |e|;
            && s[..|a|] == a && s[|a|..n1] == b && s[n1..n2] == c && s[n2..n3] == d && s[n3..n4] == e && s[n4..] == g
  {
  }

  /** Where the encoder puts things. */
  lemma Parts(f: File)
    requires Length(f) < WORD
    ensures var r := Encode(f);
            && IsDex(r) && r[4..0x70] == Words32(HeaderWords(f))
            && r[0x70..StringBase(f)] == Words32(Offsets(f))
            && r[StringBase(f)..TypesOff(f)] == Flatten(Pieces(f.items))
            && r[TypesOff(f)..TypesOff(f) + 4 * |f.types|] == Words32(f.types)
            && r[TypesOff(f) + 4 * |f.types|..] == ClassDefs(f.classes)
  {
    hide Words32, HeaderWords, Offsets, Pieces, Flatten, ClassDefs;
    Split6(MAGIC, Words32(HeaderWords(f)), Words32(Offsets(f)), Flatten(Pieces(f.items)), Words32(f.types),
        ClassDefs(f.classes));
  }

  lemma HeaderRead(f: File)
    requires Length(f) < WORD
    ensures var r := Encode(f);
            IsDex(r) && Header(r) ==
                Tables(|f.items|, 0x70, |f.types|, TypesOff(f), |f.classes|, TypesOff(f) + 4 * |f.types|)
  {
    Parts(f);
    var r, ws := Encode(f), HeaderWords(f);
    assert ws[13] == |f.items| && ws[14] == 0x70 && ws[15] == |f.types| && ws[16] == TypesOff(f) &&
           ws[23] == |f.classes|
           && ws[24] == TypesOff(f) + 4 * |f.types|;
    hide Words32, HeaderWords, Encode, Le32, TypesOff, Length, StringBase;
    Word32In(r, 4, ws, 13);
    Word32In(r, 4, ws, 14);
    Word32In(r, 4, ws, 15);
    Word32In(r, 4, ws, 16);
    Word32In(r, 4, ws, 23);
    Word32In(r, 4, ws, 24);
  }

  /** A piece of a flattened list inside a buffer. */
  lemma PieceAt(data: seq<Byte>, lo: nat, hi: nat, pieces: seq<seq<Byte>>, i: nat)
    requires lo <= hi <= |data| && data[lo..hi] == Flatten(pieces) && i < |pieces|
    ensures At(data, lo + Offset(pieces, i), pieces[i])
  {
    hide Flatten, Offset;
    FlattenAt(pieces, i);
    CutTwice(data, lo, hi, Offset(pieces, i), |pieces[i]|);
  }

  lemma CutTwice<T>(s: seq<T>, lo: nat, hi: nat, at: nat, n: nat)
    requires lo + at + n <= hi <= |s|
    ensures s[lo..hi][at..][..n] == s[lo + at..lo + at + n]
  {
  }

  lemma ItemPlaced(f: File, i: nat)
    requires Length(f) < WORD && i < |f.items|
    ensures At(Encode(f), Le32(Encode(f), 0x70 + 4 * i), ItemBytes(f.items[i]))
  {
    var r, pieces := Encode(f), Pieces(f.items);
    assert pieces[i] == ItemBytes(f.items[i]);
    var base, end := StringBase(f), TypesOff(f);
    assert base <= end <= |r|;
    hide *;
    OffsetRead(f, i);
    StringsPart(f);
    PieceAt(r, base, end, pieces, i);
  }

  lemma StringsPart(f: File)
    requires Length(f) < WORD
    ensures StringBase(f) <= TypesOff(f) <= |Encode(f)| &&
            Encode(f)[StringBase(f)..TypesOff(f)] == Flatten(Pieces(f.items))
  {
    Parts(f);
  }

  lemma OffsetRead(f: File, i: nat)
    requires Length(f) < WORD && i < |f.items|
    ensures Le32(Encode(f), 0x70 + 4 * i) == StringBase(f) + Offset(Pieces(f.items), i)
  {
    var r, offsets := Encode(f), Offsets(f);
    assert offsets[i] == OffsetOf(f, i) == StringBase(f) + Offset(Pieces(f.items), i);
    OffsetsPart(f);
    hide *;
    Word32In(r, 0x70, offsets, i);
  }

  lemma OffsetsPart(f: File)
    requires Length(f) < WORD
    ensures 0x70 + 4 * |Offsets(f)| <= |Encode(f)| && Encode(f)[0x70..0x70 + 4 * |Offsets(f)|] == Words32(Offsets(f))
  {
    hide Words32, Flatten, Offsets, Pieces, Encode;
    Parts(f);
  }

  lemma TypePlaced(f: File, i: nat)
    requires Length(f) < WORD && i < |f.types|
    ensures TypesOff(f) + 4 * i + 4 <= |Encode(f)| && Le32(Encode(f), TypesOff(f) + 4 * i) == f.types[i]
  {
    TypesPart(f);
    hide *;
    Word32In(Encode(f), TypesOff(f), f.types, i);
  }

  lemma TypesPart(f: File)
    requires Length(f) < WORD
    ensures TypesOff(f) + 4 * |f.types| <= |Encode(f)|
    ensures Encode(f)[TypesOff(f)..TypesOff(f) + 4 * |f.types|] == Words32(f.types)
  {
    hide Words32, Flatten, Offsets, Pieces, Encode;
    Parts(f);
  }

  lemma ClassPlaced(f: File, i: nat)
    requires Length(f) < WORD && i < |f.classes|
    ensures TypesOff(f) + 4 * |f.types| + 32 * i + 4 <= |Encode(f)|
    ensures Le32(Encode(f), TypesOff(f) + 4 * |f.types| + 32 * i) == f.classes[i]
  {
    var r, at := Encode(f), TypesOff(f) + 4 * |f.types|;
    ClassesPart(f);
    hide *;
    ClassDefAt(f.classes, i);
    Le32Slice(r, at, |r|, 32 * i);
  }

  lemma ClassesPart(f: File)
    requires Length(f) < WORD
    ensures |Encode(f)| == TypesOff(f) + 4 * |f.types| + 32 * |f.classes|
    ensures Encode(f)[TypesOff(f) + 4 * |f.types|..|Encode(f)|] == ClassDefs(f.classes)
  {
    hide Words32, Flatten, Offsets, Pieces, Encode, ClassDefs;
    Parts(f);
  }

  lemma LengthFits(f: File)
    requires Length(f) < WORD
    ensures Buffer(Encode(f)) &&
            TablesFit(Encode(f), Tables(|f.items|, 0x70, |f.types|, TypesOff(f), |f.classes|, TypesOff(f) +
                4 * |f.types|))
  {
  }

  /** The encoder's output is a layout of its input. */
  lemma EncodeLays(f: File)
    requires Length(f) < WORD
    ensures Lays(Encode(f), f)
  {
    HeaderRead(f);
    var r := Encode(f);
    hide Encode, Le32, TypesOff, Header, ItemBytes, At, IsDex;
    LengthFits(f);
    forall i | 0 <= i < |f.items| ensures At(r, Le32(r, 0x70 + 4 * i), ItemBytes(f.items[i])) {
      ItemPlaced(f, i);
    }
    forall i | 0 <= i < |f.types| ensures Le32(r, TypesOff(f) + 4 * i) == f.types[i] {
      TypePlaced(f, i);
    }
    forall i | 0 <= i < |f.classes| ensures Le32(r, TypesOff(f) + 4 * |f.types| + 32 * i) == f.classes[i] {
      ClassPlaced(f, i);
    }
  }

  /** Encoding and reading back is the identity on NUL-free strings and on class descriptors. */
  lemma DexRoundTrip(f: File)
    requires Length(f) < WORD && GoodItems(f.items) && |f.items| <= MAX_STRINGS && 0 < |f.classes| <= MAX_CLASSES
    ensures Strings(Encode(f)) == Ok(Texts(f.items)) && ClassNames(Encode(f)) == Ok(Descriptors(f, 0))
  {
    hide Encode, Lays, Strings, ClassNames, Buffer;
    EncodeLays(f);
    StringsReadBack(Encode(f), f);
    ClassNamesReadBack(Encode(f), f);
  }
}
