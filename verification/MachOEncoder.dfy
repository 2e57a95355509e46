/** Layouts of Mach-O images in every byte order and width, and proofs that reading them gives the same answer. */
module MachOEncoder {
  import opened Bytes
  import opened MachO

  const WORD := 0x1_0000_0000

  /** A load command: one that links a library, one that announces encryption, or any other. */
  datatype LoadCommand =
    | Dylib(kind: U32, gap: seq<Byte>, name: Str, pad: seq<Byte>)
    | Encryption(kind: U32, start: U32, length: U32, cryptID: U32, pad: seq<Byte>)
    | Other(kind: U32, payload: seq<Byte>)

  datatype Image = Image(cpu: U32, subtype: U32, fileType: U32, flags: U32, commands: seq<LoadCommand>)

  function Size(c: LoadCommand): nat {
    match c
    case Dylib(_, gap, name, pad) => 12 + |gap| + |name| + 1 + |pad|
    case Encryption(_, _, _, _, pad) => 20 + |pad|
    case Other(_, payload) => 8 + |payload|
  }

  predicate NulFree(s: Str) { forall k :: 0 <= k < |s| ==> s[k] != 0 }

  predicate Good(c: LoadCommand) {
    && Size(c) < WORD
    && match c
       case Dylib(kind, _, name, _) => kind in DYLIB_COMMANDS && name != [] && NulFree(name)
       case Encryption(kind, _, _, _, _) => kind in ENCRYPTION_COMMANDS
       case Other(kind, _) => kind !in DYLIB_COMMANDS && kind !in ENCRYPTION_COMMANDS
  }

  /** What one command tells. */
  function TellsOne(c: LoadCommand): Found {
    match c
    case Dylib(_, _, name, _) => Found(false, [name])
    case Encryption(_, _, _, id, _) => Found(id != 0, [])
    case Other(_, _) => NOTHING
  }

  function Tells(cs: seq<LoadCommand>): Found {
    if cs == [] then NOTHING else Join(TellsOne(cs[0]), Tells(cs[1..]))
  }

  // ---- encoding ----

  function Words(big: bool, ws: seq<U32>): (r: seq<Byte>)
    ensures |r| == 4 * |ws|
  {
    if ws == [] then [] else Set32(big, ws[0]) + Words(big, ws[1..])
  }

  lemma {:induction false} WordAt(big: bool, data: seq<Byte>, off: nat, ws: seq<U32>, i: nat)
    requires At(data, off, Words(big, ws)) && i < |ws|
    ensures off + 4 * i + 4 <= |data| && Get32(big, data, off + 4 * i) == ws[i]
    decreases i
  {
    hide Get32, Set32;
    AtParts(data, off, Set32(big, ws[0]), Words(big, ws[1..]));
    if i == 0 {
      Get32Slice(big, data, off, off + 4, 0);
    } else {
      WordAt(big, data, off + 4, ws[1..], i - 1);
    }
  }

  function CommandWords(c: LoadCommand): seq<U32>
    requires Size(c) < WORD
  {
    match c
    case Dylib(kind, gap, _, _) => [kind, Size(c), 12 + |gap|]
    case Encryption(kind, start, length, id, _) => [kind, Size(c), start, length, id]
    case Other(kind, _) => [kind, Size(c)]
  }

  function CommandTail(c: LoadCommand): seq<Byte> {
    match c
    case Dylib(_, gap, name, pad) => gap + (name + ([0] + pad))
    case Encryption(_, _, _, _, pad) => pad
    case Other(_, payload) => payload
  }

  function CommandBytes(big: bool, c: LoadCommand): (r: seq<Byte>)
    requires Size(c) < WORD
    ensures |r| == Size(c)
  {
    Words(big, CommandWords(c)) + CommandTail(c)
  }

  predicate AllGood(cs: seq<LoadCommand>) { forall i :: 0 <= i < |cs| ==> Good(cs[i]) }

  function CommandsBytes(big: bool, cs: seq<LoadCommand>): seq<Byte>
    requires AllGood(cs)
  {
    if cs == [] then [] else CommandBytes(big, cs[0]) + CommandsBytes(big, cs[1..])
  }

  function Magic(wide: bool): U32 { if wide then MAGIC64 else MAGIC32 }

  predicate GoodImage(img: Image) { AllGood(img.commands) && |img.commands| < WORD }

  /** The header words; the commands' total size is not checked by the reader, so any word does. */
  function HeaderWords(form: Form, img: Image, total: U32): seq<U32>
    requires GoodImage(img)
  {
    [Magic(form.wide), img.cpu, img.subtype, img.fileType, |img.commands|, total, img.flags]
    + if form.wide then [0] else []
  }

  function EncodeImage(form: Form, img: Image, total: U32): seq<Byte>
    requires GoodImage(img)
  {
    Words(form.big, HeaderWords(form, img, total)) + CommandsBytes(form.big, img.commands)
  }

  // ---- reading back ----

  lemma {:induction false} NameEnds(data: seq<Byte>, start: nat, name: Str, rest: seq<Byte>, end: nat)
    requires NulFree(name) && At(data, start, name + ([0] + rest)) && start + |name| < end <= |data|
    ensures ZeroFrom(data, start, end) == start + |name|
    decreases |name|
  {
    var all := name + ([0] + rest);
    var here := data[start..start + |all|];
    assert data[start] == here[0];
    if name != [] {
      assert all == [name[0]] + (name[1..] + ([0] + rest));
      AtParts(data, start, [name[0]], name[1..] + ([0] + rest));
      NameEnds(data, start + 1, name[1..], rest, end);
    }
  }

  lemma DylibReadBack(data: seq<Byte>, off: nat, big: bool, c: LoadCommand)
    requires Good(c) && c.Dylib? && At(data, off, CommandBytes(big, c))
    ensures Command(data, big, off, c.kind, Size(c)) == TellsOne(c)
  {
    hide Words, Get32, ZeroFrom, NulFree, At;
    AtParts(data, off, Words(big, CommandWords(c)), CommandTail(c));
    WordAt(big, data, off, CommandWords(c), 2);
    DylibName(data, off + 12, c.gap, c.name, c.pad, off + Size(c));
    OnlyDylib(c.kind);
  }

  lemma OnlyDylib(kind: U32)
    requires kind in DYLIB_COMMANDS
    ensures kind !in ENCRYPTION_COMMANDS
  {
  }

  lemma DylibName(data: seq<Byte>, off: nat, gap: seq<Byte>, name: Str, pad: seq<Byte>, end: nat)
    requires NulFree(name) && At(data, off, gap + (name + ([0] + pad))) && end == off + |gap| + |name| + 1 + |pad|
    ensures var at := off + |gap|;
            at + |name| < end <= |data| && ZeroFrom(data, at, end) == at + |name| && data[at..at + |name|] == name
  {
    hide NulFree, ZeroFrom;
    AtParts(data, off, gap, name + ([0] + pad));
    NameEnds(data, off + |gap|, name, pad, end);
    AtParts(data, off + |gap|, name, [0] + pad);
  }

  lemma CommandReadBack(data: seq<Byte>, off: nat, big: bool, c: LoadCommand)
    requires Good(c) && At(data, off, CommandBytes(big, c))
    ensures 8 <= Size(c) && off + Size(c) <= |data|
    ensures Get32(big, data, off) == c.kind && Get32(big, data, off + 4) == Size(c)
    ensures Command(data, big, off, c.kind, Size(c)) == TellsOne(c)
  {
    hide Words, Get32, NulFree;
    AtParts(data, off, Words(big, CommandWords(c)), CommandTail(c));
    WordAt(big, data, off, CommandWords(c), 0);
    WordAt(big, data, off, CommandWords(c), 1);
    if c.Dylib? {
      DylibReadBack(data, off, big, c);
    } else if c.Encryption? {
      WordAt(big, data, off, CommandWords(c), 4);
    }
  }

  lemma {:induction false} CommandsReadBack(data: seq<Byte>, off: nat, big: bool, cs: seq<LoadCommand>)
    requires AllGood(cs) && At(data, off, CommandsBytes(big, cs))
    ensures Commands(data, big, off, |cs|) == Tells(cs)
    decreases |cs|
  {
    hide CommandBytes, Command, TellsOne, Get32;
    if cs != [] {
      assert Good(cs[0]);
      AtParts(data, off, CommandBytes(big, cs[0]), CommandsBytes(big, cs[1..]));
      CommandReadBack(data, off, big, cs[0]);
      CommandsReadBack(data, off + Size(cs[0]), big, cs[1..]);
    }
  }

  /** The magic number tells the form. */
  lemma FormRead(data: seq<Byte>, base: nat, form: Form)
    requires base + 4 <= |data| && Get32(form.big, data, base) == Magic(form.wide)
    ensures FormOf(Le32(data, base)) == Some(form)
  {
    if form.big {
      Reversed(data[base + 3], data[base + 2], data[base + 1], data[base], Magic(form.wide));
    }
  }

  lemma Reversed(b0: Byte, b1: Byte, b2: Byte, b3: Byte, magic: U32)
    requires Le32([b0, b1, b2, b3], 0) == magic && (magic == MAGIC32 || magic == MAGIC64)
    ensures Le32([b3, b2, b1, b0], 0) == if magic == MAGIC32 then CIGAM32 else CIGAM64
  {
    Put32Of([b0, b1, b2, b3]);
    assert b3 == 0xfe && b2 == 0xed && b1 == 0xfa;
  }

  /** What an image tells, in whatever form: its architecture, and what its commands tell unless they are too many. */
  function Told(img: Image): (Str, Found) {
    (ArchForCPU(img.cpu), if |img.commands| > MAX_COMMANDS then NOTHING else Tells(img.commands))
  }

  /** Reading an image back at any offset, in any byte order and width. */
  lemma ImageReadBack(data: seq<Byte>, base: nat, form: Form, img: Image, total: U32)
    requires GoodImage(img) && At(data, base, EncodeImage(form, img, total))
    ensures Slice(data, base) == Told(img)
  {
    hide Words, CommandsBytes, ArchForCPU, Commands, Tells, Get32, AllGood, FormOf;
    var ws := HeaderWords(form, img, total);
    AtParts(data, base, Words(form.big, ws), CommandsBytes(form.big, img.commands));
    WordAt(form.big, data, base, ws, 0);
    WordAt(form.big, data, base, ws, 1);
    WordAt(form.big, data, base, ws, 4);
    FormRead(data, base, form);
    if img.commands == [] {
      NothingTold();
    } else if |img.commands| <= MAX_COMMANDS {
      CommandsReadBack(data, base + 4 * |ws|, form.big, img.commands);
    }
  }

  lemma NothingTold()
    ensures Tells([]) == NOTHING
  {
  }

  /** Two encodings of one image read alike, wherever they lie and whatever surrounds them. */
  lemma FormDoesNotMatter(data1: seq<Byte>, base1: nat, form1: Form, total1: U32,
                          data2: seq<Byte>, base2: nat, form2: Form, total2: U32, img: Image)
    requires GoodImage(img) && At(data1, base1, EncodeImage(form1, img, total1)) &&
             At(data2, base2, EncodeImage(form2, img, total2))
    ensures Slice(data1, base1) == Slice(data2, base2)
  {
    hide *;
    ImageReadBack(data1, base1, form1, img, total1);
    ImageReadBack(data2, base2, form2, img, total2);
  }

  // ---- universal files ----

  /** One slice of a universal file. */
  datatype Placed = Placed(form: Form, img: Image, total: U32, offset: nat)

  /** Where entry i of the table begins. */
  function EntryAt(wide: bool, i: nat): (r: nat)
    ensures EntryAt(wide, i) + EntrySize(wide) == if wide then 8 + 32 * (i + 1) else 8 + 20 * (i + 1)
  {
    if wide then 8 + 32 * i else 8 + 20 * i
  }

  /** The buffer starts with a universal header whose table entries lead to the images. */
  ghost predicate LaysFAT(data: seq<Byte>, wide: bool, slices: seq<Placed>) {
    && EntryAt(wide, |slices|) <= |data| && 0 < |slices| <= MAX_FATS
    && Get32(true, data, 0) == (if wide then FAT64 else FAT) && Get32(true, data, 4) == |slices|
    && forall i :: 0 <= i < |slices| ==> LaysSlice(data, wide, i, slices[i])
  }

  ghost predicate LaysSlice(data: seq<Byte>, wide: bool, i: nat, s: Placed) {
    && EntryAt(wide, i) + EntrySize(wide) <= |data|
    && EntryOffset(data, wide, EntryAt(wide, i)) == s.offset < |data|
    && GoodImage(s.img) && At(data, s.offset, EncodeImage(s.form, s.img, s.total))
  }

  function OffsetsOf(slices: seq<Placed>): (r: seq<nat>)
    ensures |r| == |slices|
  {
    seq(|slices|, i requires 0 <= i < |slices| => slices[i].offset)
  }

  /** The architectures of the images, and what all their commands tell, in order. */
  function ArchsOf(slices: seq<Placed>): seq<Str> {
    if slices == [] then [] else ArchsOf(slices[..|slices| - 1]) + [Told(slices[|slices| - 1].img).0]
  }

  function ToldByAll(slices: seq<Placed>): Found {
    if slices == [] then NOTHING else Join(ToldByAll(slices[..|slices| - 1]), Told(slices[|slices| - 1].img).1)
  }

  /** One entry of the table. */
  lemma OffsetFound(data: seq<Byte>, wide: bool, off: nat, left: nat, s: Placed)
    requires off + EntrySize(wide) <= |data| && left > 0 && EntryOffset(data, wide, off) == s.offset < |data|
    ensures SliceOffsets(data, wide, off, left) ==
            [s.offset] + SliceOffsets(data, wide, off + EntrySize(wide), left - 1)
  {
    hide EntryOffset, EntrySize;
  }

  lemma EntryLaid(data: seq<Byte>, wide: bool, slices: seq<Placed>, i: nat)
    requires LaysFAT(data, wide, slices) && i < |slices|
    ensures EntryAt(wide, i + 1) == EntryAt(wide, i) + EntrySize(wide) <= |data|
    ensures EntryOffset(data, wide, EntryAt(wide, i)) == slices[i].offset < |data|
  {
    hide GoodImage, EncodeImage, EntryOffset, At, Get32;
    assert LaysSlice(data, wide, i, slices[i]);
  }

  lemma NextOffset(slices: seq<Placed>, i: nat)
    requires i < |slices|
    ensures OffsetsOf(slices)[i..] == [slices[i].offset] + OffsetsOf(slices)[i + 1..]
  {
  }

  lemma {:induction false} OffsetsReadBack(data: seq<Byte>, wide: bool, slices: seq<Placed>, i: nat)
    requires LaysFAT(data, wide, slices) && i <= |slices|
    ensures SliceOffsets(data, wide, EntryAt(wide, i), |slices| - i) == OffsetsOf(slices)[i..]
    decreases |slices| - i
  {
    hide LaysFAT, EntryAt, EntrySize, EntryOffset, OffsetsOf;
    if i < |slices| {
      hide SliceOffsets;
      EntryLaid(data, wide, slices, i);
      OffsetFound(data, wide, EntryAt(wide, i), |slices| - i, slices[i]);
      OffsetsReadBack(data, wide, slices, i + 1);
      NextOffset(slices, i);
    } else {
      assert OffsetsOf(slices)[i..] == [];
    }
  }

  lemma {:induction false} SlicesReadBack(data: seq<Byte>, wide: bool, all: seq<Placed>, n: nat)
    requires n <= |all| && forall i :: 0 <= i < |all| ==> LaysSlice(data, wide, i, all[i])
    ensures Archs(data, OffsetsOf(all)[..n]) == ArchsOf(all[..n]) &&
            AllFound(data, OffsetsOf(all)[..n]) == ToldByAll(all[..n])
  {
    hide GoodImage, EncodeImage, Get32, EntryOffset, Slice, Told;
    if n > 0 {
      var last := all[n - 1];
      assert LaysSlice(data, wide, n - 1, last);
      ImageReadBack(data, last.offset, last.form, last.img, last.total);
      SlicesReadBack(data, wide, all, n - 1);
      assert OffsetsOf(all)[..n][..n - 1] == OffsetsOf(all)[..n - 1] && all[..n][..n - 1] == all[..n - 1];
    }
  }

  /** A universal file announces its slices, and they tell what the images tell, whatever form each is in. */
  lemma UniversalReadBack(data: seq<Byte>, wide: bool, slices: seq<Placed>)
    requires LaysFAT(data, wide, slices)
    ensures IsFAT(data) && Announced(data) == Some(OffsetsOf(slices))
    ensures Archs(data, OffsetsOf(slices)) == ArchsOf(slices) && AllFound(data, OffsetsOf(slices)) == ToldByAll(slices)
  {
    hide Get32, LaysSlice, OffsetsOf, SliceOffsets, ArchsOf, ToldByAll, Archs, AllFound, Announced;
    OffsetsReadBack(data, wide, slices, 0);
    SlicesReadBack(data, wide, slices, |slices|);
    HeaderAnnounces(data, wide, slices);
    Whole(OffsetsOf(slices));
    Whole(slices);
  }

  lemma Whole<T>(s: seq<T>)
    ensures s[..|s|] == s == s[0..]
  {
  }

  lemma HeaderAnnounces(data: seq<Byte>, wide: bool, slices: seq<Placed>)
    requires LaysFAT(data, wide, slices)
    ensures IsFAT(data) && Announced(data) == Some(SliceOffsets(data, wide, 8, |slices|))
  {
    hide Get32, LaysSlice, SliceOffsets;
  }

  // ---- thin and universal ----

  /** A file that starts with an image has its magic number, and is not universal. */
  lemma ThinMagic(data: seq<Byte>, form: Form)
    requires |data| >= 8 && Get32(form.big, data, 0) == Magic(form.wide)
    ensures IsMagic(data) && !IsFAT(data)
  {
    if !form.big { Reversed(data[0], data[1], data[2], data[3], Magic(form.wide)); }
  }

  lemma ThinReadBack(data: seq<Byte>, form: Form, img: Image, total: U32)
    requires |data| >= 32 && GoodImage(img) && At(data, 0, EncodeImage(form, img, total))
    ensures Inspected(data) == ([Told(img).0], Found(Told(img).1.encrypted, Union([], Told(img).1.dylibs)))
  {
    hide Words, CommandsBytes, Slice, Get32, AllGood, Told, Union, IsMagic, IsFAT;
    var ws := HeaderWords(form, img, total);
    AtParts(data, 0, Words(form.big, ws), CommandsBytes(form.big, img.commands));
    WordAt(form.big, data, 0, ws, 0);
    ThinMagic(data, form);
    ImageReadBack(data, 0, form, img, total);
    ToldHasArch(img);
  }

  lemma ToldHasArch(img: Image)
    ensures Told(img).0 != []
  {
  }

  lemma SingleReadBack(data: seq<Byte>, wide: bool, s: Placed)
    requires |data| >= 32 && LaysFAT(data, wide, [s])
    ensures Inspected(data) == ([Told(s.img).0], Found(Told(s.img).1.encrypted, Union([], Told(s.img).1.dylibs)))
  {
    hide LaysFAT, Slice, Get32, GoodImage, Told, Archs, AllFound;
    UniversalReadBack(data, wide, [s]);
    OneSlice(s);
    ToldHasArch(s.img);
    hide Slice, Get32, GoodImage, Told, LaysFAT, Archs, AllFound, ArchsOf, ToldByAll, OffsetsOf, Announced;
    var one: seq<Str> := [Told(s.img).0];
    assert one[1..] == [];
    assert Union([], one) == one;
  }

  lemma OneSlice(s: Placed)
    ensures ArchsOf([s]) == [Told(s.img).0] && ToldByAll([s]) == Told(s.img).1
  {
    var one, none: seq<Placed> := [s], [];
    assert one[..0] == none && ArchsOf(none) == [];
    hide Told;
  }

  /** An image inspects alike as a thin file and as the only slice of a universal file, in any two forms. */
  lemma ContainerDoesNotMatter(thin: seq<Byte>, form: Form, total: U32, universal: seq<Byte>, wide: bool, s: Placed)
    requires |thin| >= 32 && GoodImage(s.img) && At(thin, 0, EncodeImage(form, s.img, total))
    requires |universal| >= 32 && LaysFAT(universal, wide, [s])
    ensures Inspected(thin) == Inspected(universal)
  {
    hide *;
    ThinReadBack(thin, form, s.img, total);
    SingleReadBack(universal, wide, s);
  }
}
