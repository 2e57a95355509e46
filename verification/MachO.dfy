/** Mach-O images, thin and universal, in either byte order and width. */
module MachO {
  import opened Bytes

  const MAGIC32: U32 := 0xfeed_face
  const MAGIC64: U32 := 0xfeed_facf
  const CIGAM32: U32 := 0xcefa_edfe
  const CIGAM64: U32 := 0xcffa_edfe
  const FAT: U32 := 0xcafe_babe
  const FAT64: U32 := 0xcafe_babf
  const MAX_FATS := 16
  const MAX_COMMANDS := 4096

  /** Commands that load a library, each also with the bias bit 0x01000000. */
  const DYLIB_COMMANDS: set<U32> :=
    {0x0c, 0x18, 0x1f, 0x23, 0x0100_000c, 0x0100_0018, 0x0100_001f, 0x0100_0023}
  const ENCRYPTION_COMMANDS: set<U32> := {0x21, 0x2c}

  // ---- architectures ----

  /** Hexadecimal digits without leading zeros. */
  function HexDigits(n: nat): Str {
    (if n < 16 then [] else HexDigits(n / 16)) + [if n % 16 < 10 then 0x30 + n % 16 else 0x57 + n % 16]
  }

  function ArchForCPU(cpu: U32): (r: Str)
    ensures r != []
  {
    if cpu == 0x0100_000c then Ascii("arm64")
    else if cpu == 0x0200_000c then Ascii("arm64_32")
    else if cpu == 0x0000_000c then Ascii("armv7")
    else if cpu == 0x0100_0007 then Ascii("x86_64")
    else if cpu == 0x0000_0007 then Ascii("i386")
    else Ascii("cpu_") + HexDigits(cpu)
  }

  // ---- one image ----

  /** What load commands tell: whether the image is encrypted, and the libraries it links. */
  datatype Found = Found(encrypted: bool, dylibs: seq<Str>)
  const NOTHING := Found(false, [])

  function Join(a: Found, b: Found): Found { Found(a.encrypted || b.encrypted, a.dylibs + b.dylibs) }

  /** The first zero byte in data[start..end], or end. */
  function ZeroFrom(data: seq<Byte>, start: nat, end: nat): (r: nat)
    requires start <= end <= |data|
    ensures start <= r <= end
    decreases end - start
  {
    if start == end || data[start] == 0 then start else ZeroFrom(data, start + 1, end)
  }

  /** One load command of the given kind and size. */
  function Command(data: seq<Byte>, big: bool, off: nat, kind: U32, size: U32): Found
    requires off + size <= |data|
  {
    if kind in ENCRYPTION_COMMANDS then
      Found(off + 20 <= |data| && Get32(big, data, off + 16) != 0, [])
    else if kind in DYLIB_COMMANDS && off + 12 <= |data| then
      var nameOff := Get32(big, data, off + 8);
      if nameOff == 0 || nameOff >= size then NOTHING
      else
        var start, end := off + nameOff, off + size;
        var zero := ZeroFrom(data, start, end);
        if zero == start || zero == end then NOTHING else Found(false, [data[start..zero]])
    else NOTHING
  }

  /** At most `left` commands from an offset on, until one does not fit. */
  function Commands(data: seq<Byte>, big: bool, off: nat, left: nat): Found
    decreases left
  {
    if left == 0 || off + 8 > |data| then NOTHING
    else
      var kind, size := Get32(big, data, off), Get32(big, data, off + 4);
      if size < 8 || off + size > |data| then NOTHING
      else Join(Command(data, big, off, kind, size), Commands(data, big, off + size, left - 1))
  }

  /** Byte order and width by magic number. */
  datatype Form = Form(big: bool, wide: bool)

  function FormOf(magic: U32): Option<Form> {
    if magic == MAGIC64 then Some(Form(false, true))
    else if magic == MAGIC32 then Some(Form(false, false))
    else if magic == CIGAM64 then Some(Form(true, true))
    else if magic == CIGAM32 then Some(Form(true, false))
    else None
  }

  /** Architecture (empty if this is no image) and what the commands tell. */
  function Slice(data: seq<Byte>, base: int): (Str, Found) {
    if base < 0 || base + 28 > |data| || FormOf(Le32(data, base)).None? then ([], NOTHING)
    else
      var f := FormOf(Le32(data, base)).value;
      var arch, n := ArchForCPU(Get32(f.big, data, base + 4)), Get32(f.big, data, base + 16);
      if n == 0 || n > MAX_COMMANDS then (arch, NOTHING)
      else (arch, Commands(data, f.big, base + (if f.wide then 32 else 28), n))
  }

  method ParseSlice(data: seq<Byte>, base: int) returns (arch: Str, encrypted: bool, dylibs: seq<Str>)
    ensures (arch, Found(encrypted, dylibs)) == Slice(data, base)
  {
    hide ArchForCPU, Get32, Command;
    if base < 0 || base + 28 > |data| { return [], false, []; }
    var big, wide: bool;
    var magic := Le32(data, base);
    if magic == MAGIC64 { big, wide := false, true; }
    else if magic == MAGIC32 { big, wide := false, false; }
    else if magic == CIGAM64 { big, wide := true, true; }
    else if magic == CIGAM32 { big, wide := true, false; }
    else { return [], false, []; }
    arch := ArchForCPU(Get32(big, data, base + 4));
    var n := Get32(big, data, base + 16);
    if n == 0 || n > MAX_COMMANDS { return arch, false, []; }
    encrypted, dylibs := WalkCommands(data, big, base + if wide then 32 else 28, n);
  }

  method WalkCommands(data: seq<Byte>, big: bool, start: nat, n: nat) returns (encrypted: bool, dylibs: seq<Str>)
    ensures Found(encrypted, dylibs) == Commands(data, big, start, n)
  {
    hide Get32, Command;
    encrypted, dylibs := false, [];
    var off: nat := start;
    for i := 0 to n
      invariant Join(Found(encrypted, dylibs), Commands(data, big, off, n - i)) == Commands(data, big, start, n)
    {
      if off + 8 > |data| { break; }
      var kind, size := Get32(big, data, off), Get32(big, data, off + 4);
      if size < 8 { break; }
      if off + size > |data| { break; }
      var enc, dylib := InspectCommand(data, big, off, kind, size);
      JoinThree(Found(encrypted, dylibs), Found(enc, dylib), Commands(data, big, off + size, n - i - 1));
      if enc { encrypted := true; }
      dylibs := dylibs + dylib;
      off := off + size;
    }
    assert Join(Found(encrypted, dylibs), NOTHING) == Found(encrypted, dylibs);
  }

  lemma JoinThree(a: Found, b: Found, c: Found)
    ensures Join(Join(a, b), c) == Join(a, Join(b, c))
  {
  }

  method InspectCommand(data: seq<Byte>, big: bool, off: nat, kind: U32, size: U32)
    returns (encrypted: bool, dylibs: seq<Str>)
    requires off + size <= |data|
    ensures Found(encrypted, dylibs) == Command(data, big, off, kind, size)
  {
    hide Get32;
    encrypted, dylibs := false, [];
    if kind in ENCRYPTION_COMMANDS {
      if off + 20 <= |data| && Get32(big, data, off + 16) != 0 { encrypted := true; }
    } else if kind in DYLIB_COMMANDS {
      if off + 12 <= |data| {
        var nameOff := Get32(big, data, off + 8);
        if nameOff > 0 && nameOff < size {
          var idx := IndexOfZero(data, off + nameOff, off + size);
          if idx > 0 { dylibs := [data[off + nameOff..off + nameOff + idx]]; }
        }
      }
    }
  }

  /** Index of the first zero byte of a slice, or -1. */
  method IndexOfZero(data: seq<Byte>, start: nat, end: nat) returns (idx: int)
    requires start <= end <= |data|
    ensures idx == if ZeroFrom(data, start, end) == end then -1 else ZeroFrom(data, start, end) - start
  {
    for i := start to end
      invariant ZeroFrom(data, i, end) == ZeroFrom(data, start, end)
    {
      if data[i] == 0 { return i - start; }
    }
    idx := -1;
  }

  // ---- lists without duplicates ----

  /** Appends what is not there yet. */
  function AddNew(list: seq<Str>, s: Str): seq<Str> { if s == [] || s in list then list else list + [s] }

  /** The first occurrences of the non-empty strings, behind a list of earlier ones. */
  function Union(list: seq<Str>, more: seq<Str>): seq<Str>
    decreases |more|
  {
    if more == [] then list else Union(AddNew(list, more[0]), more[1..])
  }

  predicate NoRepeats(list: seq<Str>) {
    (forall i :: 0 <= i < |list| ==> list[i] != []) && forall i, j :: 0 <= i < j < |list| ==> list[i] != list[j]
  }

  /** A union extends its list, has no repeats, and holds exactly the non-empty strings of both. */
  lemma {:induction false} UnionIsUnion(list: seq<Str>, more: seq<Str>)
    requires NoRepeats(list)
    ensures var u := Union(list, more);
            && |list| <= |u| && u[..|list|] == list && NoRepeats(u)
            && forall s :: s in u <==> s in list || (s in more && s != [])
    decreases |more|
  {
    if more != [] {
      UnionIsUnion(AddNew(list, more[0]), more[1..]);
      assert more == [more[0]] + more[1..];
    }
  }

  /** Where a string first occurs. */
  function FirstAt(list: seq<Str>, s: Str): (i: nat)
    requires s in list
    ensures i < |list| && list[i] == s && s !in list[..i]
  {
    if list[0] == s then 0
    else
      var i := 1 + FirstAt(list[1..], s);
      assert list[..i] == [list[0]] + list[1..][..i - 1];
      i
  }

  lemma FirstLater(list: seq<Str>, s: Str)
    requires list != [] && s != list[0] && s in list[1..]
    ensures s in list && FirstAt(list, s) == 1 + FirstAt(list[1..], s)
  {
    assert list == [list[0]] + list[1..];
  }

  /** What a union adds stands in the order of first occurrence. */
  lemma {:induction false} UnionKeepsOrder(list: seq<Str>, more: seq<Str>)
    requires NoRepeats(list)
    ensures var u := Union(list, more);
            && (forall i :: |list| <= i < |u| ==> u[i] in more)
            && (forall i, j :: |list| <= i < j < |u| ==> FirstAt(more, u[i]) < FirstAt(more, u[j]))
    decreases |more|
  {
    if more != [] {
      var next, rest := AddNew(list, more[0]), more[1..];
      var u := Union(list, more);
      assert u == Union(next, rest) && |next| <= |list| + 1;
      UnionIsUnion(next, rest);
      UnionKeepsOrder(next, rest);
      assert |list| < |next| ==> u[|list|] == u[..|next|][|list|] == more[0];
      forall i | |next| <= i < |u| ensures u[i] in more && FirstAt(more, u[i]) == 1 + FirstAt(rest, u[i]) {
        OtherThanFirst(list, more[0], u, i);
        FirstLater(more, u[i]);
      }
      hide Union, AddNew, NoRepeats;
    }
  }

  /** What comes behind the first addition is not that addition. */
  lemma OtherThanFirst(list: seq<Str>, s: Str, u: seq<Str>, i: nat)
    requires var next := AddNew(list, s); |next| <= i < |u| && u[..|next|] == next && NoRepeats(u)
    ensures u[i] != s
  {
    var next := AddNew(list, s);
    if s != [] {
      var k :| 0 <= k < |next| && next[k] == s;
      assert u[k] == u[..|next|][k];
    }
  }

  lemma {:induction false} UnionSplits(list: seq<Str>, a: seq<Str>, b: seq<Str>)
    ensures Union(list, a + b) == Union(Union(list, a), b)
    decreases |a|
  {
    if a == [] {
      assert a + b == b;
    } else {
      assert (a + b)[1..] == a[1..] + b;
      UnionSplits(AddNew(list, a[0]), a[1..], b);
    }
  }

  method DedupeStrings(input: seq<Str>) returns (out: seq<Str>)
    ensures out == Union([], input)
  {
    var seen: set<Str> := {};
    out := [];
    for k := 0 to |input|
      invariant Union(out, input[k..]) == Union([], input)
      invariant forall s :: s in seen <==> s in out
    {
      assert input[k..][0] == input[k] && input[k..][1..] == input[k + 1..];
      if input[k] == [] || input[k] in seen { continue; }
      seen := seen + {input[k]};
      out := out + [input[k]];
    }
  }

  // ---- universal files ----

  predicate IsFAT(data: seq<Byte>) { |data| >= 8 && Get32(true, data, 0) in {FAT, FAT64} }

  /** A 64-bit field read into a signed integer. */
  function SignedOffset(v: U64): int { if v < 0x8000_0000_0000_0000 then v else v - 0x1_0000_0000_0000_0000 }

  function EntrySize(wide: bool): nat { if wide then 32 else 20 }

  /** The slice offset in an entry of the table. */
  function EntryOffset(data: seq<Byte>, wide: bool, off: nat): int
    requires off + EntrySize(wide) <= |data|
  {
    if wide then SignedOffset(Get64(data, off + 8)) else Get32(true, data, off + 8)
  }

  /** The usable slice offsets from a table position on, until an entry does not fit. */
  function SliceOffsets(data: seq<Byte>, wide: bool, off: nat, left: nat): (r: seq<nat>)
    ensures forall i :: 0 <= i < |r| ==> r[i] < |data|
    decreases left
  {
    if left == 0 || off + EntrySize(wide) > |data| then []
    else
      var at := EntryOffset(data, wide, off);
      (if 0 <= at < |data| then [at as nat] else []) + SliceOffsets(data, wide, off + EntrySize(wide), left - 1)
  }

  /** The architectures of the slices, in order. */
  function Archs(data: seq<Byte>, offsets: seq<nat>): seq<Str> {
    if offsets == [] then [] else Archs(data, offsets[..|offsets| - 1]) + [Slice(data, offsets[|offsets| - 1]).0]
  }

  /** What all slices together tell. */
  function AllFound(data: seq<Byte>, offsets: seq<nat>): Found {
    if offsets == [] then NOTHING
    else Join(AllFound(data, offsets[..|offsets| - 1]), Slice(data, offsets[|offsets| - 1]).1)
  }

  /** The slices a universal header announces; none if their number is implausible. */
  function Announced(data: seq<Byte>): Option<seq<nat>>
    requires IsFAT(data)
  {
    var n := Get32(true, data, 4);
    if n == 0 || n > MAX_FATS then None
    else Some(SliceOffsets(data, Get32(true, data, 0) == FAT64, 8, n))
  }

  /** The first four bytes are one of the six magic numbers, in either byte order. */
  predicate IsMagic(data: seq<Byte>)
    requires |data| >= 4
  {
    Get32(true, data, 0) in {MAGIC32, MAGIC64, CIGAM32, CIGAM64, FAT, FAT64}
  }

  /** What is recorded of a binary: its architectures, whether it is encrypted, and the libraries it links. */
  function Inspected(data: seq<Byte>): (seq<Str>, Found) {
    if |data| < 32 || !IsMagic(data) then ([], NOTHING)
    else if IsFAT(data) then
      match Announced(data)
      case None => ([], NOTHING)
      case Some(offsets) =>
        var all := AllFound(data, offsets);
        (Union([], Archs(data, offsets)), Found(all.encrypted, Union([], all.dylibs)))
    else
      var s := Slice(data, 0);
      (if s.0 == [] then [] else [s.0], Found(s.1.encrypted, Union([], s.1.dylibs)))
  }

  /** The record of one binary that parsing fills in. */
  class NativeLib {
    var archs: seq<Str>
    var encrypted: bool
    var linked: seq<Str>

    constructor ()
      ensures archs == [] && !encrypted && linked == []
    {
      archs, encrypted, linked := [], false, [];
    }

    method MergeSlice(data: seq<Byte>, at: nat)
      modifies this
      ensures archs == AddNew(old(archs), Slice(data, at).0)
      ensures Found(encrypted, linked) == Join(Found(old(encrypted), old(linked)), Slice(data, at).1)
    {
      hide Slice;
      var arch, enc, dylibs := ParseSlice(data, at);
      if arch != [] && arch !in archs { archs := archs + [arch]; }
      if enc { encrypted := true; }
      linked := linked + dylibs;
    }

    /** Inspects the bytes of a binary: universal files slice by slice, others as one image. */
    method Inspect(data: seq<Byte>)
      requires archs == [] && !encrypted && linked == []
      modifies this
      ensures (archs, Found(encrypted, linked)) == Inspected(data)
    {
      hide Slice, Get32, SliceOffsets, Archs, AllFound, Union;
      if |data| < 32 { return; }
      if !IsMagic(data) { return; }
      if IsFAT(data) {
        ParseFAT(data);
        assert Announced(data).Some? ==>
               [] + AllFound(data, Announced(data).value).dylibs == AllFound(data, Announced(data).value).dylibs;
      } else {
        var arch, enc, dylibs := ParseSlice(data, 0);
        if arch != [] { archs := archs + [arch]; }
        encrypted := enc;
        linked := DedupeStrings(dylibs);
        assert archs == if arch == [] then [] else [arch];
        assert Found(encrypted, linked) == Found(Slice(data, 0).1.encrypted, Union([], Slice(data, 0).1.dylibs));
      }
    }

    /** Merges all slices of a universal file into the record. */
    method ParseFAT(data: seq<Byte>)
      requires IsFAT(data)
      modifies this
      ensures var offsets := Announced(data);
              if offsets.None? then archs == old(archs) && encrypted == old(encrypted) && linked == old(linked)
              else && archs == Union(old(archs), Archs(data, offsets.value))
                   && encrypted == (old(encrypted) || AllFound(data, offsets.value).encrypted)
                   && linked == Union([], old(linked) + AllFound(data, offsets.value).dylibs)
    {
      hide Slice, Get32;
      var wide := Get32(true, data, 0) == FAT64;
      var n := Get32(true, data, 4);
      if n <= 0 || n > MAX_FATS { return; }
      WalkSlices(data, wide, n);
      linked := DedupeStrings(linked);
    }

    method WalkSlices(data: seq<Byte>, wide: bool, n: nat)
      requires |data| >= 8
      modifies this
      ensures var offsets := SliceOffsets(data, wide, 8, n);
              && archs == Union(old(archs), Archs(data, offsets))
              && Found(encrypted, linked) == Join(Found(old(encrypted), old(linked)), AllFound(data, offsets))
    {
      hide Slice, EntryOffset, Archs, AllFound, Union, AddNew, SliceOffsets, Join;
      ghost var met: seq<nat> := [];
      ghost var all := SliceOffsets(data, wide, 8, n);
      NoneMet(data, archs);
      var off: nat := 8;
      for i := 0 to n
        invariant met + SliceOffsets(data, wide, off, n - i) == all
        invariant archs == Union(old(archs), Archs(data, met))
        invariant Found(encrypted, linked) == Join(Found(old(encrypted), old(linked)), AllFound(data, met))
      {
        NextEntry(data, wide, off, n - i, met, all);
        if off + EntrySize(wide) > |data| {
          assert met == all;
          break;
        }
        var at := EntryOffset(data, wide, off);
        if !(at < 0 || at >= |data|) {
          MetOne(data, old(archs), met, at);
          JoinThree(Found(old(encrypted), old(linked)), AllFound(data, met), Slice(data, at).1);
          MergeSlice(data, at);
          met := met + [at];
        }
        off := off + EntrySize(wide);
      }
      assert met == all by { NoMoreEntries(data, wide, off); }
    }
  }

  lemma NoMoreEntries(data: seq<Byte>, wide: bool, off: nat)
    ensures SliceOffsets(data, wide, off, 0) == []
  {
  }

  lemma NoneMet(data: seq<Byte>, archs: seq<Str>)
    ensures Archs(data, []) == [] && AllFound(data, []) == NOTHING && Union(archs, []) == archs
    ensures forall f :: Join(f, NOTHING) == f
  {
  }

  /** One table entry: its offset is met if it lies in the file. */
  lemma NextEntry(data: seq<Byte>, wide: bool, off: nat, left: nat, met: seq<nat>, all: seq<nat>)
    requires left > 0 && met + SliceOffsets(data, wide, off, left) == all
    ensures if off + EntrySize(wide) > |data| then met == all
            else
              var at, rest := EntryOffset(data, wide, off), SliceOffsets(data, wide, off + EntrySize(wide), left - 1);
              (if 0 <= at < |data| then met + [at as nat] else met) + rest == all
  {
    if off + EntrySize(wide) <= |data| {
      var at, rest := EntryOffset(data, wide, off), SliceOffsets(data, wide, off + EntrySize(wide), left - 1);
      if 0 <= at < |data| {
        assert met + ([at as nat] + rest) == met + [at as nat] + rest;
      } else {
        assert [] + rest == rest;
      }
    }
  }

  lemma MetOne(data: seq<Byte>, archs: seq<Str>, met: seq<nat>, at: nat)
    ensures Union(archs, Archs(data, met + [at])) == AddNew(Union(archs, Archs(data, met)), Slice(data, at).0)
    ensures AllFound(data, met + [at]) == Join(AllFound(data, met), Slice(data, at).1)
  {
    hide Slice;
    assert (met + [at])[..|met|] == met;
    var arch := Slice(data, at).0;
    UnionSplits(archs, Archs(data, met), [arch]);
    var one: seq<Str> := [arch];
    assert one[1..] == [];
  }
}
