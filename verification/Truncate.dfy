/** Cutting code context to a byte budget without splitting a UTF-8 rune. */
module Truncate {
  import opened Bytes

  const SUFFIX := Ascii("\n... [truncated]")

  /** Any byte but 10xxxxxx can begin a rune. */
  predicate RuneStart(b: Byte) { !(0x80 <= b < 0xc0) }

  /** The last place, at most `max`, at which a rune starts. */
  predicate IsCut(code: Str, max: nat, cut: nat) {
    && cut <= max < |code|
    && (cut == 0 || RuneStart(code[cut]))
    && forall k :: cut < k <= max ==> !RuneStart(code[k])
  }

  /** A negative budget ends in a slice out of range; otherwise the text and whether it was cut. */
  method TruncateContext(code: Str, maxChars: int) returns (r: Option<(Str, bool)>)
    ensures r.None? <==> maxChars < 0
    ensures 0 <= |code| <= maxChars ==> r == Some((code, false))
    ensures 0 <= maxChars < |code| ==>
            exists cut: nat :: IsCut(code, maxChars, cut) && r == Some((code[..cut] + SUFFIX, true))
  {
    if |code| <= maxChars { return Some((code, false)); }
    if maxChars < 0 { return None; }
    var cut := maxChars;
    while cut > 0 && !RuneStart(code[cut])
      invariant 0 <= cut <= maxChars
      invariant forall k :: cut < k <= maxChars ==> !RuneStart(code[k])
    {
      cut := cut - 1;
    }
    assert IsCut(code, maxChars, cut);
    r := Some((code[..cut] + SUFFIX, true));
  }

  // ---- whole runes ----

  /** The bytes of one encoded rune: a start byte and continuation bytes. */
  predicate Rune(r: Str) { r != [] && RuneStart(r[0]) && forall k :: 1 <= k < |r| ==> !RuneStart(r[k]) }

  predicate Runes(rs: seq<Str>) { forall i :: 0 <= i < |rs| ==> Rune(rs[i]) }

  /** In a text of whole runes the cut keeps the longest prefix of whole runes that fits. */
  lemma {:induction false} CutKeepsWholeRunes(rs: seq<Str>, max: nat, cut: nat) returns (m: nat)
    requires Runes(rs) && IsCut(Flatten(rs), max, cut)
    ensures m < |rs| && Flatten(rs)[..cut] == Flatten(rs[..m])
    ensures cut <= max < cut + |rs[m]|
  {
    var s, n := Flatten(rs), |rs[0]|;
    assert Rune(rs[0]) && s == rs[0] + Flatten(rs[1..]);
    if max < n {
      m := 0;
      assert s[..n] == rs[0];
      assert rs[..0] == [];
    } else {
      var rest := Flatten(rs[1..]);
      assert rest != [] && rs[1..] != [];
      assert Rune(rs[1]);
      FirstOfRest(rs);
      assert s[n] == rest[0];
      assert cut >= n;
      ShiftCut(rs[0], rest, max, cut);
      var k := CutKeepsWholeRunes(rs[1..], max - n, cut - n);
      m := k + 1;
      assert rs[..m][1..] == rs[1..][..k];
      assert s[..cut] == rs[0] + rest[..cut - n];
    }
  }

  lemma FirstOfRest(rs: seq<Str>)
    requires |rs| > 1 && Rune(rs[1])
    ensures var rest := Flatten(rs[1..]); rest != [] && RuneStart(rest[0])
  {
  }

  lemma ShiftCut(first: Str, rest: Str, max: nat, cut: nat)
    requires IsCut(first + rest, max, cut) && |first| <= cut
    ensures IsCut(rest, max - |first|, cut - |first|)
  {
    var s := first + rest;
    assert forall k :: 0 <= k < |rest| ==> rest[k] == s[|first| + k];
    forall k | cut - |first| < k <= max - |first| ensures !RuneStart(rest[k]) {
      assert !RuneStart(s[|first| + k]);
    }
  }
}
