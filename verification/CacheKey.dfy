/** The key of the answer cache: a hash of four length-prefixed fields. */
module CacheKey {
  import opened Bytes
  import opened Text

  const COLON: Byte := 0x3a
  const BAR: Byte := 0x7c

  /** Length in decimal, colon, field, bar. */
  function Record(field: Str): Str { Decimal(|field|) + [COLON] + field + [BAR] }

  function Preimage(fields: seq<Str>): Str {
    if fields == [] then [] else Preimage(fields[..|fields| - 1]) + Record(fields[|fields| - 1])
  }

  /** What is hashed for a provider, model, formatted temperature and prompt, in that order. */
  function Fields(provider: Str, modelName: Str, temperature: Str, prompt: Str): seq<Str> {
    [provider, modelName, temperature, prompt]
  }

  /** The first sixteen bytes of the hash, in hexadecimal. */
  function HexText(s: seq<Byte>): (r: Str)
    ensures |r| == 2 * |s|
  {
    if s == [] then [] else Hex(s[0], 2) + HexText(s[1..])
  }

  method Key(hash: Str -> Str, format: real -> Str, provider: Str, modelName: Str, prompt: Str, temperature: real)
    returns (key: Str)
    requires forall s :: |hash(s)| == 32
    ensures key == HexText(hash(Preimage(Fields(provider, modelName, format(temperature), prompt)))[..16])
  {
    var fields := [provider, modelName, format(temperature), prompt];
    var b: Str := [];
    for k := 0 to |fields|
      invariant b == Preimage(fields[..k])
    {
      assert fields[..k + 1][..k] == fields[..k];
      b := b + Decimal(|fields[k]|) + [COLON] + fields[k] + [BAR];
      assert b == Preimage(fields[..k]) + Record(fields[k]);
    }
    assert fields[..|fields|] == fields;
    key := HexText(hash(b)[..16]);
  }

  // ---- reading a preimage back ----

  predicate IsDigit(b: Byte) { 0x30 <= b <= 0x39 }

  /** The number at the front, and what follows it. */
  function ReadDecimal(s: Str, acc: nat): (r: (nat, Str))
    ensures |r.1| <= |s|
  {
    if s != [] && IsDigit(s[0]) then ReadDecimal(s[1..], 10 * acc + (s[0] - 0x30)) else (acc, s)
  }

  /** The first record's field, and what follows the record. */
  function ReadRecord(s: Str): (r: Option<(Str, Str)>)
    ensures r.Some? ==> |r.value.1| < |s|
  {
    var (n, rest) := ReadDecimal(s, 0);
    if rest == [] || rest[0] != COLON || |rest| < n + 2 || rest[n + 1] != BAR then None
    else Some((rest[1..n + 1], rest[n + 2..]))
  }

  function ReadAll(s: Str): Option<seq<Str>>
    decreases |s|
  {
    if s == [] then Some([])
    else
      match ReadRecord(s)
      case None => None
      case Some((field, rest)) =>
        match ReadAll(rest)
        case None => None
        case Some(fields) => Some([field] + fields)
  }

  lemma {:induction false} DecimalRead(n: nat, rest: Str)
    ensures ReadDecimal(Decimal(n) + rest, 0) == ReadDecimal(rest, n)
  {
    if n < 10 {
      var s := Decimal(n) + rest;
      assert s[1..] == rest;
    } else {
      var d := [Digit(n % 10)];
      assert Decimal(n) + rest == Decimal(n / 10) + (d + rest);
      DecimalRead(n / 10, d + rest);
      assert (d + rest)[1..] == rest;
    }
  }

  lemma RecordRead(field: Str, rest: Str)
    ensures ReadRecord(Record(field) + rest) == Some((field, rest))
  {
    hide Decimal, ReadDecimal;
    var tail := [COLON] + field + [BAR] + rest;
    assert Record(field) + rest == Decimal(|field|) + tail;
    DecimalRead(|field|, tail);
    StopsAtColon(tail, |field|);
    assert tail[1..|field| + 1] == field && tail[|field| + 2..] == rest;
  }

  lemma StopsAtColon(s: Str, n: nat)
    requires s != [] && s[0] == COLON
    ensures ReadDecimal(s, n) == (n, s)
  {
  }

  lemma {:induction false} PreimageFront(fields: seq<Str>)
    requires fields != []
    ensures Preimage(fields) == Record(fields[0]) + Preimage(fields[1..])
  {
    hide Record;
    var n := |fields| - 1;
    if n > 0 {
      PreimageFront(fields[..n]);
      assert fields[..n][1..] == fields[1..][..n - 1];
    }
  }

  /** The four records, or any number of them, can be read back whatever the fields contain. */
  lemma {:induction false} ReadUndoesPreimage(fields: seq<Str>)
    ensures ReadAll(Preimage(fields)) == Some(fields)
  {
    hide Record, ReadRecord;
    if fields != [] {
      PreimageFront(fields);
      RecordRead(fields[0], Preimage(fields[1..]));
      NotEmpty(fields[0], Preimage(fields[1..]));
      ReadUndoesPreimage(fields[1..]);
      assert fields == [fields[0]] + fields[1..];
    }
  }

  lemma NotEmpty(field: Str, rest: Str)
    ensures Record(field) + rest != []
  {
  }

  lemma {:induction false} HexTextInjective(a: seq<Byte>, b: seq<Byte>)
    requires HexText(a) == HexText(b)
    ensures a == b
  {
    if a != [] && b != [] {
      var s := HexText(a);
      assert s[..2] == Hex(a[0], 2) == Hex(b[0], 2) && s[2..] == HexText(a[1..]) == HexText(b[1..]);
      ByteOfHex(a[0], b[0]);
      HexTextInjective(a[1..], b[1..]);
      assert a == [a[0]] + a[1..] && b == [b[0]] + b[1..];
    }
  }

  lemma ByteOfHex(a: Byte, b: Byte)
    requires Hex(a, 2) == Hex(b, 2)
    ensures a == b
  {
    assert Hex(a, 2)[1] == Digit(a % 16) && Hex(b, 2)[1] == Digit(b % 16);
    assert Hex(a, 2)[0] == Digit(a / 16 % 16) && Hex(b, 2)[0] == Digit(b / 16 % 16);
  }

  /** Two requests share a cache key only if they agree in all four fields, or their hashes collide. */
  lemma SameKeySameRequest(hash: Str -> Str, p: seq<Str>, q: seq<Str>)
    requires |hash(Preimage(p))| == |hash(Preimage(q))| == 32
    requires HexText(hash(Preimage(p))[..16]) == HexText(hash(Preimage(q))[..16])
    ensures p == q || (Preimage(p) != Preimage(q) && hash(Preimage(p))[..16] == hash(Preimage(q))[..16])
  {
    hide Preimage;
    HexTextInjective(hash(Preimage(p))[..16], hash(Preimage(q))[..16]);
    ReadUndoesPreimage(p);
    ReadUndoesPreimage(q);
  }
}
