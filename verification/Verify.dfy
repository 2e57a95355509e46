/** Verification of a signed APK: every signer's signature and content digest.

    Keys, signatures and hashes are parameters. The results say exactly when a file verifies, and
    that two files verified under the same signed data protect the same bytes unless the hash collides.
 */
module Verify {
  import opened Bytes
  import opened ContentDigest
  import opened Signers

  datatype HashKind = Sha256 | Sha512
  datatype Scheme = RsaPss | RsaPkcs1 | Ecdsa
  datatype Algorithm = Algorithm(id: U32, hash: HashKind, scheme: Scheme)

  const SUPPORTED: seq<Algorithm> := [
    Algorithm(0x0101, Sha256, RsaPss), Algorithm(0x0102, Sha512, RsaPss),
    Algorithm(0x0103, Sha256, RsaPkcs1), Algorithm(0x0104, Sha512, RsaPkcs1),
    Algorithm(0x0201, Sha256, Ecdsa), Algorithm(0x0202, Sha512, Ecdsa)]

  datatype KeyKind = RsaKey | EcdsaKey | OtherKey

  /** Key parsing, signature checking and hashing. */
  datatype Crypto = Crypto(
    keyKind: seq<Byte> -> Option<KeyKind>,
    signatureOk: (Algorithm, seq<Byte>, seq<Byte>, seq<Byte>) -> bool,
    hash: HashKind -> Hash)

  datatype Note =
    | Verified | NoSigners | UnsupportedAlgorithm | MissingDigest | InvalidKey | InvalidSignature
    | DigestError | DigestMismatch

  // ---- records of an algorithm id and a payload ----

  datatype Record = Record(id: U32, payload: seq<Byte>)

  function RecordOf(item: seq<Byte>): Option<Record> {
    if |item| < 4 then None
    else
      var f := ReadPrefixed(item[4..]);
      if f.None? then None else Some(Record(Le32(item, 0), f.value.value))
  }

  /** The first record that is well formed and wanted. */
  function FirstRecord(items: seq<seq<Byte>>, wanted: U32 -> bool): Option<Record> {
    if items == [] then None
    else
      var r := RecordOf(items[0]);
      if r.Some? && wanted(r.value.id) then r else FirstRecord(items[1..], wanted)
  }

  /** The first wanted record is the only one no earlier wanted record precedes. */
  lemma {:induction false} FirstRecordIsFirst(items: seq<seq<Byte>>, wanted: U32 -> bool, i: nat)
    requires i < |items| && RecordOf(items[i]).Some? && wanted(RecordOf(items[i]).value.id)
    requires forall j :: 0 <= j < i && RecordOf(items[j]).Some? ==> !wanted(RecordOf(items[j]).value.id)
    ensures FirstRecord(items, wanted) == RecordOf(items[i])
  {
    hide RecordOf;
    if i > 0 {
      assert forall j :: 0 <= j < i - 1 ==> items[1..][j] == items[j + 1];
      FirstRecordIsFirst(items[1..], wanted, i - 1);
    }
  }

  function RecordBytes(r: Record, trailer: seq<Byte>): seq<Byte>
    requires Short(r.payload)
  {
    Put32(r.id) + (Prefixed(r.payload) + trailer)
  }

  lemma RecordReadBack(r: Record, trailer: seq<Byte>)
    requires Short(r.payload)
    ensures RecordOf(RecordBytes(r, trailer)) == Some(r)
  {
    hide Put32, Prefixed, ReadPrefixed;
    var item := RecordBytes(r, trailer);
    assert item[0..4] == Put32(r.id) && item[4..] == Prefixed(r.payload) + trailer;
    Le32Slice(item, 0, 4, 0);
    PrefixedReadBack(r.payload, trailer);
  }

  function AlgorithmFrom(algs: seq<Algorithm>, id: U32): Option<Algorithm> {
    if algs == [] then None else if algs[0].id == id then Some(algs[0]) else AlgorithmFrom(algs[1..], id)
  }

  function AlgorithmOf(id: U32): Option<Algorithm> { AlgorithmFrom(SUPPORTED, id) }

  const IS_SUPPORTED: U32 -> bool := (id: U32) => AlgorithmOf(id).Some?

  function Signature(signatures: seq<Byte>): Option<Record> { FirstRecord(Items(signatures), IS_SUPPORTED) }

  function DigestFor(signedData: seq<Byte>, id: U32): Option<Record> {
    var digests := ReadPrefixed(signedData);
    if digests.None? then None else FirstRecord(Items(digests.value.value), (x: U32) => x == id)
  }

  method FindSignature(signatures: seq<Byte>) returns (alg: Option<Algorithm>, signature: seq<Byte>)
    ensures alg.Some? == Signature(signatures).Some?
    ensures alg.Some? ==>
            alg == AlgorithmOf(Signature(signatures).value.id) && signature == Signature(signatures).value.payload
  {
    hide AlgorithmOf, ReadPrefixed;
    var buf := signatures;
    while |buf| > 0
      invariant FirstRecord(Items(buf), IS_SUPPORTED) == Signature(signatures)
      decreases |buf|
    {
      var f := ReadPrefixed(buf);
      if f.None? { break; }
      FieldIsShorter(buf);
      assert Items(buf)[1..] == Items(f.value.rest);
      var record := RecordOf(f.value.value);
      if record.Some? {
        var found := AlgorithmOf(record.value.id);
        if found.Some? { return found, record.value.payload; }
      }
      buf := f.value.rest;
    }
    NoItems(buf);
    alg, signature := None, [];
  }

  method FindDigest(signedData: seq<Byte>, id: U32) returns (digest: Option<seq<Byte>>)
    ensures digest == if DigestFor(signedData, id).None? then None else Some(DigestFor(signedData, id).value.payload)
  {
    hide ReadPrefixed;
    var digests := ReadPrefixed(signedData);
    if digests.None? { return None; }
    var wanted := (x: U32) => x == id;
    var buf := digests.value.value;
    while |buf| > 0
      invariant FirstRecord(Items(buf), wanted) == FirstRecord(Items(digests.value.value), wanted)
      decreases |buf|
    {
      var f := ReadPrefixed(buf);
      if f.None? { break; }
      FieldIsShorter(buf);
      assert Items(buf)[1..] == Items(f.value.rest);
      var record := RecordOf(f.value.value);
      if record.Some? && record.value.id == id { return Some(record.value.payload); }
      buf := f.value.rest;
    }
    NoItems(buf);
    digest := None;
  }

  // ---- one signer ----

  predicate KeyMatches(kind: KeyKind, scheme: Scheme) {
    match scheme
    case Ecdsa => kind == EcdsaKey
    case _ => kind == RsaKey
  }

  /** A signer with a supported signature, a matching key, a valid signature, and the file's own digest. */
  predicate Genuine(c: Crypto, file: seq<Byte>, block: Block, s: Signer) {
    && Signature(s.signatures).Some?
    && var signature := Signature(s.signatures).value;
       var alg := AlgorithmOf(signature.id);
    && alg.Some?
    && DigestFor(s.signedData, alg.value.id).Some?
    && c.keyKind(s.publicKey).Some? && KeyMatches(c.keyKind(s.publicKey).value, alg.value.scheme)
    && c.signatureOk(alg.value, s.publicKey, s.signedData, signature.payload)
    && Digest(c.hash(alg.value.hash), file, block) == Some(DigestFor(s.signedData, alg.value.id).value.payload)
  }

  /** The first requirement a signer misses, in the order they are checked. */
  function Judgement(c: Crypto, file: seq<Byte>, block: Block, s: Signer): Note {
    var signature := Signature(s.signatures);
    if signature.None? || AlgorithmOf(signature.value.id).None? then UnsupportedAlgorithm
    else
      var alg := AlgorithmOf(signature.value.id).value;
      if DigestFor(s.signedData, alg.id).None? then MissingDigest
      else if c.keyKind(s.publicKey).None? || !KeyMatches(c.keyKind(s.publicKey).value, alg.scheme) then InvalidKey
      else if !c.signatureOk(alg, s.publicKey, s.signedData, signature.value.payload) then InvalidSignature
      else
        var digest := Digest(c.hash(alg.hash), file, block);
        if digest.None? then DigestError
        else if digest.value != DigestFor(s.signedData, alg.id).value.payload then DigestMismatch
        else Verified
  }

  lemma GenuineIsJudgedVerified(c: Crypto, file: seq<Byte>, block: Block, s: Signer)
    ensures Genuine(c, file, block, s) <==> Judgement(c, file, block, s) == Verified
  {
    hide Signature, DigestFor, Digest, AlgorithmOf;
  }

  method VerifySchemeSigner(c: Crypto, file: seq<Byte>, block: Block, s: Signer) returns (ok: bool, note: Note)
    ensures note == Judgement(c, file, block, s) && ok == (note == Verified)
    ensures ok == Genuine(c, file, block, s)
  {
    GenuineIsJudgedVerified(c, file, block, s);
    hide Genuine, Signature, DigestFor, Digest, AlgorithmOf;
    var alg, signature := FindSignature(s.signatures);
    if alg.None? { return false, UnsupportedAlgorithm; }
    AlgorithmHasId(Signature(s.signatures).value.id);
    var expected := FindDigest(s.signedData, alg.value.id);
    if expected.None? { return false, MissingDigest; }
    var key := c.keyKind(s.publicKey);
    if key.None? { return false, InvalidKey; }
    match alg.value.scheme {
      case Ecdsa =>
        if key.value != EcdsaKey { return false, InvalidKey; }
        if !c.signatureOk(alg.value, s.publicKey, s.signedData, signature) { return false, InvalidSignature; }
      case _ =>
        if key.value != RsaKey { return false, InvalidKey; }
        if !c.signatureOk(alg.value, s.publicKey, s.signedData, signature) { return false, InvalidSignature; }
    }
    var computed := ApkContentDigest(c.hash(alg.value.hash), file, block);
    if computed.None? { return false, DigestError; }
    if computed.value != expected.value { return false, DigestMismatch; }
    return true, Verified;
  }

  lemma AlgorithmHasId(id: U32)
    ensures AlgorithmOf(id).Some? ==> AlgorithmOf(id).value.id == id
  {
    AlgorithmFromHasId(SUPPORTED, id);
  }

  lemma {:induction false} AlgorithmFromHasId(algs: seq<Algorithm>, id: U32)
    ensures AlgorithmFrom(algs, id).Some? ==> AlgorithmFrom(algs, id).value.id == id
  {
    if algs != [] { AlgorithmFromHasId(algs[1..], id); }
  }

  // ---- all signers ----

  /** A file verifies exactly when it has signers and every one of them is genuine. */
  method VerifySchemeSigners(c: Crypto, file: seq<Byte>, block: Block, signers: seq<Signer>)
    returns (ok: bool, note: Note)
    ensures ok <==> signers != [] && forall s :: s in signers ==> Genuine(c, file, block, s)
    ensures ok <==> note == Verified
    ensures signers == [] <==> note == NoSigners
    ensures signers != [] && !ok ==>
              exists i :: 0 <= i < |signers| && note == Judgement(c, file, block, signers[i])
                          && forall k :: 0 <= k < i ==> Genuine(c, file, block, signers[k])
  {
    hide Genuine, Judgement;
    if |signers| == 0 { return false, NoSigners; }
    for i := 0 to |signers|
      invariant forall k :: 0 <= k < i ==> Genuine(c, file, block, signers[k])
    {
      ok, note := VerifySchemeSigner(c, file, block, signers[i]);
      if !ok {
        JudgementIsNotNoSigners(c, file, block, signers[i]);
        assert signers[i] in signers;
        return;
      }
    }
    return true, Verified;
  }

  lemma JudgementIsNotNoSigners(c: Crypto, file: seq<Byte>, block: Block, s: Signer)
    ensures Judgement(c, file, block, s) != NoSigners
  {
  }

  /** Two files that verify under one signed statement protect the same bytes, or a hash collision is exhibited. */
  lemma VerifiedFilesAgree(c: Crypto, n: nat, f1: seq<Byte>, b1: Block, s1: Signer, f2: seq<Byte>, b2: Block,
      s2: Signer)
    returns (x: seq<Byte>, y: seq<Byte>)
    requires Genuine(c, f1, b1, s1) && Genuine(c, f2, b2, s2) && Placed(b1) && Placed(b2)
    requires s1.signedData == s2.signedData && Signature(s1.signatures).value.id == Signature(s2.signatures).value.id
    requires FixedLength(c.hash(AlgorithmOf(Signature(s1.signatures).value.id).value.hash), n)
    ensures
      var h := c.hash(AlgorithmOf(Signature(s1.signatures).value.id).value.hash);
      || (&& Contents(f1, b1) == Contents(f2, b2)
          && CentralDirectory(f1, b1) == CentralDirectory(f2, b2)
          && Patched(b1.eocd, b1.offset) == Patched(b2.eocd, b2.offset))
      || (&& HashedPieces(f1, b1).Some? && HashedPieces(f2, b2).Some?
          && Collision(h, HashedPieces(f1, b1).value, HashedPieces(f2, b2).value, x, y))
  {
    hide Signature, DigestFor, AlgorithmOf, Collision, Patched, Contents, CentralDirectory, HashedPieces;
    x, y := DigestSound(c.hash(AlgorithmOf(Signature(s1.signatures).value.id).value.hash), n, f1, b1, f2, b2);
  }
}
